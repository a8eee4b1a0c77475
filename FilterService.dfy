/**
 * The server's side of the query features (`backend/app.py`): how a filter
 * reply from the language model becomes the filter list sent to the browser
 * (fence stripping, required fields, attribute aliases and the
 * knowledge-based rewrites), how a chat reply is split into its text and its
 * sources, and the summary record sent when a summary reply cannot be read.
 *
 * The reply text is decoded by a function passed in; the model does not
 * describe JSON syntax.
 */
module FilterService {
  import opened Text
  import opened Numbers
  import opened BackendModel

  /** A decoded JSON document as Python holds it. */
  datatype Json = Scalar(v: PyValue) | JList(items: seq<Json>) | JDict(fields: map<string, Json>)

  function JStr(s: string): Json {
    Scalar(PStr(s))
  }

  predicate IsText(j: Json) {
    j.Scalar? && j.v.PStr?
  }

  // ---------------------------------------------------------------- fences

  const Fence: string := "```"
  const JsonFence: string := "```json"

  lemma PrefixFound(t: string, p: string)
    requires p != [] && StartsWith(t, p)
    ensures IndexOf(t, p) == Some(0) && Contains(t, p)
  {
  }

  /** The first piece of a split is the text before the first occurrence, or all of it. */
  lemma FirstPiece(s: string, p: string)
    requires p != []
    ensures Split(s, p)[0] == if IndexOf(s, p).None? then s else s[..IndexOf(s, p).value]
  {
  }

  /** Splitting at a separator that starts the text gives an empty first piece. */
  lemma SplitAtStart(t: string, p: string)
    requires p != [] && StartsWith(t, p)
    ensures |Split(t, p)| >= 2 && Split(t, p)[1] == Split(t[|p|..], p)[0]
  {
    PrefixFound(t, p);
  }

  /** What lies between an opening separator that starts the text and the next fence has no fence. */
  lemma FencedPieceClean(t: string, open: string)
    requires open != [] && StartsWith(t, open)
    ensures |Split(t, open)| >= 2 && !Contains(Strip(Split(Split(t, open)[1], Fence)[0]), Fence)
  {
    PrefixFound(t, open);
    StripNoneIn(Split(Split(t, open)[1], Fence)[0], Fence);
  }

  /** A tagged fence is a fence. */
  lemma TaggedFenceIsFence(t: string)
    requires StartsWith(t, JsonFence)
    ensures StartsWith(t, Fence)
  {
    assert t[..3] == t[..7][..3];
  }

  /**
   * The text the reply is decoded from: a reply that starts with a fence
   * keeps only what lies between the opening fence (with its `json` tag,
   * if any) and the next fence, as Python's `split` finds them.
   */
  function StripFences(reply: string): (r: string)
    ensures !StartsWith(Strip(reply), Fence) ==> r == Strip(reply)
    ensures StartsWith(Strip(reply), Fence) ==> !Contains(r, Fence)
  {
    var t := Strip(reply);
    if StartsWith(t, JsonFence) then
      TaggedFenceIsFence(t);
      FencedPieceClean(t, JsonFence);
      Strip(Split(Split(t, JsonFence)[1], Fence)[0])
    else if StartsWith(t, Fence) then
      FencedPieceClean(t, Fence);
      Strip(Split(Split(t, Fence)[1], Fence)[0])
    else t
  }

  predicate NoBacktick(s: string) {
    forall i :: 0 <= i < |s| ==> s[i] != '`'
  }

  /** Splitting text that cannot start the separator leaves it whole. */
  lemma FirstPieceWhole(x: string, p: string)
    requires p != [] && p[0] == '`' && NoBacktick(x)
    ensures Split(x, p)[0] == x
  {
    IndexOfSkip(x, [], p);
    assert x + [] == x;
  }

  /** The first piece of `x + y`, where `y` starts with the separator, is `x`. */
  lemma FirstPieceBefore(x: string, y: string, p: string)
    requires p != [] && p[0] == '`' && NoBacktick(x) && StartsWith(y, p)
    ensures Split(x + y, p)[0] == x
  {
    IndexOfSkip(x, y, p);
    PrefixFound(y, p);
    assert (x + y)[..|x|] == x;
  }

  /** A reply that starts with a fence and ends with a fence or a non-space has no whitespace at either end. */
  lemma FencedReplyUnpadded(open: string, body: string, rest: string)
    requires open != [] && open[0] == '`'
    requires rest == [] || !IsSpace(rest[|rest| - 1])
    ensures Unpadded(open + body + Fence + rest)
  {
    var reply := open + body + Fence + rest;
    assert reply[0] == '`';
    assert reply[|reply| - 1] == if rest == [] then '`' else rest[|rest| - 1];
  }

  /** An unpadded reply opening with a tagged fence decodes from what lies between it and the next fence. */
  lemma StripFencesTagged(t: string)
    requires Unpadded(t) && StartsWith(t, JsonFence)
    ensures |Split(t, JsonFence)| >= 2 && StripFences(t) == Strip(Split(Split(t, JsonFence)[1], Fence)[0])
  {
    StripUnpadded(t);
    FencedPieceClean(t, JsonFence);
  }

  /** A tagged fence cannot start inside a closing fence unless a backtick follows it. */
  lemma NoTaggedFenceInside(rest: string)
    requires rest == [] || rest[0] != '`'
    ensures forall k :: 1 <= k <= 2 ==> !OccursAt(Fence + rest, JsonFence, k)
  {
    var u := Fence + rest;
    forall k | 1 <= k <= 2 ensures !OccursAt(u, JsonFence, k) {
      if k + 7 <= |u| {
        assert u[k..k + 7][3 - k] == u[3];
      }
    }
  }

  /** Up to the next tagged fence: the body, then nothing or text that opens with a fence. */
  lemma TaggedPieceParts(body: string, rest: string) returns (w: string)
    requires NoBacktick(body) && (rest == [] || rest[0] != '`')
    ensures Split(body + (Fence + rest), JsonFence)[0] == body + w
    ensures w == [] || StartsWith(w, Fence)
  {
    var u := Fence + rest;
    IndexOfSkip(body, u, JsonFence);
    NoTaggedFenceInside(rest);
    FirstPiece(body + u, JsonFence);
    var found := IndexOf(u, JsonFence);
    w := if found.None? then u else u[..found.value];
    assert Split(body + u, JsonFence)[0] == body + w;
    if w != [] {
      assert w[..3] == Fence;
    }
  }

  /** Up to the next tagged fence, then up to the next fence: the body before the closing fence. */
  lemma TaggedPieceIsBody(body: string, rest: string)
    requires NoBacktick(body) && (rest == [] || rest[0] != '`')
    ensures Split(Split(body + (Fence + rest), JsonFence)[0], Fence)[0] == body
  {
    var w := TaggedPieceParts(body, rest);
    if w == [] {
      assert body + w == body;
      FirstPieceWhole(body, Fence);
    } else {
      FirstPieceBefore(body, w, Fence);
    }
  }

  /**
   * A reply ```` ```json BODY ``` REST ```` whose body has no backtick
   * decodes from the stripped body.
   */
  lemma JsonFencedBody(body: string, rest: string)
    requires NoBacktick(body)
    requires rest == [] || (rest[0] != '`' && !IsSpace(rest[|rest| - 1]))
    ensures StripFences(JsonFence + body + Fence + rest) == Strip(body)
  {
    var reply := JsonFence + body + Fence + rest;
    FencedReplyUnpadded(JsonFence, body, rest);
    assert reply[..7] == JsonFence;
    assert reply[7..] == body + (Fence + rest);
    SplitAtStart(reply, JsonFence);
    TaggedPieceIsBody(body, rest);
    StripFencesTagged(reply);
  }

  /** The letters of the `json` tag after the fence. */
  lemma JsonFenceLetters()
    ensures |JsonFence| == 7 && JsonFence[3] == 'j' && JsonFence[4] == 's' && JsonFence[5] == 'o' && JsonFence[6] == 'n'
  {
  }

  /** A fence followed by text not starting with `json` and then a backtick is not a tagged fence. */
  lemma UntaggedFence(x: string, y: string)
    requires !StartsWith(x, "json") && (|x| >= 4 || (y != [] && y[0] == '`'))
    ensures !StartsWith(Fence + x + y, JsonFence)
  {
    var t := Fence + x + y;
    JsonFenceLetters();
    if |t| >= 7 {
      if |x| >= 4 {
        assert x[..4] != "json";
        var k :| 0 <= k < 4 && x[k] != "json"[k];
        assert t[..7][3 + k] == x[k];
      } else {
        assert t[..7][3 + |x|] == '`';
      }
    }
  }

  /** An unpadded reply opening with an untagged fence decodes from what lies between its first two fences. */
  lemma StripFencesUntagged(t: string)
    requires Unpadded(t) && StartsWith(t, Fence) && !StartsWith(t, JsonFence)
    ensures |Split(t, Fence)| >= 2 && StripFences(t) == Strip(Split(Split(t, Fence)[1], Fence)[0])
  {
    StripUnpadded(t);
    FencedPieceClean(t, Fence);
  }

  /**
   * A reply ```` ``` BODY ``` REST ```` whose body has no backtick and does
   * not start with `json` decodes from the stripped body.
   */
  lemma FencedBody(body: string, rest: string)
    requires NoBacktick(body) && !StartsWith(body, "json")
    requires rest == [] || !IsSpace(rest[|rest| - 1])
    ensures StripFences(Fence + body + Fence + rest) == Strip(body)
  {
    var reply := Fence + body + Fence + rest;
    FencedReplyUnpadded(Fence, body, rest);
    assert Fence + body + (Fence + rest) == reply;
    assert reply[3..] == body + (Fence + rest);
    UntaggedFence(body, Fence + rest);
    assert reply[..3] == Fence;
    SplitAtStart(reply, Fence);
    FirstPieceBefore(body, Fence + rest, Fence);
    FirstPieceWhole(body, Fence);
    StripFencesUntagged(reply);
  }

  // --------------------------------------------------------------- aliases

  /** The tag name for an attribute name the model may use instead; other names pass through. */
  function CanonicalName(a: string): string {
    if a in ["floors", "levels", "stories", "floor", "level", "story"] then "building:levels"
    else if a in ["type", "building_type"] then "building"
    else if a in ["address", "street"] then "addr:street"
    else if a in ["number", "house_number"] then "addr:housenumber"
    else if a in ["year", "built", "year_built"] then "start_date"
    else a
  }

  /** Normalising an attribute name twice is normalising it once. */
  lemma CanonicalNameIdempotent(a: string)
    ensures CanonicalName(CanonicalName(a)) == CanonicalName(a)
  {
    if CanonicalName(a) != a {
      CanonicalIsFixed(CanonicalName(a));
    }
  }

  /** The five canonical names are not aliases. */
  lemma CanonicalIsFixed(c: string)
    requires c == "building:levels" || c == "building" || c == "addr:street" || c == "addr:housenumber" || c == "start_date"
    ensures CanonicalName(c) == c
  {
  }

  /** The attribute as the filter loop leaves it: only text can match an alias. */
  function NormalizeAttribute(a: Json): Json {
    if IsText(a) then JStr(CanonicalName(a.v.s)) else a
  }

  // -------------------------------------------------------------- rewrites

  /** A knowledge-based rewrite: the filter becomes `name contains value` and the explanation gains a sentence. */
  datatype Rewrite = Rewrite(value: string, sentence: string)

  const HistoricSentence: string := " Using building names and Calgary's historical context to identify likely historical buildings."
  const ModernSentence: string := " Using building names to identify modern buildings in Calgary's skyline."
  const StyleSentence: string := " Using building names to identify buildings with specific architectural styles in Calgary."
  const CulturalSentence: string := " Highlighting culturally significant buildings in Calgary's urban landscape."
  const SustainableSentence: string := " Identifying buildings with sustainable design features in Calgary."

  predicate HistoricCue(q: string) {
    Contains(q, "oldest") || Contains(q, "historical") || Contains(q, "heritage")
  }

  predicate ModernCue(q: string) {
    Contains(q, "newest") || Contains(q, "modern") || Contains(q, "recent")
  }

  predicate StyleCue(q: string) {
    Contains(q, "style") || Contains(q, "architecture") || Contains(q, "design")
  }

  predicate CulturalCue(q: string) {
    Contains(q, "cultural") || Contains(q, "landmark") || Contains(q, "iconic") || Contains(q, "significant")
  }

  predicate SustainableCue(q: string) {
    Contains(q, "sustainable") || Contains(q, "green") || Contains(q, "eco") || Contains(q, "leed")
  }

  function HistoricName(q: string): string {
    if Contains(q, "oldest") then "historic" else if Contains(q, "heritage") then "heritage" else "historic"
  }

  function ModernName(q: string): string {
    if Contains(q, "newest") then "telus" else if Contains(q, "modern") then "bow" else "brookfield"
  }

  function StyleName(q: string): string {
    if Contains(q, "art deco") then "palliser"
    else if Contains(q, "modern") || Contains(q, "contemporary") then "bow"
    else if Contains(q, "brutalist") || Contains(q, "concrete") then "calgary tower"
    else if Contains(q, "glass") then "telus"
    else "bow"
  }

  /**
   * The rewrite a filter gets from the lower-cased query, by the first rule
   * that applies; the first two apply only to a `start_date` filter, the
   * others to any filter.
   */
  function KnowledgeRewrite(isStartDate: bool, q: string): (r: Option<Rewrite>)
    ensures r.None? <==> !(isStartDate && (HistoricCue(q) || ModernCue(q))) && !StyleCue(q) && !CulturalCue(q) && !SustainableCue(q)
    ensures r.Some? ==> r.value.value in {"historic", "heritage", "telus", "bow", "brookfield", "palliser", "calgary tower"}
  {
    if isStartDate && HistoricCue(q) then Some(Rewrite(HistoricName(q), HistoricSentence))
    else if isStartDate && ModernCue(q) then Some(Rewrite(ModernName(q), ModernSentence))
    else if StyleCue(q) then Some(Rewrite(StyleName(q), StyleSentence))
    else if CulturalCue(q) then Some(Rewrite("calgary tower", CulturalSentence))
    else if SustainableCue(q) then Some(Rewrite("bow", SustainableSentence))
    else None
  }

  /** A style word rewrites a filter on any attribute, unless a date rule came first. */
  lemma StyleRewritesAnyAttribute(isStartDate: bool, q: string)
    requires StyleCue(q) && !(isStartDate && (HistoricCue(q) || ModernCue(q)))
    ensures KnowledgeRewrite(isStartDate, q) == Some(Rewrite(StyleName(q), StyleSentence))
  {
  }

  /**
   * The rules match substrings, not words: a query that mentions `second`
   * contains `eco` and, with no earlier rule applying, asks for sustainable
   * buildings.
   */
  lemma SecondMeansSustainable(isStartDate: bool, q: string)
    requires Contains(q, "second")
    requires !(isStartDate && (HistoricCue(q) || ModernCue(q))) && !StyleCue(q) && !CulturalCue(q)
    ensures KnowledgeRewrite(isStartDate, q) == Some(Rewrite("bow", SustainableSentence))
  {
    assert Contains("second", "eco") by {
      assert OccursAt("second", "eco", 1);
      ContainsIffOccurs("second", "eco");
    }
    ContainsTransitive(q, "second", "eco");
  }

  /** `oldest` outranks `heritage`, which outranks `historical`, in a date filter. */
  lemma HistoricPrecedence(q: string)
    requires HistoricCue(q)
    ensures KnowledgeRewrite(true, q).value.value ==
      if Contains(q, "oldest") then "historic" else if Contains(q, "heritage") then "heritage" else "historic"
  {
  }

  /**
   * The explanation with a sentence added: a full stop is put first unless
   * the explanation already ends with one.
   */
  function AppendSentence(e: string, sentence: string): (r: string)
    ensures StartsWith(r, e) && EndsWith(r, sentence)
    ensures EndsWith(r[..|r| - |sentence|], ".")
    ensures |r| - |e| - |sentence| == if EndsWith(e, ".") then 0 else 1
  {
    var stopped := if EndsWith(e, ".") then e else e + ".";
    assert (stopped + sentence)[..|stopped|] == stopped;
    stopped + sentence
  }

  // ------------------------------------------------------------ the filters

  /** What the loop does with one item of the `filters` list. */
  datatype Entry = Skip | Fail | Keep(attribute: Json, operator: Json, value: Json)

  /**
   * `'attribute' not in item or 'operator' not in item or 'value' not in item`
   * skips the item; for a list this tests membership, for text it tests
   * substrings, and anything else raises. An item that passes the test but is
   * not a dictionary raises when it is read.
   */
  function Classify(item: Json): Entry {
    match item
    case JDict(m) =>
      if "attribute" in m && "operator" in m && "value" in m then Keep(m["attribute"], m["operator"], m["value"]) else Skip
    case JList(xs) =>
      if JStr("attribute") in xs && JStr("operator") in xs && JStr("value") in xs then Fail else Skip
    case Scalar(PStr(s)) =>
      if Contains(s, "attribute") && Contains(s, "operator") && Contains(s, "value") then Fail else Skip
    case Scalar(_) => Fail
  }

  /**
   * What `for item in filters` visits: a list's items or a text's characters.
   * A dictionary's keys are texts, each skipped unless it names all three
   * fields, when reading it raises, so their order does not matter. Anything
   * else raises (`None`).
   */
  function Entries(filters: Json): Option<seq<Json>> {
    match filters
    case JList(xs) => Some(xs)
    case Scalar(PStr(s)) => Some(seq(|s|, i requires 0 <= i < |s| => JStr([s[i]])))
    case JDict(m) => if exists k :: k in m && Classify(JStr(k)).Fail? then None else Some([])
    case Scalar(_) => None
  }

  /** A normalised filter as the loop appends it. */
  function FilterDict(a: Json, op: Json, v: Json): Json {
    JDict(map["attribute" := a, "operator" := op, "value" := v])
  }

  /** The filter a kept item becomes, rewritten or with its attribute normalised. */
  function Output(a: Json, op: Json, v: Json, q: string): (r: Json)
    ensures var name := NormalizeAttribute(a);
      match KnowledgeRewrite(name == JStr("start_date"), q)
      case Some(rw) => r == FilterDict(JStr("name"), JStr("contains"), JStr(rw.value))
      case None => r == FilterDict(name, op, v)
  {
    var name := NormalizeAttribute(a);
    match KnowledgeRewrite(name == JStr("start_date"), q)
    case Some(rw) => FilterDict(JStr("name"), JStr("contains"), JStr(rw.value))
    case None => FilterDict(name, op, v)
  }

  /** The filter list made from each kept item on its own, in order: the reference for the loop. */
  function Outputs(items: seq<Json>, q: string): (r: seq<Json>)
    ensures |r| <= |items|
  {
    if items == [] then []
    else
      var prev := Outputs(items[..|items| - 1], q);
      match Classify(items[|items| - 1])
      case Keep(a, op, v) => prev + [Output(a, op, v, q)]
      case _ => prev
  }

  /** The filters so far and the explanation so far. */
  datatype Progress = Progress(filters: seq<Json>, explanation: Json)

  predicate Rewrites(item: Json, q: string) {
    Classify(item).Keep? && KnowledgeRewrite(NormalizeAttribute(Classify(item).attribute) == JStr("start_date"), q).Some?
  }

  /** One item: skipped, appended, or the error (`None`) that sends the reply to the fallback. */
  function Step(p: Progress, item: Json, q: string): Option<Progress> {
    match Classify(item)
    case Skip => Some(p)
    case Fail => None
    case Keep(a, op, v) =>
      var name := NormalizeAttribute(a);
      match KnowledgeRewrite(name == JStr("start_date"), q)
      case None => Some(Progress(p.filters + [FilterDict(name, op, v)], p.explanation))
      case Some(rw) =>
        if IsText(p.explanation) then
          Some(Progress(p.filters + [FilterDict(JStr("name"), JStr("contains"), JStr(rw.value))],
                        JStr(AppendSentence(p.explanation.v.s, rw.sentence))))
        else None
  }

  /** The items processed in order from the given explanation. */
  function Processed(items: seq<Json>, q: string, explanation: Json): Option<Progress>
    decreases |items|
  {
    if items == [] then Some(Progress([], explanation))
    else
      match Processed(items[..|items| - 1], q, explanation)
      case None => None
      case Some(p) => Step(p, items[|items| - 1], q)
  }

  lemma {:induction false} FailurePersists(items: seq<Json>, q: string, explanation: Json, i: nat)
    requires i <= |items| && Processed(items[..i], q, explanation).None?
    ensures Processed(items, q, explanation).None?
    decreases |items| - i
  {
    if i < |items| {
      assert items[..i + 1][..i] == items[..i];
      FailurePersists(items, q, explanation, i + 1);
    } else {
      assert items[..i] == items;
    }
  }

  /** Processing one more item is one more step. */
  lemma ProcessedNext(items: seq<Json>, q: string, explanation: Json, i: nat)
    requires i < |items| && Processed(items[..i], q, explanation).Some?
    ensures Processed(items[..i + 1], q, explanation).Some? <==> Step(Processed(items[..i], q, explanation).value, items[i], q).Some?
    ensures Processed(items[..i + 1], q, explanation).Some? ==>
      Processed(items[..i + 1], q, explanation).value == Step(Processed(items[..i], q, explanation).value, items[i], q).value
  {
    assert items[..i + 1][..i] == items[..i];
  }

  /** An item that raises, or that is rewritten while the explanation is not text, stops the loop. */
  lemma StepFails(p: Progress, item: Json, q: string)
    requires Classify(item).Fail? ||
      (Classify(item).Keep? && KnowledgeRewrite(NormalizeAttribute(Classify(item).attribute) == JStr("start_date"), q).Some? &&
       !IsText(p.explanation))
    ensures Step(p, item, q).None?
  {
  }

  /** An incomplete item is skipped. */
  lemma StepSkips(p: Progress, item: Json, q: string)
    requires Classify(item).Skip?
    ensures Step(p, item, q).Some? && Step(p, item, q).value == p
  {
  }

  /** A complete item no rule rewrites is appended with its normalised attribute. */
  lemma StepKeeps(p: Progress, item: Json, q: string, name: Json, op: Json, v: Json)
    requires Classify(item).Keep? && name == NormalizeAttribute(Classify(item).attribute)
    requires op == Classify(item).operator && v == Classify(item).value
    requires KnowledgeRewrite(name == JStr("start_date"), q).None?
    ensures Step(p, item, q).Some? && Step(p, item, q).value == Progress(p.filters + [FilterDict(name, op, v)], p.explanation)
  {
  }

  /** A complete item a rule rewrites becomes a `name contains` filter and the explanation gains the rule's sentence. */
  lemma StepRewrites(p: Progress, item: Json, q: string, name: Json, rw: Rewrite)
    requires Classify(item).Keep? && name == NormalizeAttribute(Classify(item).attribute)
    requires KnowledgeRewrite(name == JStr("start_date"), q).Some? && KnowledgeRewrite(name == JStr("start_date"), q).value == rw
    requires IsText(p.explanation)
    ensures Step(p, item, q).Some?
    ensures Step(p, item, q).value ==
      Progress(p.filters + [FilterDict(JStr("name"), JStr("contains"), JStr(rw.value))], JStr(AppendSentence(p.explanation.v.s, rw.sentence)))
  {
  }

  /**
   * The filter loop: skips incomplete items, normalises each attribute,
   * applies a rewrite where one fits, and grows the explanation; `ok` is
   * false when an item or the explanation raises.
   */
  method ProcessFilters(items: seq<Json>, q: string, explanation: Json) returns (ok: bool, filters: seq<Json>, expl: Json)
    ensures ok <==> Processed(items, q, explanation).Some?
    ensures ok ==> Processed(items, q, explanation).value == Progress(filters, expl)
  {
    filters, expl := [], explanation;
    var i := 0;
    while i < |items|
      invariant i <= |items|
      invariant Processed(items[..i], q, explanation).Some?
      invariant Processed(items[..i], q, explanation).value == Progress(filters, expl)
    {
      ProcessedNext(items, q, explanation, i);
      ghost var p := Progress(filters, expl);
      var entry := Classify(items[i]);
      if entry.Fail? {
        StepFails(p, items[i], q);
        FailurePersists(items, q, explanation, i + 1);
        return false, [], explanation;
      }
      if entry.Keep? {
        var attribute := NormalizeAttribute(entry.attribute);
        var op, value := entry.operator, entry.value;
        var rewrite := KnowledgeRewrite(attribute == JStr("start_date"), q);
        if rewrite.Some? {
          if !IsText(expl) {
            StepFails(p, items[i], q);
            FailurePersists(items, q, explanation, i + 1);
            return false, [], explanation;
          }
          StepRewrites(p, items[i], q, attribute, rewrite.value);
          attribute, op, value := JStr("name"), JStr("contains"), JStr(rewrite.value.value);
          expl := JStr(AppendSentence(expl.v.s, rewrite.value.sentence));
        } else {
          StepKeeps(p, items[i], q, attribute, op, value);
        }
        filters := filters + [FilterDict(attribute, op, value)];
      } else {
        StepSkips(p, items[i], q);
      }
      i := i + 1;
    }
    assert items[..i] == items;
    ok := true;
  }

  /** The loop's filter list is the kept items, each turned into its output on its own, in order. */
  lemma {:induction false} ProcessedFilters(items: seq<Json>, q: string, explanation: Json)
    requires Processed(items, q, explanation).Some?
    ensures Processed(items, q, explanation).value.filters == Outputs(items, q)
    decreases |items|
  {
    if items != [] {
      ProcessedFilters(items[..|items| - 1], q, explanation);
    }
  }

  /** One item fails exactly when it raises, or when it is rewritten while the explanation is not text. */
  lemma StepOutcome(p: Progress, item: Json, q: string)
    ensures Step(p, item, q).None? <==> Classify(item).Fail? || (Rewrites(item, q) && !IsText(p.explanation))
    ensures Step(p, item, q).Some? && !Rewrites(item, q) ==> Step(p, item, q).value.explanation == p.explanation
    ensures Step(p, item, q).Some? && IsText(p.explanation) ==>
      IsText(Step(p, item, q).value.explanation) && StartsWith(Step(p, item, q).value.explanation.v.s, p.explanation.v.s)
  {
  }

  /** Whether some item of the list satisfies a test. */
  predicate SomeItem(items: seq<Json>, test: Json -> bool) {
    exists i :: 0 <= i < |items| && test(items[i])
  }

  lemma SomeItemSplit(items: seq<Json>, test: Json -> bool)
    requires items != []
    ensures SomeItem(items, test) <==> SomeItem(items[..|items| - 1], test) || test(items[|items| - 1])
  {
    var init := items[..|items| - 1];
    if SomeItem(items, test) && !test(items[|items| - 1]) {
      var i :| 0 <= i < |items| && test(items[i]);
      assert init[i] == items[i];
    }
    if SomeItem(init, test) {
      var i :| 0 <= i < |init| && test(init[i]);
      assert init[i] == items[i];
    }
  }

  /**
   * The loop keeps a text explanation text, only ever extending it, and
   * leaves any explanation as given while no item is rewritten.
   */
  lemma {:induction false} ProcessedExplanation(items: seq<Json>, q: string, explanation: Json)
    ensures Processed(items, q, explanation).Some? ==>
      (IsText(Processed(items, q, explanation).value.explanation) <==> IsText(explanation))
    ensures Processed(items, q, explanation).Some? && IsText(explanation) ==>
      StartsWith(Processed(items, q, explanation).value.explanation.v.s, explanation.v.s)
    ensures Processed(items, q, explanation).Some? && !SomeItem(items, item => Rewrites(item, q)) ==>
      Processed(items, q, explanation).value.explanation == explanation
    decreases |items|
  {
    if items != [] {
      var init, last := items[..|items| - 1], items[|items| - 1];
      ProcessedExplanation(init, q, explanation);
      SomeItemSplit(items, item => Rewrites(item, q));
      var prev := Processed(init, q, explanation);
      if prev.Some? {
        StepOutcome(prev.value, last, q);
        if IsText(explanation) && Step(prev.value, last, q).Some? {
          var e0, e1 := explanation.v.s, prev.value.explanation.v.s;
          var e2 := Step(prev.value, last, q).value.explanation.v.s;
          assert e2[..|e0|] == e2[..|e1|][..|e0|];
        }
      }
    }
  }

  /**
   * The loop fails exactly when some item raises, or when some item is
   * rewritten while the explanation is not text.
   */
  lemma {:induction false} ProcessedFails(items: seq<Json>, q: string, explanation: Json)
    ensures Processed(items, q, explanation).None? <==>
      SomeItem(items, item => Classify(item).Fail?) ||
      (!IsText(explanation) && SomeItem(items, item => Rewrites(item, q)))
    decreases |items|
  {
    if items != [] {
      var init, last := items[..|items| - 1], items[|items| - 1];
      ProcessedFails(init, q, explanation);
      ProcessedExplanation(init, q, explanation);
      SomeItemSplit(items, item => Classify(item).Fail?);
      SomeItemSplit(items, item => Rewrites(item, q));
      var prev := Processed(init, q, explanation);
      if prev.Some? {
        StepOutcome(prev.value, last, q);
      }
    }
  }

  // --------------------------------------------------------------- replies

  /** The reply sent when the model's answer cannot be used. */
  function Fallback(query: string): (r: Json)
    ensures r.JDict? && r.fields.Keys == {"filters", "explanation"} && r.fields["filters"] == JList([])
    ensures IsText(r.fields["explanation"]) && Contains(r.fields["explanation"].v.s, query)
  {
    var head := "Could not parse the query: ";
    var text := head + query + ". Please try a different query format.";
    assert text[|head|..|head| + |query|] == query;
    assert OccursAt(text, query, |head|);
    ContainsIffOccurs(text, query);
    JDict(map["filters" := JList([]), "explanation" := JStr(text)])
  }

  /**
   * The decoded reply with its filters processed, keeping every other key;
   * `None` when it is not a dictionary holding `filters` and `explanation`,
   * or when processing raises.
   */
  function Respond(parsed: Json, q: string): (r: Option<Json>)
    ensures r.Some? ==> parsed.JDict? && "filters" in parsed.fields && "explanation" in parsed.fields
    ensures r.Some? ==> r.value.JDict? && r.value.fields.Keys == parsed.fields.Keys && r.value.fields["filters"].JList?
    ensures r.Some? ==> forall k :: k in parsed.fields && k != "filters" && k != "explanation" ==> r.value.fields[k] == parsed.fields[k]
  {
    match parsed
    case JDict(m) =>
      if "filters" !in m || "explanation" !in m then None
      else
        var items := Entries(m["filters"]);
        if items.None? then None
        else
          var done := Processed(items.value, q, m["explanation"]);
          if done.None? then None
          else Some(JDict(m["filters" := JList(done.value.filters)]["explanation" := done.value.explanation]))
    case _ => None
  }

  /** The `/api/filter` reply for a query and the model's raw answer. */
  function FilterReply(query: string, reply: string, decode: string -> Option<Json>): (r: Json)
    ensures decode(StripFences(reply)).None? ==> r == Fallback(query)
    ensures r != Fallback(query) ==>
      decode(StripFences(reply)).Some? && Respond(decode(StripFences(reply)).value, Lower(query)) == Some(r)
  {
    match decode(StripFences(reply))
    case None => Fallback(query)
    case Some(parsed) =>
      match Respond(parsed, Lower(query))
      case None => Fallback(query)
      case Some(r) => r
  }

  /** A decoded reply without `filters` or without `explanation` gets the fallback. */
  lemma MissingFieldsFallBack(query: string, reply: string, decode: string -> Option<Json>)
    requires decode(StripFences(reply)).Some?
    requires var parsed := decode(StripFences(reply)).value;
      !parsed.JDict? || "filters" !in parsed.fields || "explanation" !in parsed.fields
    ensures FilterReply(query, reply, decode) == Fallback(query)
  {
  }

  // --------------------------------------------------------------- sources

  datatype ChatReply = ChatReply(response: string, sources: seq<string>)

  const SourcesMarker: string := "Sources:"

  /** Non-empty, with no whitespace at either end. */
  predicate Unpadded(s: string) {
    s != [] && !IsSpace(s[0]) && !IsSpace(s[|s| - 1])
  }

  /** A single line: no line break inside. */
  predicate OneLine(s: string) {
    !Contains(s, "\n")
  }

  /** A stripped line is still a single line. */
  lemma StripOneLine(s: string)
    requires OneLine(s)
    ensures OneLine(Strip(s))
  {
    StripNoneIn(s, "\n");
  }

  /** A stripped text is empty or unpadded. */
  lemma StripEnds(s: string)
    ensures Strip(s) == [] || Unpadded(Strip(s))
  {
    StripSlice(s);
  }

  /** What stripping does to one line: it ends up empty or unpadded, and stays one line. */
  lemma StripLine(line: string)
    ensures Strip(line) == [] || Unpadded(Strip(line))
    ensures OneLine(line) ==> OneLine(Strip(line))
  {
    StripEnds(line);
    if OneLine(line) {
      StripOneLine(line);
    }
  }

  /** `[s.strip() for s in lines if s.strip()]`. */
  function NonBlank(lines: seq<string>): (r: seq<string>)
    ensures |r| <= |lines|
    ensures forall s :: s in r ==> Unpadded(s)
    ensures (forall s :: s in lines ==> OneLine(s)) ==> forall s :: s in r ==> OneLine(s)
  {
    if lines == [] then []
    else
      var rest := NonBlank(lines[1..]);
      var s := Strip(lines[0]);
      StripLine(lines[0]);
      assert forall t :: t in lines[1..] ==> t in lines;
      if s != "" then [s] + rest else rest
  }

  /** Keeping the non-blank lines of two runs of lines keeps each run's, in order. */
  lemma {:induction false} NonBlankAppend(a: seq<string>, b: seq<string>)
    ensures NonBlank(a + b) == NonBlank(a) + NonBlank(b)
    decreases |a|
  {
    if a == [] {
      assert a + b == b;
      assert NonBlank(a) + NonBlank(b) == NonBlank(b);
    } else {
      NonBlankAppend(a[1..], b);
      NonBlankAppendStep(a, b);
      NonBlankUnfold(a);
      AppendAssociative(NonBlankOf(a[0]), NonBlank(a[1..]), NonBlank(b));
    }
  }

  lemma {:induction false} NonBlankAppendStep(a: seq<string>, b: seq<string>)
    requires a != []
    ensures NonBlank(a + b) == NonBlankOf(a[0]) + NonBlank(a[1..] + b)
  {
    var c := a + b;
    assert c[0] == a[0] && c[1..] == a[1..] + b;
    NonBlankUnfold(c);
  }

  /** The first line's contribution, then the rest's. */
  lemma NonBlankUnfold(lines: seq<string>)
    requires lines != []
    ensures NonBlank(lines) == NonBlankOf(lines[0]) + NonBlank(lines[1..])
  {
    var rest := NonBlank(lines[1..]);
    if Strip(lines[0]) == "" {
      assert NonBlankOf(lines[0]) + rest == rest;
    }
  }

  /** What `[s.strip() for s in lines if s.strip()]` keeps of one line. */
  function NonBlankOf(line: string): seq<string> {
    if Strip(line) != "" then [Strip(line)] else []
  }

  /** The kept entries are exactly the non-blank stripped lines. */
  lemma {:induction false} NonBlankMembers(lines: seq<string>, s: string)
    ensures s in NonBlank(lines) <==> s != "" && exists l :: l in lines && Strip(l) == s
    decreases |lines|
  {
    if lines != [] {
      NonBlankMembers(lines[1..], s);
      assert forall l :: l in lines <==> l == lines[0] || l in lines[1..];
    }
  }

  /** One line is kept, stripped, exactly when it is not blank. */
  lemma NonBlankOne(line: string)
    ensures NonBlank([line]) == if Strip(line) == "" then [] else [Strip(line)]
  {
    assert [line][1..] == [];
  }

  /** The text before the first occurrence of a separator does not contain it. */
  lemma BeforeFirstClean(main: string, sep: string)
    requires sep != "" && !Contains(main + sep[..|sep| - 1], sep)
    ensures !Contains(Strip(main), sep)
  {
    var t := main + sep[..|sep| - 1];
    assert t[..|main|] == main;
    NoneInSlice(t, sep, 0, |main|);
    StripNoneIn(main, sep);
  }

  /** The pieces of a text split at line breaks are single lines. */
  lemma PiecesOneLine(t: string)
    ensures forall s :: s in Split(t, "\n") ==> OneLine(s)
  {
    var lines := Split(t, "\n");
    forall s | s in lines ensures OneLine(s) {
      var i :| 0 <= i < |lines| && lines[i] == s;
    }
  }

  /** The non-blank lines of a text are unpadded single lines. */
  lemma SourceLines(after: string)
    ensures forall s :: s in NonBlank(Split(Strip(after), "\n")) ==> Unpadded(s) && OneLine(s)
  {
    PiecesOneLine(Strip(after));
  }

  /**
   * A chat reply split at its first `Sources:`: the stripped text before it,
   * and the non-blank stripped lines after it.
   */
  function SplitSources(result: string): (r: ChatReply)
    ensures !Contains(result, SourcesMarker) ==> r == ChatReply(Strip(result), [])
    ensures Contains(result, SourcesMarker) ==>
      var k := IndexOf(result, SourcesMarker).value;
      r.response == Strip(result[..k]) &&
      r.sources == NonBlank(Split(Strip(result[k + |SourcesMarker|..]), "\n"))
    ensures !Contains(r.response, SourcesMarker)
    ensures forall s :: s in r.sources ==> Unpadded(s) && OneLine(s)
  {
    match SplitOnce(result, SourcesMarker)
    case None =>
      StripNoneIn(result, SourcesMarker);
      ChatReply(Strip(result), [])
    case Some((main, after)) =>
      BeforeFirstClean(main, SourcesMarker);
      SourceLines(after);
      ChatReply(Strip(main), NonBlank(Split(Strip(after), "\n")))
  }

  // --------------------------------------------------------------- summary

  /** The summary record sent when the model's summary cannot be decoded. */
  datatype Summary = Summary(summary: string, constructionCost: string, buildingType: string,
                             urbanSignificance: string, assessedValue: string, zoning: string)

  /** Python's `str.capitalize()`: the first letter upper case, the rest lower case. */
  function Capitalize(s: string): (r: string)
    ensures |r| == |s|
    ensures s != [] ==> r[0] == UpperChar(s[0])
    ensures forall i :: 0 < i < |s| ==> r[i] == LowerChar(s[i])
  {
    if s == [] then [] else [UpperChar(s[0])] + Lower(s[1..])
  }

  /** Capitalising twice is capitalising once. */
  lemma CapitalizeIdempotent(s: string)
    ensures Capitalize(Capitalize(s)) == Capitalize(s)
  {
    if s != [] {
      LowerIdempotent(s[1..]);
      assert Capitalize(s)[1..] == Lower(s[1..]);
    }
  }

  /** A dollar amount with thousands separators reads back as its number. */
  lemma DollarsReadBack(n: nat)
    ensures DigitsValue(DigitsIn("$" + GroupedText(n))) == n
  {
    var g := GroupedDigits(n);
    assert GroupedText(n) == g;
    DigitsInAppend("$", g);
    assert DigitsIn("$") == "" by {
      assert "$"[..0] == "";
    }
    assert DigitsIn("$" + g) == DigitsIn(g);
    GroupedDigitsValue(n);
  }

  /**
   * `f"${int(levels * 500000):,}"`: the levels times 500000, truncated, with
   * thousands separators; its digits read back as that number.
   */
  function AssessedValue(levels: Decimal): (r: string)
    ensures Truncate(Times(levels, 500000)) >= 0 ==> DigitsValue(DigitsIn(r)) == Truncate(Times(levels, 500000))
    ensures StartsWith(r, "$")
  {
    var n := Truncate(Times(levels, 500000));
    assert n >= 0 ==> DigitsValue(DigitsIn("$" + GroupedText(n))) == n by {
      if n >= 0 {
        DollarsReadBack(n);
      }
    }
    "$" + GroupedText(n)
  }

  /** Three levels are assessed at the grouped digits of 1500000. */
  lemma ThreeLevelsAssessed()
    ensures AssessedValue(Decimal(3, 0)) == "$" + GroupedDigits(1500000)
  {
    assert Truncate(Times(Decimal(3, 0), 500000)) == 1500000;
  }

  /** The default three levels are assessed at $1,500,000. */
  lemma DefaultAssessedValue()
    ensures AssessedValue(Decimal(3, 0)) == "$1,500,000"
  {
    ThreeLevelsAssessed();
    GroupedMillionAndAHalf();
    DollarSign("1,500,000");
  }

  lemma DollarSign(amount: string)
    requires amount == "1,500,000"
    ensures "$" + amount == "$1,500,000"
  {
  }

  lemma PaddedFiveHundred()
    ensures PadDigits(500, 3) == "500" && PadDigits(0, 3) == "000"
  {
    assert DigitChar(0) == '0' && DigitChar(5) == '5';
    assert PadDigits(5, 1) == "5" && PadDigits(50, 2) == "50";
    assert PadDigits(0, 1) == "0" && PadDigits(0, 2) == "00";
  }

  lemma GroupedFifteenHundred()
    ensures GroupedDigits(1500) == "1,500"
  {
    assert DigitChar(1) == '1';
    assert GroupedDigits(1) == "1";
    PaddedFiveHundred();
    GroupedStep(1500);
    CommaJoin("1", "500", "1,500");
  }

  lemma GroupedStep(n: nat)
    requires n >= 1000
    ensures GroupedDigits(n) == GroupedDigits(n / 1000) + "," + PadDigits(n % 1000, 3)
  {
  }

  lemma CommaJoin(a: string, b: string, r: string)
    requires (a == "1" && b == "500" && r == "1,500") || (a == "1,500" && b == "000" && r == "1,500,000")
    ensures a + "," + b == r
  {
  }

  lemma GroupedMillionAndAHalf()
    ensures GroupedDigits(1500000) == "1,500,000"
  {
    GroupedFifteenHundred();
    PaddedFiveHundred();
    GroupedStep(1500000);
    CommaJoin("1,500", "000", "1,500,000");
  }

  /** Residential land is zoned `RC-G`, anything else `C-COR1`. */
  function Zoning(kind: string): (r: string)
    ensures r in {"RC-G", "C-COR1"}
    ensures r == "RC-G" <==> Lower(kind) == "residential"
  {
    if Lower(kind) == "residential" then "RC-G" else "C-COR1"
  }

  /** A type in any letter case zones the same way. */
  lemma ZoningIgnoresCase(kind: string)
    ensures Zoning(Lower(kind)) == Zoning(kind)
  {
    LowerIdempotent(kind);
  }

  /**
   * The fallback record, from the building's data; `None` is the error
   * response the server sends instead when `levels` is not a number or the
   * type is not text.
   */
  function SummaryFallback(data: Data): (r: Option<Summary>)
    ensures r.None? <==> ToFloat(GetOr(data, "levels", PInt(3))).None? || ("type" in data && !data["type"].PStr?)
    ensures r.Some? ==> r.value.zoning == Zoning(if "type" in data then data["type"].s else "")
    ensures r.Some? ==> r.value.assessedValue == AssessedValue(ToFloat(GetOr(data, "levels", PInt(3))).value)
    ensures r.Some? ==> r.value.buildingType == Capitalize(if "type" in data then data["type"].s else "Commercial")
  {
    match ToFloat(GetOr(data, "levels", PInt(3)))
    case None => None
    case Some(levels) =>
      if "type" in data && !data["type"].PStr? then None
      else
        var kind := if "type" in data then data["type"].s else "";
        Some(Summary(
          SummaryText(GetOr(data, "levels", PStr("3")), GetOr(data, "type", PStr("commercial"))),
          "Estimated cost unavailable",
          Capitalize(if "type" in data then kind else "Commercial"),
          "This building contributes to Calgary's urban landscape.",
          AssessedValue(levels),
          Zoning(kind)))
  }

  /** The first line of the fallback record. */
  function SummaryText(levels: PyValue, kind: PyValue): string {
    "This is a " + PyStr(levels) + "-story " + PyStr(kind) + " building in Calgary."
  }

  /** A text already capitalised is left as it is. */
  lemma CapitalizedFixed(s: string)
    requires s != [] && !('a' <= s[0] <= 'z')
    requires forall i :: 1 <= i < |s| ==> !('A' <= s[i] <= 'Z')
    ensures Capitalize(s) == s
  {
    assert Lower(s[1..]) == s[1..];
  }

  /** `"Commercial"` is already capitalised. */
  lemma CommercialCapitalized()
    ensures Capitalize("Commercial") == "Commercial"
  {
    CapitalizedFixed("Commercial");
  }

  /** A missing type is zoned commercial. */
  lemma BlankZoning()
    ensures Zoning("") == "C-COR1"
  {
    assert Lower("") == "";
  }

  /** With no levels and no type, the record is sent, and describes a three-storey commercial building. */
  lemma EmptyBuildingText(data: Data)
    requires "levels" !in data && "type" !in data
    ensures SummaryFallback(data).Some?
    ensures SummaryFallback(data).value.summary == SummaryText(PStr("3"), PStr("commercial"))
  {
    assert GetOr(data, "levels", PInt(3)) == PInt(3);
  }

  /** With no levels and no type, the record describes a three-storey commercial building worth $1,500,000. */
  lemma EmptyBuildingSummary(data: Data)
    requires "levels" !in data && "type" !in data
    ensures SummaryFallback(data).Some?
    ensures SummaryFallback(data).value.summary == SummaryText(PStr("3"), PStr("commercial"))
    ensures SummaryFallback(data).value.buildingType == "Commercial"
    ensures SummaryFallback(data).value.assessedValue == "$1,500,000"
    ensures SummaryFallback(data).value.zoning == "C-COR1"
  {
    EmptyBuildingText(data);
    DefaultAssessedValue();
    BlankZoning();
    CommercialCapitalized();
  }
}
