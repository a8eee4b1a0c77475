/**
 * The canned answers the front end can use in place of the back end
 * (`src/mocks/api.ts`): a building summary assembled from the building's
 * own tags, and answers to a few known questions picked by keyword.
 */
module MockApi {
  import opened Text
  import opened Numbers
  import opened Buildings
  import LlmService
  import FilterService

  // ------------------------------------------------------------ questions

  /** The questions the mock knows, and the rest. */
  datatype Topic = Tallest | HowMany | Oldest | Architecture | Unknown

  /** The question a query is taken to ask: the first keyword test that matches its lower-cased text. */
  function TopicOf(query: string): Topic {
    var lowerQuery := Lower(query);
    if Contains(lowerQuery, "tallest building") then Tallest
    else if Contains(lowerQuery, "how many buildings") then HowMany
    else if Contains(lowerQuery, "oldest building") then Oldest
    else if Contains(lowerQuery, "architecture") || Contains(lowerQuery, "architectural style") then Architecture
    else Unknown
  }

  /** The keywords of each known question, most important first. */
  const Priority: seq<(seq<string>, Topic)> := [
    (["tallest building"], Tallest),
    (["how many buildings"], HowMany),
    (["oldest building"], Oldest),
    (["architecture", "architectural style"], Architecture)
  ]

  /** Whether one of the keywords occurs in the text. */
  predicate AnyOccurs(text: string, keywords: seq<string>) {
    keywords != [] && (Contains(text, keywords[0]) || AnyOccurs(text, keywords[1..]))
  }

  /** The topic of the first rule one of whose keywords occurs in the text. */
  function FirstMatch(rules: seq<(seq<string>, Topic)>, text: string): Topic {
    if rules == [] then Unknown
    else if AnyOccurs(text, rules[0].0) then rules[0].1
    else FirstMatch(rules[1..], text)
  }

  /** The dispatch is the priority list read in order: the earliest rule with a keyword in the query wins. */
  lemma DispatchIsFirstMatch(query: string)
    ensures TopicOf(query) == FirstMatch(Priority, Lower(query))
  {
    var t := Lower(query);
    var p3 := Priority[3..];
    var k3 := ["architecture", "architectural style"];
    assert p3 == [(k3, Architecture)];
    assert AnyOccurs(t, k3[1..]) <==> Contains(t, "architectural style") by {
      assert k3[1..][0] == "architectural style" && k3[1..][1..] == [];
    }
    assert AnyOccurs(t, k3) <==> Contains(t, "architecture") || Contains(t, "architectural style") by {
      assert k3[0] == "architecture";
    }
    assert FirstMatch(p3, t) == if Contains(t, "architecture") || Contains(t, "architectural style") then Architecture else Unknown by {
      assert p3[1..] == [];
    }
    var p2 := Priority[2..];
    assert p2 == [(["oldest building"], Oldest)] + p3;
    assert AnyOccurs(t, ["oldest building"]) <==> Contains(t, "oldest building") by {
      assert ["oldest building"][1..] == [];
    }
    assert FirstMatch(p2, t) == if Contains(t, "oldest building") then Oldest else FirstMatch(p3, t) by {
      assert p2[1..] == p3;
    }
    var p1 := Priority[1..];
    assert p1 == [(["how many buildings"], HowMany)] + p2;
    assert AnyOccurs(t, ["how many buildings"]) <==> Contains(t, "how many buildings") by {
      assert ["how many buildings"][1..] == [];
    }
    assert FirstMatch(p1, t) == if Contains(t, "how many buildings") then HowMany else FirstMatch(p2, t) by {
      assert p1[1..] == p2;
    }
    assert AnyOccurs(t, ["tallest building"]) <==> Contains(t, "tallest building") by {
      assert ["tallest building"][1..] == [];
    }
    assert Priority[1..] == p1;
  }

  /** Matching ignores letter case. */
  lemma TopicIgnoresCase(query: string)
    ensures TopicOf(Lower(query)) == TopicOf(query)
  {
    LowerIdempotent(query);
  }

  /** The fixed answer to a known question. */
  function AnswerText(t: Topic): string
    requires t != Unknown
  {
    match t
    case Tallest => "The tallest building in Calgary is The Bow, which stands at 236 meters tall with 58 floors. It was completed in 2012 and serves as the headquarters for energy companies Cenovus Energy and Ovintiv."
    case HowMany => "Downtown Calgary has approximately 180 significant buildings, with about 50 of them being skyscrapers (buildings taller than 100 meters)."
    case Oldest => "One of the oldest buildings still standing in downtown Calgary is the Lougheed Building, completed in 1912. The historic sandstone City Hall was built even earlier, between 1907 and 1911."
    case Architecture => "Calgary's downtown features a mix of architectural styles. The core is dominated by modern and postmodern skyscrapers built during various oil booms, particularly in the 1970s-80s and 2000s. There are also some historic buildings with Romanesque Revival and Chicago School influences, especially in the Stephen Avenue historic district."
  }

  /** The sources cited for a known question. */
  function Sources(t: Topic): (r: seq<string>)
    requires t != Unknown
    ensures r != []
  {
    match t
    case Tallest => ["Calgary City Data", "Architectural Records"]
    case HowMany => ["Calgary Downtown Association"]
    case Oldest => ["Calgary Heritage Authority"]
    case Architecture => ["Calgary Urban Design Review"]
  }

  /** `getMockQueryResponse`. */
  function MockQueryResponse(query: string): (r: LlmService.QueryResponse)
    ensures r.sources != [] <==> TopicOf(query) != Unknown
  {
    var topic := TopicOf(query);
    if topic == Unknown then LlmService.QueryResponse(UnknownAnswer(query), [])
    else LlmService.QueryResponse(AnswerText(topic), Sources(topic))
  }

  const UnknownLead: string := "I don't have specific information about \""
  const UnknownTail: string :=
    "\" in my current dataset. For the most accurate and up-to-date information, I'd recommend checking the City of Calgary's official resources or contacting their planning department."

  /** The answer to a question the mock does not know: it quotes the query. */
  function UnknownAnswer(query: string): string {
    UnknownLead + query + UnknownTail
  }

  lemma ContainsMiddle(a: string, b: string, c: string)
    ensures Contains(a + b + c, b)
  {
    assert (a + b + c)[|a|..|a| + |b|] == b;
    assert OccursAt(a + b + c, b, |a|);
    ContainsIffOccurs(a + b + c, b);
  }

  /** An unknown question is answered with a text that quotes it, and no sources. */
  lemma UnknownQuestionEchoed(query: string)
    requires TopicOf(query) == Unknown
    ensures Contains(MockQueryResponse(query).response, query)
    ensures MockQueryResponse(query).sources == []
  {
    ContainsMiddle(UnknownLead, query, UnknownTail);
  }

  // ------------------------------------------------------------- summaries

  /** `s.charAt(0).toUpperCase() + s.slice(1)`: only the first letter changes. */
  function JsCapitalize(s: string): (r: string)
    ensures |r| == |s|
    ensures s != [] ==> r[0] == UpperChar(s[0]) && r[1..] == s[1..]
  {
    if s == [] then [] else [UpperChar(s[0])] + s[1..]
  }

  /** Capitalising twice is capitalising once. */
  lemma JsCapitalizeIdempotent(s: string)
    ensures JsCapitalize(JsCapitalize(s)) == JsCapitalize(s)
  {
  }

  /** `parseInt(levels)`; `None` is NaN. */
  function LevelsCount(levels: Value): Option<int> {
    ParseInt(ToJsString(levels))
  }

  /** `(n * 2.5).toFixed(1)` for an integer `n`; NaN prints as `NaN`. */
  function CostText(n: Option<int>): string {
    if n.None? then "NaN" else FixedText(Decimal(n.value * 25, 1))
  }

  /** `(n * 500000).toLocaleString()` with English digit grouping; NaN prints as `NaN`. */
  function AssessedText(n: Option<int>): string {
    if n.None? then "NaN" else GroupedText(n.value * 500000)
  }

  /** `It houses … facilities.` and its kin: a sentence when the tag is truthy, else nothing. */
  function Clause(v: Option<Value>, before: string, after: string): string {
    if v.Some? && Truthy(v.value) then before + ToJsString(v.value) + after else ""
  }

  /** The building type: the `building` tag when it is a non-empty text, else `commercial`. */
  function TypeText(building: Option<Value>): string {
    if building.Some? && building.value.Str? && building.value.s != "" then building.value.s else "commercial"
  }

  /** The tags the mock summary reads. */
  datatype MockTags = MockTags(building: Option<Value>, levels: Option<Value>,
                               amenity: Option<Value>, shop: Option<Value>, office: Option<Value>)

  function TagsOf(bd: UserData): MockTags {
    MockTags(Get(bd, "building"), Get(bd, "building:levels"), Get(bd, "amenity"), Get(bd, "shop"), Get(bd, "office"))
  }

  /** The `summary` line. */
  function SummaryLine(t: MockTags, levels: Value, buildingType: string, n: Option<int>): string {
    "This is a " + ToJsString(levels) + "-story " + buildingType + " building (approximately " +
      CountText(if n.Some? then Some(n.value * 3) else None) + " meters tall) located in downtown Calgary. " +
      Clause(t.amenity, "It houses ", " facilities.") + " " +
      Clause(t.shop, "It contains retail shops including ", ".") + " " +
      Clause(t.office, "It contains office space for ", ".")
  }

  /** The `urbanSignificance` line: the first truthy of amenity, shop and office, else `commercial`. */
  function SignificanceLine(t: MockTags): string {
    var use := Or(t.amenity, Or(t.shop, Or(t.office, Some(Str("commercial")))));
    "This building contributes to the urban fabric of Calgary's downtown core, providing " +
      (if use.Some? then ToJsString(use.value) else "") + " services to the area."
  }

  function CostLine(n: Option<int>): string {
    "$" + CostText(n) + " million (estimated)"
  }

  function AssessedLine(n: Option<int>): string {
    "$" + AssessedText(n) + " (estimated)"
  }

  /** The `building:levels` tag when truthy, else `'3'`. */
  function LevelsOf(t: MockTags): Value {
    if t.levels.Some? && Truthy(t.levels.value) then t.levels.value else Str("3")
  }

  /**
   * The summary built from the tags. A `building` tag that is not a text
   * makes the call throw (`None`): `charAt` or `toLowerCase` is not a
   * function of it.
   */
  function MockSummary(t: MockTags): (r: Option<LlmService.Summary>)
    ensures r.None? <==> t.building.Some? && !t.building.value.Str?
    ensures r.Some? ==> (r.value.zoning == "RC-G" <==> t.building.Some? && Lower(t.building.value.s) == "residential")
    ensures r.Some? ==> r.value.buildingType == JsCapitalize(TypeText(t.building))
  {
    if t.building.Some? && !t.building.value.Str? then None
    else
      var buildingType := TypeText(t.building);
      var n := LevelsCount(LevelsOf(t));
      Some(LlmService.Summary(
        SummaryLine(t, LevelsOf(t), buildingType, n),
        CostLine(n),
        JsCapitalize(buildingType),
        SignificanceLine(t),
        AssessedLine(n),
        FilterService.Zoning(if t.building.Some? then t.building.value.s else "")))
  }

  /** `getMockBuildingSummary`. */
  function MockBuildingSummary(bd: UserData): Option<LlmService.Summary> {
    MockSummary(TagsOf(bd))
  }

  /** The assessed value's digits read back as the levels times 500000. */
  lemma AssessedLineReadsBack(n: nat)
    ensures DigitsValue(DigitsIn(AssessedLine(Some(n)))) == n * 500000
  {
    var m: nat := n * 500000;
    var g := GroupedDigits(m);
    var dollars := "$" + g;
    var e := " (estimated)";
    assert AssessedText(Some(n)) == g;
    assert AssessedLine(Some(n)) == dollars + e;
    DigitsInAppend(dollars, e);
    NoDigitsInEstimated();
    assert DigitsIn(dollars + e) == DigitsIn(dollars);
    DigitsInAppend("$", g);
    assert DigitsIn("$") == "" by {
      assert "$"[..0] == "";
    }
    assert DigitsIn(dollars) == DigitsIn(g);
    GroupedDigitsValue(m);
  }

  /** A summary's assessed value reads back as its levels times 500000. */
  lemma MockAssessedReadsBack(t: MockTags, n: nat)
    requires MockSummary(t).Some?
    requires LevelsCount(LevelsOf(t)) == Some(n)
    ensures DigitsValue(DigitsIn(MockSummary(t).value.assessedValue)) == n * 500000
  {
    AssessedLineReadsBack(n);
  }

  lemma NoDigitsInEstimated()
    ensures DigitsIn(" (estimated)") == ""
  {
    var s := " (estimated)";
    assert forall i :: 0 <= i < |s| ==> !IsDigit(s[i]);
    NoDigits(s);
  }

  lemma {:induction false} NoDigits(s: string)
    requires forall i :: 0 <= i < |s| ==> !IsDigit(s[i])
    ensures DigitsIn(s) == ""
  {
    if s != [] {
      NoDigits(s[..|s| - 1]);
    }
  }

  /** Three levels cost 7.5 (million dollars). */
  lemma DefaultCost()
    ensures CostText(Some(3)) == "7.5"
  {
    assert DigitChar(7) == '7' && DigitChar(5) == '5';
    assert DigitsOf(75) == "75";
    assert PadDigits(7, 1) == "7";
    var full := PadDigits(75, 2);
    assert full == "75";
    assert full[..1] == "7" && full[1..] == "5";
    assert FixedText(Decimal(75, 1)) == "" + full[..1] + "." + full[1..];
  }

  /** Three levels are assessed at 1,500,000 (dollars). */
  lemma DefaultAssessed()
    ensures AssessedText(Some(3)) == "1,500,000"
  {
    FilterService.GroupedMillionAndAHalf();
  }

  /** Without a `building:levels` tag the building has three levels. */
  lemma DefaultLevels(t: MockTags)
    requires t.levels.None?
    ensures LevelsCount(LevelsOf(t)) == Some(3)
  {
    assert AllDigits("3") && DigitsValue("3") == 3;
    ParseIntDigits("3");
  }

  /**
   * A building without `building` and `building:levels` tags is a
   * three-storey commercial building outside residential zoning, costing
   * 7.5 and assessed at 1,500,000.
   */
  lemma UntaggedMockSummary(t: MockTags)
    requires t.building.None? && t.levels.None?
    ensures var r := MockSummary(t);
      r.Some? && r.value.buildingType == "Commercial" && r.value.zoning == "C-COR1" &&
      r.value.constructionCost == CostLine(Some(3)) && CostText(Some(3)) == "7.5" &&
      r.value.assessedValue == AssessedLine(Some(3)) && AssessedText(Some(3)) == "1,500,000"
  {
    DefaultLevels(t);
    DefaultCost();
    DefaultAssessed();
    var z := MockSummary(t).value.zoning;
    assert z == FilterService.Zoning("");
    assert z != "RC-G";
    CommercialCapitalized();
  }

  lemma CommercialCapitalized()
    ensures JsCapitalize("commercial") == "Commercial"
  {
    var s := "commercial";
    assert s[0] == 'c' && UpperChar('c') == 'C';
    assert s[1..] == "ommercial";
    assert ['C'] + "ommercial" == "Commercial";
  }
}
