/**
 * The buildings layer of the browser client: how OpenStreetMap elements
 * become building meshes (ring closing, height, colour category, placement)
 * and how a list of attribute filters picks and orders the buildings to
 * highlight.
 *
 * A building's `userData` is a map from keys to JavaScript values: its raw
 * OSM tags (strings), its numeric `id`, its `position` (an object) and its
 * `actualHeight` text.
 */
module Buildings {
  import opened Text
  import opened Numbers
  import opened Geometry

  // --------------------------------------------------------------- values

  /** A JavaScript value as it appears in `userData` or in a filter. */
  datatype Value = Str(s: string) | Num(n: Decimal) | Obj(v: Vec3)

  type UserData = map<string, Value>

  /** `String(v)`; an object without its own `toString` prints as `[object Object]`. */
  function ToJsString(v: Value): string {
    match v
    case Str(s) => s
    case Num(d) => JsNumberText(d)
    case Obj(_) => "[object Object]"
  }

  /** JavaScript truthiness. */
  predicate Truthy(v: Value) {
    match v
    case Str(s) => s != ""
    case Num(d) => d.mant != 0
    case Obj(_) => true
  }

  /** `Number(v)`; `None` is NaN. An object converts through its text, which is not a number. */
  function ToNumber(v: Value): Option<Decimal> {
    match v
    case Str(s) => JsNumber(s)
    case Num(d) => Some(d)
    case Obj(_) => None
  }

  /** `Number(v)` is `Number(String(v))` for every value. */
  lemma ToNumberViaText(v: Value)
    ensures v.Str? || v.Obj? ==> ToNumber(v) == JsNumber(ToJsString(v))
  {
    if v.Obj? {
      var t := ToJsString(v);
      assert t[0] == '[' && t[|t| - 1] == ']';
      StripUnpadded(t);
      assert t[0..] == t;
      assert DigitRun(t) == 0;
    }
  }

  /** `a == b` (loose equality) between two values; distinct objects are never equal. */
  predicate LooseEquals(a: Value, b: Value) {
    match (a, b)
    case (Str(x), Str(y)) => x == y
    case (Num(x), Num(y)) => x.Value() == y.Value()
    case (Str(x), Num(y)) => JsNumber(x).Some? && JsNumber(x).value.Value() == y.Value()
    case (Num(x), Str(y)) => JsNumber(y).Some? && JsNumber(y).value.Value() == x.Value()
    case (Obj(_), Str(y)) => y == "[object Object]"
    case (Str(x), Obj(_)) => x == "[object Object]"
    case _ => false
  }

  /** `m[k]`; `None` is `undefined`. */
  function Get(m: UserData, k: string): Option<Value> {
    if k in m then Some(m[k]) else None
  }

  /** `a || b`: the first operand when it is truthy, otherwise the second. */
  function Or(a: Option<Value>, b: Option<Value>): Option<Value> {
    if a.Some? && Truthy(a.value) then a else b
  }

  // -------------------------------------------------------------- filters

  /** One predicate over a building, as the query service returns it. */
  datatype Filter = Filter(attribute: string, operator: string, value: Value)

  /** The value a filter reads: two attribute names fall back to another key. */
  function Lookup(ud: UserData, attribute: string): Option<Value> {
    if attribute == "building:levels" then Or(Get(ud, "building:levels"), Get(ud, "levels"))
    else if attribute == "building" then Or(Get(ud, "building"), Get(ud, "type"))
    else Get(ud, attribute)
  }

  predicate IsNumericOperator(op: string) {
    op == ">" || op == "<" || op == ">=" || op == "<="
  }

  function CompareReals(op: string, a: real, b: real): bool {
    if op == ">" then a > b
    else if op == "<" then a < b
    else if op == ">=" then a >= b
    else a <= b
  }

  /** Two numbers in the operator's order; NaN on either side fails. */
  predicate OrderedNumbers(op: string, a: Option<Decimal>, b: Option<Decimal>) {
    a.Some? && b.Some? && CompareReals(op, a.value.Value(), b.value.Value())
  }

  /** A numeric operator: both sides' leading numbers, compared. */
  predicate NumericTest(op: string, bv: Value, fv: Value) {
    OrderedNumbers(op, ParseFloat(ToJsString(bv)), ParseFloat(ToJsString(fv)))
  }

  /** `=` and `==`: loose equality, or equal lower-cased text. */
  predicate EqualTest(bv: Value, fv: Value) {
    LooseEquals(bv, fv) || Lower(ToJsString(bv)) == Lower(ToJsString(fv))
  }

  /** `contains`: lower-cased substring. */
  predicate ContainsTest(bv: Value, fv: Value) {
    Contains(Lower(ToJsString(bv)), Lower(ToJsString(fv)))
  }

  /** One operator applied to the building's value and the filter's value. */
  predicate Test(op: string, bv: Value, fv: Value) {
    if IsNumericOperator(op) then NumericTest(op, bv, fv)
    else if op == "=" || op == "==" then EqualTest(bv, fv)
    else if op == "contains" then ContainsTest(bv, fv)
    else false
  }

  /** Whether `filter` accepts a building with this `userData`. */
  predicate Accepts(ud: UserData, filter: Filter) {
    match Lookup(ud, filter.attribute)
    case None => false
    case Some(bv) => Test(filter.operator, bv, filter.value)
  }

  /** An attribute the building does not have fails every operator. */
  lemma MissingAttributeFails(ud: UserData, filter: Filter)
    requires Lookup(ud, filter.attribute).None?
    ensures !Accepts(ud, filter)
  {
  }

  /**
   * `building:levels` reads `levels` exactly when its own value is missing or
   * falsy; `building` likewise reads `type`.
   */
  lemma LookupFallback(ud: UserData)
    ensures Lookup(ud, "building:levels") ==
      (if "building:levels" in ud && Truthy(ud["building:levels"]) then Some(ud["building:levels"]) else Get(ud, "levels"))
    ensures Lookup(ud, "building") ==
      (if "building" in ud && Truthy(ud["building"]) then Some(ud["building"]) else Get(ud, "type"))
  {
  }

  /** An operator outside the six known ones rejects every building. */
  lemma UnknownOperatorFails(ud: UserData, filter: Filter)
    requires !IsNumericOperator(filter.operator)
    requires filter.operator != "=" && filter.operator != "==" && filter.operator != "contains"
    ensures !Accepts(ud, filter)
  {
  }

  /**
   * A numeric comparison holds exactly when both sides have a leading number
   * and those numbers compare as the operator says.
   */
  lemma NumericComparison(ud: UserData, filter: Filter)
    requires IsNumericOperator(filter.operator) && Lookup(ud, filter.attribute).Some?
    ensures Accepts(ud, filter) <==>
      var a, b := ParseFloat(ToJsString(Lookup(ud, filter.attribute).value)), ParseFloat(ToJsString(filter.value));
      a.Some? && b.Some? && CompareReals(filter.operator, a.value.Value(), b.value.Value())
  {
  }

  /** `contains` is a case-insensitive substring test. */
  lemma ContainsFilter(ud: UserData, filter: Filter)
    requires filter.operator == "contains" && Lookup(ud, filter.attribute).Some?
    ensures Accepts(ud, filter) <==> exists j: nat ::
      OccursAt(Lower(ToJsString(Lookup(ud, filter.attribute).value)), Lower(ToJsString(filter.value)), j)
  {
    var bv := Lookup(ud, filter.attribute).value;
    var bs, fs := Lower(ToJsString(bv)), Lower(ToJsString(filter.value));
    assert Accepts(ud, filter) == Contains(bs, fs);
    ContainsIffOccurs(bs, fs);
    if Accepts(ud, filter) {
      var j: nat :| OccursAt(bs, fs, j);
      assert OccursAt(Lower(ToJsString(Lookup(ud, filter.attribute).value)), Lower(ToJsString(filter.value)), j);
      assert exists j: nat :: OccursAt(Lower(ToJsString(Lookup(ud, filter.attribute).value)), Lower(ToJsString(filter.value)), j);
    }
  }

  /** Loose equality does not depend on the order of its operands. */
  lemma LooseEqualsSymmetric(a: Value, b: Value)
    ensures LooseEquals(a, b) <==> LooseEquals(b, a)
  {
  }

  /**
   * `parseFloat` reads only the leading number of a tag, so a tag such as
   * `120m` passes `> 100`.
   */
  lemma LeadingNumberPassesFilter(d: string, y: string, n: nat)
    requires d != [] && AllDigits(d)
    requires y == [] || !(IsDigit(y[0]) || y[0] == '.' || y[0] == 'e' || y[0] == 'E')
    requires n < DigitsValue(d)
    ensures Accepts(map["height" := Str(d + y)], Filter("height", ">", Num(Decimal(n, 0))))
  {
    var ud := map["height" := Str(d + y)];
    assert Lookup(ud, "height") == Some(Str(d + y));
    LeadingNumberGreater(d, y, n, ">");
  }

  /** The leading number of `d + y` is greater than `n` under the operator `>`. */
  lemma LeadingNumberGreater(d: string, y: string, n: nat, op: string)
    requires op == ">"
    requires d != [] && AllDigits(d)
    requires y == [] || !(IsDigit(y[0]) || y[0] == '.' || y[0] == 'e' || y[0] == 'E')
    requires n < DigitsValue(d)
    ensures NumericTest(op, Str(d + y), Num(Decimal(n, 0)))
  {
    JsNumberTextWhole(n);
    ParseFloatDigitsOf(n);
    ParseFloatDigits(d, y);
    var a := ParseFloat(ToJsString(Str(d + y)));
    var b := ParseFloat(ToJsString(Num(Decimal(n, 0))));
    assert a.Some? && a.value == Decimal(DigitsValue(d), 0);
    assert b.Some? && b.value == Decimal(n, 0);
    WholeValue(n);
    WholeValue(DigitsValue(d));
    assert CompareReals(op, a.value.Value(), b.value.Value());
  }

  /** Loose equality lets a text such as `10.0` equal the whole number 10. */
  lemma LooseNumericEquality(d: string, z: string)
    requires d != [] && AllDigits(d) && z != [] && forall i :: 0 <= i < |z| ==> z[i] == '0'
    ensures Accepts(map["building:levels" := Str(d + ['.'] + z)], Filter("building:levels", "=", Num(Decimal(DigitsValue(d), 0))))
  {
    var t := d + ['.'] + z;
    var ud := map["building:levels" := Str(t)];
    assert Truthy(Str(t)) by {
      assert |t| > 0;
    }
    assert Lookup(ud, "building:levels") == Some(Str(t));
    ZeroFractionLooselyEqual(d, z);
  }

  /** `d.00…0` is loosely equal to the whole number `d`. */
  lemma ZeroFractionLooselyEqual(d: string, z: string)
    requires d != [] && AllDigits(d) && z != [] && forall i :: 0 <= i < |z| ==> z[i] == '0'
    ensures EqualTest(Str(d + ['.'] + z), Num(Decimal(DigitsValue(d), 0)))
  {
    JsNumberZeroFraction(d, z);
    WholeValue(DigitsValue(d));
    assert LooseEquals(Str(d + ['.'] + z), Num(Decimal(DigitsValue(d), 0)));
  }

  /** Every filter in the list accepts the building. */
  predicate AcceptsAll(ud: UserData, filters: seq<Filter>) {
    forall k :: 0 <= k < |filters| ==> Accepts(ud, filters[k])
  }

  predicate StrictlyIncreasing(s: seq<nat>) {
    forall i, j :: 0 <= i < j < |s| ==> s[i] < s[j]
  }

  /** The positions below `n` whose flag is set, in increasing order. */
  function Selected(flags: seq<bool>, n: nat): (r: seq<nat>)
    requires n <= |flags|
    ensures StrictlyIncreasing(r)
    ensures forall k :: 0 <= k < |r| ==> r[k] < n
    ensures forall i :: 0 <= i < n ==> (i in r <==> flags[i])
  {
    if n == 0 then []
    else
      var r := Selected(flags, n - 1);
      if flags[n - 1] then r + [n - 1] else r
  }

  /**
   * The indices of the buildings every filter accepts, in order: each
   * building maps to its index or to -1, and the -1s are dropped.
   */
  function Matching(uds: seq<UserData>, filters: seq<Filter>): (r: seq<nat>)
    ensures StrictlyIncreasing(r)
    ensures forall k :: 0 <= k < |r| ==> r[k] < |uds|
    ensures forall i :: 0 <= i < |uds| ==> (i in r <==> AcceptsAll(uds[i], filters))
  {
    Selected(seq(|uds|, i requires 0 <= i < |uds| => AcceptsAll(uds[i], filters)), |uds|)
  }

  // -------------------------------------------------------------- sorting

  function Sign(x: real): int {
    if x < 0.0 then -1 else if x > 0.0 then 1 else 0
  }

  /** `localeCompare`, taken as code-unit order. */
  function LexCompare(a: string, b: string): (r: int)
    ensures -1 <= r <= 1
  {
    if a == [] && b == [] then 0
    else if a == [] then -1
    else if b == [] then 1
    else if a[0] < b[0] then -1
    else if a[0] > b[0] then 1
    else LexCompare(a[1..], b[1..])
  }

  lemma {:induction false} LexCompareAntisymmetric(a: string, b: string)
    ensures LexCompare(a, b) == -LexCompare(b, a)
  {
    if a != [] && b != [] && a[0] == b[0] {
      LexCompareAntisymmetric(a[1..], b[1..]);
    }
  }

  /** `Number(v)` of a possibly missing value. */
  function NumberOf(v: Option<Value>): Option<Decimal> {
    if v.None? then None else ToNumber(v.value)
  }

  /** `String(v || '').toLowerCase()`. */
  function SortText(v: Option<Value>): string {
    if v.Some? && Truthy(v.value) then Lower(ToJsString(v.value)) else ""
  }

  /**
   * The sort comparator's sign: numeric when both values convert to numbers,
   * otherwise by lower-cased text; reversed when not ascending.
   */
  function Compare(va: Option<Value>, vb: Option<Value>, ascending: bool): (r: int)
    ensures -1 <= r <= 1
  {
    match (NumberOf(va), NumberOf(vb))
    case (Some(x), Some(y)) =>
      if ascending then Sign(x.Value() - y.Value()) else Sign(y.Value() - x.Value())
    case _ =>
      if ascending then LexCompare(SortText(va), SortText(vb)) else LexCompare(SortText(vb), SortText(va))
  }

  /** Swapping the operands negates the comparator. */
  lemma CompareAntisymmetric(va: Option<Value>, vb: Option<Value>, ascending: bool)
    ensures Compare(va, vb, ascending) == -Compare(vb, va, ascending)
  {
    LexCompareAntisymmetric(SortText(va), SortText(vb));
  }

  /** The sort value of building `i`, read directly under the key (no fallback). */
  function KeyOf(uds: seq<UserData>, key: string, i: nat): Option<Value> {
    if i < |uds| then Get(uds[i], key) else None
  }

  predicate ValidIndices(s: seq<nat>, uds: seq<UserData>) {
    forall k :: 0 <= k < |s| ==> s[k] < |uds|
  }

  /** Neighbours are in comparator order. */
  predicate AdjacentOrdered(s: seq<nat>, cmp: (nat, nat) -> int) {
    forall k :: 0 < k < |s| ==> cmp(s[k - 1], s[k]) <= 0
  }

  /** Swapping the operands of `cmp` negates its result. */
  ghost predicate Antisymmetric(cmp: (nat, nat) -> int) {
    forall x, y :: cmp(x, y) == -cmp(y, x)
  }

  /** The state of the insertion step: element `j` is moving left through the ordered prefix `[0, i]`. */
  ghost predicate Inserting(s: seq<nat>, i: nat, j: nat, cmp: (nat, nat) -> int) {
    j <= i < |s| &&
    (forall k :: 0 < k < j ==> cmp(s[k - 1], s[k]) <= 0) &&
    (forall k :: j + 1 < k <= i ==> cmp(s[k - 1], s[k]) <= 0) &&
    (j < i ==> cmp(s[j], s[j + 1]) <= 0) &&
    (0 < j < i ==> cmp(s[j - 1], s[j + 1]) <= 0)
  }

  /** `s` with the elements at `j - 1` and `j` exchanged. */
  function Swapped(s: seq<nat>, j: nat): seq<nat>
    requires 0 < j < |s|
  {
    s[j - 1 := s[j]][j := s[j - 1]]
  }

  lemma SwapKeepsMultiset(s: seq<nat>, j: nat)
    requires 0 < j < |s|
    ensures multiset(Swapped(s, j)) == multiset(s)
  {
  }

  lemma SwapStep(s: seq<nat>, i: nat, j: nat, cmp: (nat, nat) -> int)
    requires Antisymmetric(cmp)
    requires Inserting(s, i, j, cmp) && j > 0 && cmp(s[j - 1], s[j]) > 0
    ensures Inserting(Swapped(s, j), i, j - 1, cmp)
  {
    var t := Swapped(s, j);
    assert cmp(t[j - 1], t[j]) == -cmp(s[j - 1], s[j]);
    forall k | j < k <= i ensures cmp(t[k - 1], t[k]) <= 0 {
      if k == j + 1 {
        assert t[k - 1] == s[j - 1] && t[k] == s[j + 1];
      } else {
        assert t[k - 1] == s[k - 1] && t[k] == s[k];
      }
    }
    forall k | 0 < k < j - 1 ensures cmp(t[k - 1], t[k]) <= 0 {
      assert t[k - 1] == s[k - 1] && t[k] == s[k];
    }
    if 0 < j - 1 {
      assert t[j - 2] == s[j - 2] && t[j] == s[j - 1];
    }
  }

  lemma InsertDone(s: seq<nat>, i: nat, j: nat, cmp: (nat, nat) -> int)
    requires Inserting(s, i, j, cmp) && (j == 0 || cmp(s[j - 1], s[j]) <= 0)
    ensures AdjacentOrdered(s[..i + 1], cmp)
  {
  }

  /** Moves `a[i]` left into the ordered prefix `a[..i]`. */
  method InsertAt(a: array<nat>, i: nat, cmp: (nat, nat) -> int)
    requires Antisymmetric(cmp)
    requires i < a.Length && AdjacentOrdered(a[..i], cmp)
    modifies a
    ensures multiset(a[..]) == multiset(old(a[..]))
    ensures AdjacentOrdered(a[..i + 1], cmp)
  {
    var j: nat := i;
    assert Inserting(a[..], i, j, cmp);
    while j > 0 && cmp(a[j - 1], a[j]) > 0
      invariant multiset(a[..]) == multiset(old(a[..]))
      invariant Inserting(a[..], i, j, cmp)
    {
      ghost var before := a[..];
      SwapStep(before, i, j, cmp);
      SwapKeepsMultiset(before, j);
      a[j - 1], a[j] := a[j], a[j - 1];
      assert a[..] == Swapped(before, j);
      j := j - 1;
    }
    InsertDone(a[..], i, j, cmp);
    assert a[..][..i + 1] == a[..i + 1];
  }

  /**
   * `matchingBuildingIndices.sort(cmp)`, as a stable insertion sort: the same
   * indices afterwards, every neighbouring pair in comparator order.
   */
  method SortIndices(a: array<nat>, cmp: (nat, nat) -> int)
    requires Antisymmetric(cmp)
    modifies a
    ensures multiset(a[..]) == multiset(old(a[..]))
    ensures AdjacentOrdered(a[..], cmp)
  {
    var i := 0;
    while i < a.Length
      invariant 0 <= i <= a.Length
      invariant multiset(a[..]) == multiset(old(a[..]))
      invariant AdjacentOrdered(a[..i], cmp)
    {
      InsertAt(a, i, cmp);
      i := i + 1;
    }
    assert a[..i] == a[..];
  }

  /** The comparator the filter effect sorts with, on building indices. */
  function IndexCompare(uds: seq<UserData>, key: string, ascending: bool): (nat, nat) -> int {
    (x: nat, y: nat) => Compare(KeyOf(uds, key, x), KeyOf(uds, key, y), ascending)
  }

  lemma IndexCompareAntisymmetric(uds: seq<UserData>, key: string, ascending: bool)
    ensures Antisymmetric(IndexCompare(uds, key, ascending))
  {
    forall x: nat, y: nat {
      CompareAntisymmetric(KeyOf(uds, key, x), KeyOf(uds, key, y), ascending);
    }
  }

  /** Between two numbers the comparator orders by value. */
  lemma CompareNumbers(va: Option<Value>, vb: Option<Value>, ascending: bool)
    requires NumberOf(va).Some? && NumberOf(vb).Some?
    ensures var x, y := NumberOf(va).value.Value(), NumberOf(vb).value.Value();
      Compare(va, vb, ascending) <= 0 <==> if ascending then x <= y else y <= x
  {
  }

  /** One neighbouring pair of numeric values, in comparator order, is in numeric order. */
  lemma AdjacentNumbers(s: seq<nat>, uds: seq<UserData>, key: string, ascending: bool, i: nat)
    requires AdjacentOrdered(s, IndexCompare(uds, key, ascending))
    requires i + 1 < |s|
    requires NumberOf(KeyOf(uds, key, s[i])).Some? && NumberOf(KeyOf(uds, key, s[i + 1])).Some?
    ensures var x, y := NumberOf(KeyOf(uds, key, s[i])).value.Value(), NumberOf(KeyOf(uds, key, s[i + 1])).value.Value();
      if ascending then x <= y else y <= x
  {
    var va, vb := KeyOf(uds, key, s[i]), KeyOf(uds, key, s[i + 1]);
    assert IndexCompare(uds, key, ascending)(s[i], s[i + 1]) <= 0;
    CompareNumbers(va, vb, ascending);
  }

  lemma OrderedChain(x: real, y: real, z: real, ascending: bool)
    requires if ascending then x <= y else y <= x
    requires if ascending then y <= z else z <= y
    ensures if ascending then x <= z else z <= x
  {
  }

  /**
   * When every sorted value is a number, neighbouring order is full order:
   * the numbers rise (or fall, when not ascending) along the whole result.
   */
  lemma {:induction false} NumericKeysSorted(s: seq<nat>, uds: seq<UserData>, key: string, ascending: bool, i: nat, j: nat)
    requires AdjacentOrdered(s, IndexCompare(uds, key, ascending))
    requires forall k :: 0 <= k < |s| ==> NumberOf(KeyOf(uds, key, s[k])).Some?
    requires i <= j < |s|
    ensures var x, y := NumberOf(KeyOf(uds, key, s[i])).value.Value(), NumberOf(KeyOf(uds, key, s[j])).value.Value();
      if ascending then x <= y else y <= x
    decreases j - i
  {
    if i < j {
      var x := NumberOf(KeyOf(uds, key, s[i])).value.Value();
      var y := NumberOf(KeyOf(uds, key, s[i + 1])).value.Value();
      var z := NumberOf(KeyOf(uds, key, s[j])).value.Value();
      assert if ascending then y <= z else z <= y by {
        NumericKeysSorted(s, uds, key, ascending, i + 1, j);
      }
      assert if ascending then x <= y else y <= x by {
        AdjacentNumbers(s, uds, key, ascending, i);
      }
      OrderedChain(x, y, z, ascending);
    }
  }

  /** `sortOrder || 'asc'`, then compared with `'asc'`. */
  predicate Ascending(sortOrder: Option<string>) {
    sortOrder.None? || sortOrder.value == "" || sortOrder.value == "asc"
  }

  /**
   * The filter effect: no filters show nothing and report no count; otherwise
   * the accepted buildings, ordered by `sortBy` when it is given, and their
   * number is reported.
   */
  method ApplyFilters(uds: seq<UserData>, filters: seq<Filter>, sortBy: Option<string>, sortOrder: Option<string>)
    returns (shown: seq<nat>, reported: Option<nat>)
    ensures filters == [] ==> shown == [] && reported == None
    ensures filters != [] ==> reported == Some(|shown|)
    ensures filters != [] ==> multiset(shown) == multiset(Matching(uds, filters))
    ensures filters != [] && (sortBy.None? || sortBy.value == "") ==> shown == Matching(uds, filters)
    ensures filters != [] && sortBy.Some? && sortBy.value != "" ==>
      AdjacentOrdered(shown, IndexCompare(uds, sortBy.value, Ascending(sortOrder)))
  {
    if filters == [] {
      return [], None;
    }
    var matching := Matching(uds, filters);
    if sortBy.Some? && sortBy.value != "" {
      var a := new nat[|matching|](i requires 0 <= i < |matching| => matching[i]);
      assert a[..] == matching;
      IndexCompareAntisymmetric(uds, sortBy.value, Ascending(sortOrder));
      SortIndices(a, IndexCompare(uds, sortBy.value, Ascending(sortOrder)));
      shown := a[..];
    } else {
      shown := matching;
    }
    reported := Some(|shown|);
  }

  /** Every index shown is a building every filter accepts. */
  lemma ShownAreAccepted(uds: seq<UserData>, filters: seq<Filter>, shown: seq<nat>, i: nat)
    requires multiset(shown) == multiset(Matching(uds, filters))
    requires i in shown
    ensures i < |uds| && AcceptsAll(uds[i], filters)
  {
    assert i in multiset(shown);
    assert i in Matching(uds, filters);
  }

  // ------------------------------------------------------------ ingestion

  /** An element of an Overpass response. */
  datatype Element =
    | Node(id: int, lon: real, lat: real)
    | Way(id: int, refs: seq<int>, tags: map<string, string>)
    | OtherElement

  /** The node table: each id maps to the position of the last node with that id. */
  function NodeMap(es: seq<Element>): map<int, Point> {
    if es == [] then map[]
    else
      var m := NodeMap(es[..|es| - 1]);
      match es[|es| - 1]
      case Node(id, lon, lat) => m[id := Point(lon, lat)]
      case _ => m
  }

  /** The first pass over the elements: collect every node. */
  method CollectNodes(es: seq<Element>) returns (nodes: map<int, Point>)
    ensures nodes == NodeMap(es)
  {
    nodes := map[];
    var i := 0;
    while i < |es|
      invariant 0 <= i <= |es|
      invariant nodes == NodeMap(es[..i])
    {
      assert es[..i + 1][..i] == es[..i];
      if es[i].Node? {
        nodes := nodes[es[i].id := Point(es[i].lon, es[i].lat)];
      }
      i := i + 1;
    }
    assert es[..i] == es;
  }

  /** A node id is known exactly when some node element has it, at the last such node's position. */
  lemma {:induction false} NodeMapLastWins(es: seq<Element>, i: nat)
    requires i < |es| && es[i].Node?
    requires forall j :: i < j < |es| ==> !(es[j].Node? && es[j].id == es[i].id)
    ensures es[i].id in NodeMap(es) && NodeMap(es)[es[i].id] == Point(es[i].lon, es[i].lat)
  {
    if i < |es| - 1 {
      NodeMapLastWins(es[..|es| - 1], i);
    }
  }

  lemma {:induction false} NodeMapOnlyNodes(es: seq<Element>, id: int)
    requires id in NodeMap(es)
    ensures exists i :: 0 <= i < |es| && es[i].Node? && es[i].id == id
  {
    var init := es[..|es| - 1];
    if !(es[|es| - 1].Node? && es[|es| - 1].id == id) {
      NodeMapOnlyNodes(init, id);
      var i :| 0 <= i < |init| && init[i].Node? && init[i].id == id;
      assert es[i] == init[i];
    }
  }

  /** A building outline as collected: a missing node is `undefined` (`None`). */
  datatype BuildingWay = BuildingWay(id: int, coords: seq<Option<Point>>, tags: map<string, string>)

  function Tag(tags: map<string, string>, k: string): string {
    if k in tags then tags[k] else ""
  }

  function NodeAt(nodes: map<int, Point>, id: int): Option<Point> {
    if id in nodes then Some(nodes[id]) else None
  }

  /**
   * Whether the first and last entries are the same object: the same node
   * array when both ids are equal, or `undefined` twice.
   */
  predicate SameEntry(nodes: map<int, Point>, first: int, last: int) {
    first == last || (first !in nodes && last !in nodes)
  }

  /** The node positions of a way, with the first one appended unless it is already last. */
  function Ring(refs: seq<int>, nodes: map<int, Point>): (r: seq<Option<Point>>)
    requires |refs| >= 1
    ensures |r| == |refs| || |r| == |refs| + 1
    ensures forall i :: 0 <= i < |refs| ==> r[i] == NodeAt(nodes, refs[i])
    ensures r[|r| - 1] == r[0]
  {
    var coords := seq(|refs|, i requires 0 <= i < |refs| => NodeAt(nodes, refs[i]));
    if SameEntry(nodes, refs[0], refs[|refs| - 1]) then coords else coords + [coords[0]]
  }

  /** A way is a building outline when its `building` tag is set and it has more than two nodes. */
  predicate KeptWay(e: Element) {
    e.Way? && Tag(e.tags, "building") != "" && |e.refs| > 2
  }

  /** The building outlines among the elements, in element order. */
  function BuildingWays(es: seq<Element>, nodes: map<int, Point>): seq<BuildingWay> {
    if es == [] then []
    else
      var ws := BuildingWays(es[..|es| - 1], nodes);
      var e := es[|es| - 1];
      if KeptWay(e) then ws + [BuildingWay(e.id, Ring(e.refs, nodes), e.tags)] else ws
  }

  /** The second pass over the elements: collect every building way. */
  method CollectWays(es: seq<Element>, nodes: map<int, Point>) returns (ways: seq<BuildingWay>)
    ensures ways == BuildingWays(es, nodes)
  {
    ways := [];
    var i := 0;
    while i < |es|
      invariant 0 <= i <= |es|
      invariant ways == BuildingWays(es[..i], nodes)
    {
      assert es[..i + 1][..i] == es[..i];
      var e := es[i];
      if e.Way? && Tag(e.tags, "building") != "" {
        var coordinates := seq(|e.refs|, k requires 0 <= k < |e.refs| => NodeAt(nodes, e.refs[k]));
        if |coordinates| > 2 {
          if !SameEntry(nodes, e.refs[0], e.refs[|e.refs| - 1]) {
            coordinates := coordinates + [coordinates[0]];
          }
          ways := ways + [BuildingWay(e.id, coordinates, e.tags)];
        }
      }
      i := i + 1;
    }
    assert es[..i] == es;
  }

  /**
   * Every collected outline has a set `building` tag, at least three entries,
   * and ends where it starts.
   */
  lemma {:induction false} BuildingWaysClosed(es: seq<Element>, nodes: map<int, Point>)
    ensures |BuildingWays(es, nodes)| <= |es|
    ensures forall w :: w in BuildingWays(es, nodes) ==>
      Tag(w.tags, "building") != "" && |w.coords| >= 3 && w.coords[|w.coords| - 1] == w.coords[0]
  {
    if es != [] {
      BuildingWaysClosed(es[..|es| - 1], nodes);
    }
  }

  /** The positions of the kept way elements. */
  function KeptPositions(es: seq<Element>): set<int> {
    set i | 0 <= i < |es| && KeptWay(es[i])
  }

  /** Each way element is collected exactly when it is kept. */
  lemma {:induction false} BuildingWaysCount(es: seq<Element>, nodes: map<int, Point>)
    ensures |BuildingWays(es, nodes)| == |KeptPositions(es)|
  {
    if es != [] {
      BuildingWaysCount(es[..|es| - 1], nodes);
      KeptPositionsStep(es);
    }
  }

  /** The kept positions of a sequence: those of all but its last element, and the last if it is kept. */
  lemma KeptPositionsStep(es: seq<Element>)
    requires es != []
    ensures |es| - 1 !in KeptPositions(es[..|es| - 1])
    ensures KeptPositions(es) == KeptPositions(es[..|es| - 1]) + (if KeptWay(es[|es| - 1]) then {|es| - 1} else {})
  {
    var init := es[..|es| - 1];
    assert forall i :: 0 <= i < |init| ==> init[i] == es[i];
  }

  /** The outlines' points, or `None` when some node is missing (the batch then fails). */
  function Resolve(coords: seq<Option<Point>>): Option<seq<Point>> {
    if coords == [] then Some([])
    else
      match (coords[0], Resolve(coords[1..]))
      case (Some(p), Some(rest)) => Some([p] + rest)
      case _ => None
  }

  lemma {:induction false} ResolveLength(coords: seq<Option<Point>>)
    ensures Resolve(coords).Some? <==> forall i :: 0 <= i < |coords| ==> coords[i].Some?
    ensures Resolve(coords).Some? ==> (|Resolve(coords).value| == |coords|
      && forall i :: 0 <= i < |coords| ==> Resolve(coords).value[i] == coords[i].value)
  {
    if coords != [] {
      ResolveLength(coords[1..]);
      if !coords[0].Some? {
        assert !(forall i :: 0 <= i < |coords| ==> coords[i].Some?);
      } else if (forall i :: 0 <= i < |coords| ==> coords[i].Some?) {
        assert forall i :: 0 <= i < |coords| - 1 ==> coords[1..][i].Some?;
      } else {
        var i :| 0 <= i < |coords| && !coords[i].Some?;
        assert !coords[1..][i - 1].Some?;
      }
    }
  }

  // --------------------------------------------------------------- height

  /** The building height and the text that records where it came from; `None` is NaN. */
  datatype HeightInfo = HeightInfo(height: Option<real>, actual: string)

  /** Cap at 800 metres, then raise to at least 4; NaN passes both tests. */
  function Clamp(h: real): (r: real)
    ensures 4.0 <= r <= 800.0
  {
    var capped := if h > 800.0 then 800.0 else h;
    if capped < 4.0 then 4.0 else capped
  }

  /** The feet conversion applied to a `height` tag. */
  function TagMetres(tag: string, v: real): real {
    if Contains(Lower(tag), "ft") then v * 0.3048 else v
  }

  /** The height from a `height` tag and its leading number: feet converted, then scaled by 1.5. */
  function HeightFromTag(h: string, parsed: Option<Decimal>): (r: HeightInfo)
    ensures r.actual == h
    ensures r.height.None? <==> parsed.None?
    ensures r.height.Some? ==> 4.0 <= r.height.value <= 800.0
  {
    match parsed
    case None => HeightInfo(None, h)
    case Some(d) => HeightInfo(Some(Clamp(TagMetres(h, d.Value()) * 1.5)), h)
  }

  /** The height from the leading number of a `building:levels` tag: 4.5 metres a level. */
  function HeightFromLevels(parsed: Option<Decimal>): (r: HeightInfo)
    ensures r.height.None? <==> parsed.None?
    ensures r.height.Some? ==> 4.0 <= r.height.value <= 800.0
    ensures r.height.None? ==> r.actual == "NaN levels"
    ensures r.height.Some? ==> r.actual == JsNumberText(parsed.value) + " levels"
  {
    match parsed
    case None => HeightInfo(None, "NaN levels")
    case Some(d) => HeightInfo(Some(Clamp(d.Value() * 4.5)), JsNumberText(d) + " levels")
  }

  /**
   * Height resolution: the `height` tag if set, else `building:levels` if set,
   * else 50 metres, recorded as `unknown`.
   */
  function ResolveHeight(tags: map<string, string>): (r: HeightInfo)
    ensures Tag(tags, "height") != "" ==> r == HeightFromTag(tags["height"], ParseFloat(tags["height"]))
    ensures Tag(tags, "height") == "" && Tag(tags, "building:levels") != "" ==>
      r == HeightFromLevels(ParseFloat(tags["building:levels"]))
    ensures Tag(tags, "height") == "" && Tag(tags, "building:levels") == "" ==> r == HeightInfo(Some(50.0), "unknown")
    ensures r.height.Some? ==> 4.0 <= r.height.value <= 800.0
  {
    var h := Tag(tags, "height");
    var l := Tag(tags, "building:levels");
    if h != "" then HeightFromTag(h, ParseFloat(h))
    else if l != "" then HeightFromLevels(ParseFloat(l))
    else HeightInfo(Some(Clamp(50.0)), "unknown")
  }

  /** A height already inside [4, 800] is not changed by the clamp. */
  lemma ClampKeepsInRange(h: real)
    requires 4.0 <= h <= 800.0
    ensures Clamp(h) == h
  {
  }

  /** Clamping twice is clamping once. */
  lemma ClampIdempotent(h: real)
    ensures Clamp(Clamp(h)) == Clamp(h)
  {
  }

  /**
   * A `height` tag that mentions feet and starts with a whole number `v`
   * (such as `100ft`) gives `v` feet in metres, scaled and clamped.
   */
  lemma FeetHeight(tags: map<string, string>, v: nat)
    requires ParseFloat(Tag(tags, "height")) == Some(Decimal(v, 0))
    requires Contains(Lower(Tag(tags, "height")), "ft")
    ensures ResolveHeight(tags).height == Some(Clamp(v as real * 0.3048 * 1.5))
  {
    FeetTagHeight(Tag(tags, "height"), v);
  }

  /** A tag ending in `ft` mentions feet whatever precedes it. */
  lemma FeetSuffix(x: string)
    ensures Contains(Lower(x + "ft"), "ft")
  {
    LowerAppend(x, "ft");
    assert Lower("ft") == "ft";
    OccursAtEnd(Lower(x), "ft");
  }

  lemma FeetTagHeight(tag: string, v: nat)
    requires Contains(Lower(tag), "ft")
    ensures HeightFromTag(tag, Some(Decimal(v, 0))).height == Some(Clamp(v as real * 0.3048 * 1.5))
  {
    WholeValue(v);
  }

  /** A hundred feet become 45.72 units. */
  lemma HundredFeet()
    ensures Clamp(100 as real * 0.3048 * 1.5) == 45.72
  {
  }

  /**
   * Without a `height` tag, a `building:levels` tag starting with a whole
   * number `v` gives 4.5 metres a level, recorded as `v` without leading zeros.
   */
  lemma LevelsHeight(tags: map<string, string>, v: nat)
    requires Tag(tags, "height") == "" && Tag(tags, "building:levels") != ""
    requires ParseFloat(Tag(tags, "building:levels")) == Some(Decimal(v, 0))
    ensures ResolveHeight(tags) == HeightInfo(Some(Clamp(v as real * 4.5)), DigitsOf(v) + " levels")
  {
    WholeLevels(v);
  }

  lemma WholeLevels(v: nat)
    ensures HeightFromLevels(Some(Decimal(v, 0))) == HeightInfo(Some(Clamp(v as real * 4.5)), DigitsOf(v) + " levels")
  {
    WholeValue(v);
    JsNumberTextWhole(v);
  }

  /** A `height` tag that does not start with a number is NaN and escapes the clamp. */
  lemma UnparsableHeightIsNaN(tags: map<string, string>, h: string)
    requires h != [] && !IsSpace(h[0]) && !IsDigit(h[0])
    requires h[0] != '+' && h[0] != '-' && h[0] != '.'
    requires Tag(tags, "height") == h
    ensures ResolveHeight(tags).height == None
  {
    assert TrimStart(h) == h;
    assert h[0..] == h;
    assert DigitRun(h) == 0;
  }

  // --------------------------------------------------------------- colour

  /** The colour family of a building. */
  datatype Category = CommercialColour | ResidentialColour | IndustrialColour
                    | EducationColour | HealthColour | DefaultColour

  /** Tag value lower-cased, `''` when absent. */
  function LowerTag(tags: map<string, string>, k: string): string {
    Lower(Tag(tags, k))
  }

  /** The colour family, by the first rule that applies. */
  function CategoryOf(tags: map<string, string>): Category {
    var bt := LowerTag(tags, "building");
    var amenity := LowerTag(tags, "amenity");
    if bt == "commercial" || LowerTag(tags, "shop") != "" || LowerTag(tags, "office") != "" then CommercialColour
    else if bt == "residential" || bt == "apartments" || bt == "house" then ResidentialColour
    else if bt == "industrial" || bt == "warehouse" then IndustrialColour
    else if amenity == "school" || amenity == "university" || amenity == "college" then EducationColour
    else if amenity == "hospital" || amenity == "clinic" then HealthColour
    else DefaultColour
  }

  /** The material's metalness: 0.3 for a commercial building, 0.1 otherwise. */
  function Metalness(tags: map<string, string>): (m: real)
    ensures m == 0.3 || m == 0.1
  {
    if LowerTag(tags, "building") == "commercial" then 0.3 else 0.1
  }

  /** Any `shop` or `office` tag makes the building commercial-coloured, whatever its type. */
  lemma ShopOrOfficeIsCommercial(tags: map<string, string>)
    requires Tag(tags, "shop") != "" || Tag(tags, "office") != ""
    ensures CategoryOf(tags) == CommercialColour
  {
  }

  /** An amenity decides the colour only for a building of none of the listed types. */
  lemma AmenityColourNeedsUnlistedType(tags: map<string, string>)
    requires CategoryOf(tags) == EducationColour || CategoryOf(tags) == HealthColour
    ensures Tag(tags, "shop") == "" && Tag(tags, "office") == ""
    ensures LowerTag(tags, "building") !in {"commercial", "residential", "apartments", "house", "industrial", "warehouse"}
  {
  }

  /** The commercial metalness implies the commercial colour; the converse does not hold. */
  lemma MetalnessAndColour(tags: map<string, string>)
    ensures Metalness(tags) == 0.3 ==> CategoryOf(tags) == CommercialColour
    ensures CategoryOf(map["building" := "yes", "shop" := "bakery"]) == CommercialColour
    ensures Metalness(map["building" := "yes", "shop" := "bakery"]) == 0.1
  {
    var t := map["building" := "yes", "shop" := "bakery"];
    assert Lower("bakery")[0] == 'b';
    assert Lower("yes")[0] == 'y';
  }

  // ------------------------------------------------------------ placement

  const GridSize: real := 0.5
  const GroundOffset: real := 0.01
  const CollisionNudge: real := 0.1

  /** Height above the ground before any collision: snapped elevation plus the offset, plus the offset again. */
  function BaseY(elevation: real): real {
    Snap(elevation + GroundOffset, GridSize) + GroundOffset
  }

  /** At the origin, where every mesh sits, the building rests 0.01 above the ground. */
  lemma BaseAtOrigin()
    ensures BaseY(OriginElevation) == 0.01
  {
    assert (0.01 / 0.5 + 0.5).Floor == 0;
  }

  /**
   * The collision scan: the first earlier box that overlaps this one raises
   * the building once by 0.1 and ends the scan.
   */
  method Nudge(base: real, box: Box, earlier: seq<Box>) returns (y: real)
    ensures (exists i :: 0 <= i < |earlier| && Intersects(box, earlier[i])) ==> y == base + CollisionNudge
    ensures (forall i :: 0 <= i < |earlier| ==> !Intersects(box, earlier[i])) ==> y == base
  {
    y := base;
    var i := 0;
    while i < |earlier|
      invariant 0 <= i <= |earlier|
      invariant y == base
      invariant forall k :: 0 <= k < i ==> !Intersects(box, earlier[k])
    {
      if Intersects(box, earlier[i]) {
        y := y + CollisionNudge;
        return;
      }
      i := i + 1;
    }
  }

  /** A finished building mesh. */
  datatype Mesh = Mesh(userData: UserData, outline: seq<PathCmd>, height: Option<real>,
                       colour: Category, metalness: real, y: real, box: Box)

  /** The tags as string values. */
  function TagValues(tags: map<string, string>): UserData {
    map k | k in tags :: Str(tags[k])
  }

  /** `{...tags, id, position, actualHeight}`: the three own keys win over tags of the same name. */
  function UserDataOf(way: BuildingWay, y: real, actual: string): (ud: UserData)
    ensures ud.Keys == way.tags.Keys + {"id", "position", "actualHeight"}
    ensures ud["id"] == Num(FromInt(way.id)) && ud["position"] == Obj(Vec3(0.0, y, 0.0)) && ud["actualHeight"] == Str(actual)
    ensures forall k :: k in way.tags && k !in {"id", "position", "actualHeight"} ==> ud[k] == Str(way.tags[k])
  {
    TagValues(way.tags)["id" := Num(FromInt(way.id))]["position" := Obj(Vec3(0.0, y, 0.0))]["actualHeight" := Str(actual)]
  }

  /** A `height` filter reads the raw tag, never the resolved height. */
  lemma HeightFilterSeesTag(way: BuildingWay, y: real, actual: string)
    requires "height" in way.tags
    ensures Lookup(UserDataOf(way, y, actual), "height") == Some(Str(way.tags["height"]))
  {
  }

  /** The buildings shown in the scene, in the order they were placed. */
  class BuildingLayer {
    var meshes: seq<Mesh>

    constructor()
      ensures meshes == []
    {
      meshes := [];
    }

    /** Every mesh's height is NaN or in [4, 800], and its y is the base or the base nudged once. */
    ghost predicate Valid()
      reads this
    {
      forall k :: 0 <= k < |meshes| ==>
        (meshes[k].height.Some? ==> 4.0 <= meshes[k].height.value <= 800.0) &&
        (meshes[k].y == BaseY(OriginElevation) || meshes[k].y == BaseY(OriginElevation) + CollisionNudge)
    }

    /** The boxes of the meshes already placed. */
    function Boxes(): (bs: seq<Box>)
      reads this
      ensures |bs| == |meshes| && forall k :: 0 <= k < |meshes| ==> bs[k] == meshes[k].box
    {
      seq(|meshes|, k requires 0 <= k < |meshes| reads this => meshes[k].box)
    }

    /**
     * One pass of the placement loop: project the outline, build its path,
     * resolve height and colour, place the mesh at the origin and nudge it if
     * it collides with an earlier one.
     */
    method AddBuilding(way: BuildingWay, coords: seq<Point>, center: Point, cosLat: real, box: Box)
      requires |coords| >= 1
      requires Valid()
      modifies this
      ensures Valid()
      ensures |meshes| == |old(meshes)| + 1 && meshes[..|old(meshes)|] == old(meshes)
      ensures var m := meshes[|meshes| - 1];
        Vertices(m.outline) == NormalizeCoordinates(coords, center, cosLat) &&
        m.height == ResolveHeight(way.tags).height &&
        m.colour == CategoryOf(way.tags) && m.metalness == Metalness(way.tags) &&
        m.userData == UserDataOf(way, BaseY(OriginElevation), ResolveHeight(way.tags).actual) &&
        m.box == box &&
        (m.y == BaseY(OriginElevation) + CollisionNudge <==> exists i :: 0 <= i < |old(meshes)| && Intersects(box, old(meshes)[i].box))
    {
      var normalized := NormalizeCoordinates(coords, center, cosLat);
      var outline := CoordsToShape(normalized);
      var info := ResolveHeight(way.tags);
      var base := BaseY(OriginElevation);
      BaseAtOrigin();
      var earlier := Boxes();
      var y := Nudge(base, box, earlier);
      var m := Mesh(UserDataOf(way, base, info.actual), outline, info.height,
                    CategoryOf(way.tags), Metalness(way.tags), y, box);
      meshes := meshes + [m];
    }
  }
}
