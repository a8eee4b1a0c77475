/**
 * The server's building record (`backend/models.py`): the fields filled in
 * from a tag dictionary with their defaults, the dictionary the record
 * exports, and the record's own attribute filter, set beside the browser's
 * filter in `Buildings`.
 */
module BackendModel {
  import opened Text
  import opened Numbers
  import Buildings

  // --------------------------------------------------------------- values

  /** A Python scalar as decoded JSON holds it: text, an int, a float, a boolean or `None`. */
  datatype PyValue = PStr(s: string) | PInt(i: int) | PFloat(d: Decimal) | PBool(b: bool) | PNone

  type Data = map<string, PyValue>

  /** `str(v)`. */
  function PyStr(v: PyValue): string {
    match v
    case PStr(s) => s
    case PInt(i) => IntText(i)
    case PFloat(d) => PyFloatText(d)
    case PBool(b) => if b then "True" else "False"
    case PNone => "None"
  }

  /** Python truthiness. */
  predicate Truthy(v: PyValue) {
    match v
    case PStr(s) => s != ""
    case PInt(i) => i != 0
    case PFloat(d) => d.mant != 0
    case PBool(b) => b
    case PNone => false
  }

  /** `float(v)`; `None` is the `ValueError` or `TypeError` it raises. */
  function ToFloat(v: PyValue): (r: Option<Decimal>)
    ensures v.PNone? ==> r.None?
    ensures v.PInt? ==> r == Some(Decimal(v.i, 0))
  {
    match v
    case PStr(s) => PyFloat(s)
    case PInt(i) => Some(Decimal(i, 0))
    case PFloat(d) => Some(d)
    case PBool(b) => Some(Decimal(if b then 1 else 0, 0))
    case PNone => None
  }

  /** `data.get(k, default)`: the default only when the key is absent. */
  function GetOr(data: Data, k: string, default: PyValue): PyValue {
    if k in data then data[k] else default
  }

  // ------------------------------------------------------------- the record

  datatype Building = Building(
    id: PyValue, name: PyValue, buildingType: PyValue, levels: PyValue, height: PyValue,
    amenity: PyValue, shop: PyValue, office: PyValue, yearBuilt: PyValue, material: PyValue,
    roofShape: PyValue, address: PyValue, housenumber: PyValue)

  /** Three times a decimal, exactly. */
  lemma TripleValue(d: Decimal)
    ensures Times(d, 3).Value() == 3.0 * d.Value()
  {
    ValueQuotient(d.mant, d.scale);
    ValueQuotient(d.mant * 3, d.scale);
    var p := Pow10(d.scale) as real;
    var q := d.mant as real / p;
    assert q * p == d.mant as real;
    assert (3.0 * q) * p == (d.mant * 3) as real;
  }

  /**
   * `data.get('height') or (float(levels) * 3 if levels else 10)`: the
   * `height` entry when truthy, else three units a level, else 10. `None` is
   * the error `float(levels)` raises; it cannot arise when the height is
   * truthy, because `or` does not evaluate its right operand then.
   */
  function HeightOf(height: PyValue, levels: PyValue): (r: Option<PyValue>)
    ensures r.None? <==> !Truthy(height) && Truthy(levels) && ToFloat(levels).None?
    ensures Truthy(height) ==> r == Some(height)
    ensures !Truthy(height) && !Truthy(levels) ==> r == Some(PInt(10))
    ensures r.Some? && !Truthy(height) && Truthy(levels) ==>
      r.value.PFloat? && r.value.d.Value() == 3.0 * ToFloat(levels).value.Value()
  {
    if Truthy(height) then Some(height)
    else if Truthy(levels) then
      match ToFloat(levels)
      case None => None
      case Some(d) => TripleValue(d); Some(PFloat(Times(d, 3)))
    else Some(PInt(10))
  }

  /** `Building(data)`; `None` is the error raised by a `building:levels` entry `float` rejects. */
  function NewBuilding(data: Data): (r: Option<Building>)
    ensures r.None? <==> HeightOf(GetOr(data, "height", PNone), GetOr(data, "building:levels", PStr("3"))).None?
    ensures r.Some? ==> Some(r.value.height) == HeightOf(GetOr(data, "height", PNone), r.value.levels)
  {
    var levels := GetOr(data, "building:levels", PStr("3"));
    match HeightOf(GetOr(data, "height", PNone), levels)
    case None => None
    case Some(height) =>
      Some(Building(
        id := GetOr(data, "id", PStr("unknown")),
        name := GetOr(data, "name", PStr("Unnamed Building")),
        buildingType := GetOr(data, "building", PStr("commercial")),
        levels := levels,
        height := height,
        amenity := GetOr(data, "amenity", PStr("")),
        shop := GetOr(data, "shop", PStr("")),
        office := GetOr(data, "office", PStr("")),
        yearBuilt := GetOr(data, "start_date", PStr("unknown")),
        material := GetOr(data, "material", PStr("concrete")),
        roofShape := GetOr(data, "roof:shape", PStr("flat")),
        address := GetOr(data, "addr:street", PStr("")),
        housenumber := GetOr(data, "addr:housenumber", PStr(""))))
  }

  /** `float('3')` is 3. */
  lemma ThreeParses()
    ensures ToFloat(PStr("3")) == Some(Decimal(3, 0))
  {
    PyFloatWhole("3");
    assert DigitsValue("3") == 3 by {
      assert "3"[..0] == "";
    }
  }

  /** With no height and the default levels `'3'`, the height is the float 9. */
  lemma DefaultHeight()
    ensures HeightOf(PNone, PStr("3")) == Some(PFloat(Decimal(9, 0)))
  {
    ThreeParses();
  }

  /** An empty dictionary gives every default; the height is `float('3') * 3`, the float 9. */
  lemma EmptyDataDefaults()
    ensures NewBuilding(map[]) == Some(Building(
      PStr("unknown"), PStr("Unnamed Building"), PStr("commercial"), PStr("3"), PFloat(Decimal(9, 0)),
      PStr(""), PStr(""), PStr(""), PStr("unknown"), PStr("concrete"), PStr("flat"), PStr(""), PStr("")))
  {
    DefaultHeight();
  }

  /** The keys of `to_dict`. */
  const DictKeys: set<string> := {"id", "name", "type", "levels", "height", "amenity", "shop", "office",
    "year_built", "material", "roof_shape", "address", "housenumber"}

  /** `to_dict()`: thirteen keys, some renamed from the fields they hold. */
  function ToDict(b: Building): (r: Data)
    ensures r.Keys == DictKeys
    ensures r["type"] == b.buildingType && r["levels"] == b.levels && r["year_built"] == b.yearBuilt
    ensures r["address"] == b.address && r["housenumber"] == b.housenumber && r["roof_shape"] == b.roofShape
  {
    map["id" := b.id, "name" := b.name, "type" := b.buildingType, "levels" := b.levels,
        "height" := b.height, "amenity" := b.amenity, "shop" := b.shop, "office" := b.office,
        "year_built" := b.yearBuilt, "material" := b.material, "roof_shape" := b.roofShape,
        "address" := b.address, "housenumber" := b.housenumber]
  }

  /**
   * The exported dictionary does not rebuild the record: its keys `type`,
   * `levels`, `year_built`, `address`, `housenumber` and `roof_shape` are not
   * the keys the constructor reads, so those fields fall back to their
   * defaults, while `id`, `name`, the truthy height and the rest survive.
   */
  lemma RebuildFromDict(b: Building)
    ensures NewBuilding(ToDict(b)).Some?
    ensures var r := NewBuilding(ToDict(b)).value;
      r.id == b.id && r.name == b.name && r.amenity == b.amenity && r.shop == b.shop &&
      r.office == b.office && r.material == b.material &&
      r.buildingType == PStr("commercial") && r.levels == PStr("3") && r.yearBuilt == PStr("unknown") &&
      r.address == PStr("") && r.housenumber == PStr("") && r.roofShape == PStr("flat") &&
      (Truthy(b.height) ==> r.height == b.height)
  {
    DictKeeps(b);
    DictMisses(b);
    RebuildFrom(ToDict(b), b);
  }

  /** The record built from a dictionary that has the fields of `b` under their own names and no tag names. */
  lemma RebuildFrom(dict: Data, b: Building)
    requires "id" in dict && dict["id"] == b.id && "name" in dict && dict["name"] == b.name
    requires "height" in dict && dict["height"] == b.height && "amenity" in dict && dict["amenity"] == b.amenity
    requires "shop" in dict && dict["shop"] == b.shop && "office" in dict && dict["office"] == b.office
    requires "material" in dict && dict["material"] == b.material
    requires "building:levels" !in dict && "building" !in dict && "start_date" !in dict
    requires "addr:street" !in dict && "addr:housenumber" !in dict && "roof:shape" !in dict
    ensures NewBuilding(dict).Some?
    ensures var r := NewBuilding(dict).value;
      r.id == b.id && r.name == b.name && r.amenity == b.amenity && r.shop == b.shop &&
      r.office == b.office && r.material == b.material &&
      r.buildingType == PStr("commercial") && r.levels == PStr("3") && r.yearBuilt == PStr("unknown") &&
      r.address == PStr("") && r.housenumber == PStr("") && r.roofShape == PStr("flat") &&
      (Truthy(b.height) ==> r.height == b.height)
  {
    if !Truthy(b.height) {
      DefaultHeight();
    }
  }

  /** None of the tag names the constructor reads is a key of the exported dictionary. */
  lemma DictMisses(b: Building)
    ensures "building:levels" !in ToDict(b) && "building" !in ToDict(b) && "start_date" !in ToDict(b)
    ensures "addr:street" !in ToDict(b) && "addr:housenumber" !in ToDict(b) && "roof:shape" !in ToDict(b)
  {
    NotADictKey("building:levels");
    NotADictKey("building");
    NotADictKey("start_date");
    NotADictKey("addr:street");
    NotADictKey("addr:housenumber");
    NotADictKey("roof:shape");
  }

  /** The exported dictionary holds the fields whose keys are their own names. */
  lemma DictKeeps(b: Building)
    ensures "id" in ToDict(b) && ToDict(b)["id"] == b.id && "name" in ToDict(b) && ToDict(b)["name"] == b.name
    ensures "height" in ToDict(b) && ToDict(b)["height"] == b.height
    ensures "amenity" in ToDict(b) && ToDict(b)["amenity"] == b.amenity && "shop" in ToDict(b) && ToDict(b)["shop"] == b.shop
    ensures "office" in ToDict(b) && ToDict(b)["office"] == b.office
    ensures "material" in ToDict(b) && ToDict(b)["material"] == b.material
  {
  }

  /** The tag names the constructor reads are not keys of the exported dictionary. */
  lemma NotADictKey(k: string)
    requires k == "building:levels" || k == "building" || k == "start_date" ||
      k == "addr:street" || k == "addr:housenumber" || k == "roof:shape"
    ensures k !in DictKeys
  {
  }

  // ---------------------------------------------------------------- filter

  /** `getattr(self, name, None)`: a field by its Python name, `PNone` when there is none. */
  function FieldNamed(b: Building, name: string): PyValue {
    if name == "id" then b.id
    else if name == "name" then b.name
    else if name == "building_type" then b.buildingType
    else if name == "levels" then b.levels
    else if name == "height" then b.height
    else if name == "amenity" then b.amenity
    else if name == "shop" then b.shop
    else if name == "office" then b.office
    else if name == "year_built" then b.yearBuilt
    else if name == "material" then b.material
    else if name == "roof_shape" then b.roofShape
    else if name == "address" then b.address
    else if name == "housenumber" then b.housenumber
    else PNone
  }

  /** The value a filter reads: four tag names map to fields, any other name is a field name. */
  function AttributeValue(b: Building, attribute: string): PyValue {
    if attribute == "building" then b.buildingType
    else if attribute == "building:levels" then b.levels
    else if attribute == "height" then b.height
    else if attribute == "start_date" then b.yearBuilt
    else FieldNamed(b, attribute)
  }

  predicate IsNumericOperator(op: PyValue) {
    op == PStr(">") || op == PStr("<") || op == PStr(">=") || op == PStr("<=")
  }

  /** Equal lower-cased `str` forms. */
  predicate TextEqual(a: PyValue, b: PyValue) {
    Lower(PyStr(a)) == Lower(PyStr(b))
  }

  /** The operator applied to a present attribute value and the filter's value. */
  function Apply(op: PyValue, bv: PyValue, v: PyValue): bool {
    if IsNumericOperator(op) then
      Buildings.OrderedNumbers(op.s, ToFloat(bv), ToFloat(v))
    else if op == PStr("=") || op == PStr("==") then TextEqual(bv, v)
    else if op == PStr("contains") then Contains(Lower(PyStr(bv)), Lower(PyStr(v)))
    else false
  }

  /**
   * `matches_filter(criteria)`, with a missing criterion read as `None`. The
   * result is `None` when the attribute is not text: `getattr` then raises
   * `TypeError`, which the method does not catch.
   */
  function MatchesFilter(b: Building, criteria: Data): (r: Option<bool>)
    ensures r.None? <==> !GetOr(criteria, "attribute", PNone).PStr?
    ensures r == Some(true) ==> AttributeValue(b, GetOr(criteria, "attribute", PNone).s) != PNone
  {
    match GetOr(criteria, "attribute", PNone)
    case PStr(a) =>
      var bv := AttributeValue(b, a);
      if bv == PNone then Some(false)
      else Some(Apply(GetOr(criteria, "operator", PNone), bv, GetOr(criteria, "value", PNone)))
    case _ => None
  }

  /** The criteria dictionary of one filter. */
  function Criteria(attribute: string, op: string, value: PyValue): (c: Data)
    ensures GetOr(c, "attribute", PNone) == PStr(attribute)
    ensures GetOr(c, "operator", PNone) == PStr(op) && GetOr(c, "value", PNone) == value
  {
    map["attribute" := PStr(attribute), "operator" := PStr(op), "value" := value]
  }

  /** A numeric operator holds iff both sides convert with `float` and compare that way. */
  lemma NumericFilter(b: Building, attribute: string, op: string, value: PyValue)
    requires op == ">" || op == "<" || op == ">=" || op == "<="
    requires AttributeValue(b, attribute) != PNone
    ensures MatchesFilter(b, Criteria(attribute, op, value)) ==
      Some(Buildings.OrderedNumbers(op, ToFloat(AttributeValue(b, attribute)), ToFloat(value)))
  {
    var c := Criteria(attribute, op, value);
  }

  /** `=` and `==` hold iff the lower-cased `str` forms of the two values are equal. */
  lemma EqualityFilter(b: Building, attribute: string, op: string, value: PyValue)
    requires op == "=" || op == "=="
    requires AttributeValue(b, attribute) != PNone
    ensures MatchesFilter(b, Criteria(attribute, op, value)).Some?
    ensures MatchesFilter(b, Criteria(attribute, op, value)).value <==>
      Lower(PyStr(AttributeValue(b, attribute))) == Lower(PyStr(value))
  {
    PresentAttribute(b, attribute, op, value);
    ApplyEquality(op, AttributeValue(b, attribute), value);
  }

  /**
   * `contains` holds iff the lower-cased `str` form of the filter's value
   * occurs somewhere in that of the building's value.
   */
  lemma ContainsFilter(b: Building, attribute: string, op: string, value: PyValue)
    requires op == "contains"
    requires AttributeValue(b, attribute) != PNone
    ensures MatchesFilter(b, Criteria(attribute, op, value)).Some?
    ensures MatchesFilter(b, Criteria(attribute, op, value)).value <==>
      exists j: nat :: OccursAt(Lower(PyStr(AttributeValue(b, attribute))), Lower(PyStr(value)), j)
  {
    var bv := AttributeValue(b, attribute);
    PresentAttribute(b, attribute, op, value);
    ApplyContains(op, bv, value);
    ContainsIffOccurs(Lower(PyStr(bv)), Lower(PyStr(value)));
  }

  /** A present attribute is tested with the criteria's operator and value. */
  lemma PresentAttribute(b: Building, attribute: string, op: string, value: PyValue)
    requires AttributeValue(b, attribute) != PNone
    ensures MatchesFilter(b, Criteria(attribute, op, value)).Some?
    ensures MatchesFilter(b, Criteria(attribute, op, value)).value == Apply(PStr(op), AttributeValue(b, attribute), value)
  {
    var c := Criteria(attribute, op, value);
  }

  lemma ApplyEquality(op: string, bv: PyValue, v: PyValue)
    requires op == "=" || op == "=="
    ensures Apply(PStr(op), bv, v) == TextEqual(bv, v)
  {
  }

  lemma ApplyContains(op: string, bv: PyValue, v: PyValue)
    requires op == "contains"
    ensures Apply(PStr(op), bv, v) == Contains(Lower(PyStr(bv)), Lower(PyStr(v)))
  {
  }

  /** `=` compares only text: it is symmetric in the building's value and the filter's value. */
  lemma EqualitySymmetric(b1: Building, b2: Building, attribute: string, op: string)
    requires op == "=" || op == "=="
    requires AttributeValue(b1, attribute) != PNone && AttributeValue(b2, attribute) != PNone
    ensures MatchesFilter(b1, Criteria(attribute, op, AttributeValue(b2, attribute))) ==
            MatchesFilter(b2, Criteria(attribute, op, AttributeValue(b1, attribute)))
  {
    var x, y := AttributeValue(b1, attribute), AttributeValue(b2, attribute);
    var c1, c2 := Criteria(attribute, op, y), Criteria(attribute, op, x);
    assert GetOr(c1, "value", PNone) == y && GetOr(c2, "value", PNone) == x;
  }

  /** An absent field, an operator outside the six, or a non-text attribute never match. */
  lemma FilterFailures(b: Building, criteria: Data)
    ensures var a := GetOr(criteria, "attribute", PNone);
      a.PStr? && AttributeValue(b, a.s) == PNone ==> MatchesFilter(b, criteria) == Some(false)
    ensures var op := GetOr(criteria, "operator", PNone);
      !IsNumericOperator(op) && op != PStr("=") && op != PStr("==") && op != PStr("contains") ==>
      MatchesFilter(b, criteria) != Some(true)
  {
  }

  /** `type` is a key of the exported dictionary but not a field, so a filter on it never matches. */
  lemma TypeIsNotAField(b: Building, op: string, value: PyValue)
    ensures "type" in DictKeys
    ensures MatchesFilter(b, Criteria("type", op, value)) == Some(false)
  {
    TypeNamesNoField(b, "type");
    var c := Criteria("type", op, value);
  }

  /** No field and no tag name is spelled `type`. */
  lemma TypeNamesNoField(b: Building, a: string)
    requires a == "type"
    ensures AttributeValue(b, a) == PNone
  {
    assert |a| == 4 && a[0] == 't';
  }

  /**
   * A float height never equals the whole number it holds: `str(9.0)` is
   * `9.0` while `str(9)` is `9`.
   */
  lemma FloatHeightNotEqualToInt(b: Building, n: nat)
    requires b.height == PFloat(Decimal(n, 0))
    ensures MatchesFilter(b, Criteria("height", "=", PInt(n))) == Some(false)
  {
    var c := Criteria("height", "=", PInt(n));
    assert |PyStr(PFloat(Decimal(n, 0)))| == |IntText(n)| + 2;
  }

  // ------------------------------------- against the browser's filter

  /**
   * Where `float` accepts both texts, the server's numeric comparison agrees
   * with the browser's, which reads the same numbers with `parseFloat`.
   */
  lemma NumericFiltersAgree(b: Building, ud: Buildings.UserData, attribute: string, op: string, s: string, t: string)
    requires op == ">" || op == "<" || op == ">=" || op == "<="
    requires AttributeValue(b, attribute) == PStr(s) && Buildings.Lookup(ud, attribute) == Some(Buildings.Str(s))
    requires PyFloat(s).Some? && PyFloat(t).Some?
    ensures MatchesFilter(b, Criteria(attribute, op, PStr(t))) == Some(Buildings.Accepts(ud, Buildings.Filter(attribute, op, Buildings.Str(t))))
  {
    NumericFilter(b, attribute, op, PStr(t));
    Buildings.NumericComparison(ud, Buildings.Filter(attribute, op, Buildings.Str(t)));
    NumericTestsAgree(op, s, t);
  }

  /** On text values, the server's `contains` and `=` agree with the browser's. */
  lemma TextFiltersAgree(b: Building, ud: Buildings.UserData, attribute: string, op: string, s: string, t: string)
    requires op == "contains" || op == "="
    requires AttributeValue(b, attribute) == PStr(s) && Buildings.Lookup(ud, attribute) == Some(Buildings.Str(s))
    ensures MatchesFilter(b, Criteria(attribute, op, PStr(t))).Some?
    ensures MatchesFilter(b, Criteria(attribute, op, PStr(t))).value == Buildings.Accepts(ud, Buildings.Filter(attribute, op, Buildings.Str(t)))
  {
    PresentAttribute(b, attribute, op, PStr(t));
    if op == "contains" {
      ApplyContains(op, PStr(s), PStr(t));
    } else {
      ApplyEquality(op, PStr(s), PStr(t));
    }
  }

  lemma NumericTestsAgree(op: string, s: string, t: string)
    requires PyFloat(s).Some? && PyFloat(t).Some?
    ensures Buildings.OrderedNumbers(op, PyFloat(s), PyFloat(t)) == Buildings.OrderedNumbers(op, ParseFloat(s), ParseFloat(t))
  {
    PyFloatAgreesWithParseFloat(s);
    PyFloatAgreesWithParseFloat(t);
  }

  /**
   * A height tag such as `120m`: the browser reads its leading number and the
   * filter `height > n` passes for any smaller `n`, but the server's `float`
   * rejects the whole text and the filter fails.
   */
  lemma PrefixParsingSplitsFilters(d: string, y: string, n: nat)
    requires d != [] && AllDigits(d) && n < DigitsValue(d)
    requires y != [] && !(IsDigit(y[0]) || y[0] == '.' || y[0] == 'e' || y[0] == 'E' || IsSpace(y[0]))
    requires !IsSpace(y[|y| - 1])
    ensures Buildings.Accepts(map["height" := Buildings.Str(d + y)], Buildings.Filter("height", ">", Buildings.Num(Decimal(n, 0))))
    ensures NewBuilding(map["height" := PStr(d + y)]).Some?
    ensures MatchesFilter(NewBuilding(map["height" := PStr(d + y)]).value, Criteria("height", ">", PInt(n))) == Some(false)
  {
    Buildings.LeadingNumberPassesFilter(d, y, n);
    PyFloatDigits(d, y);
    var data := map["height" := PStr(d + y)];
    assert GetOr(data, "height", PNone) == PStr(d + y);
    var b := NewBuilding(data).value;
    assert b.height == PStr(d + y);
    NumericFilter(b, "height", ">", PInt(n));
  }

  /**
   * A levels text such as `10.0` loosely equals the number 10 in the browser,
   * but not in the server, whose `=` compares `10.0` with `10` as text.
   */
  lemma LooseEqualityDiffers(d: string, z: string)
    requires d != [] && AllDigits(d) && z != [] && forall i :: 0 <= i < |z| ==> z[i] == '0'
    ensures var n := DigitsValue(d);
      Buildings.Accepts(map["building:levels" := Buildings.Str(d + ['.'] + z)],
                        Buildings.Filter("building:levels", "=", Buildings.Num(Decimal(n, 0))))
    ensures var data := map["building:levels" := PStr(d + ['.'] + z), "height" := PInt(1)];
      NewBuilding(data).Some? &&
      MatchesFilter(NewBuilding(data).value, Criteria("building:levels", "=", PInt(DigitsValue(d)))) == Some(false)
  {
    Buildings.LooseNumericEquality(d, z);
    LevelsEqualityIsTextual(d + ['.'] + z, PInt(DigitsValue(d)));
    DottedTextNotInt(d, z, DigitsValue(d));
  }

  /** With a height present, a record's `=` filter on its levels compares their text. */
  lemma LevelsEqualityIsTextual(t: string, v: PyValue)
    ensures var data := map["building:levels" := PStr(t), "height" := PInt(1)];
      NewBuilding(data).Some? &&
      MatchesFilter(NewBuilding(data).value, Criteria("building:levels", "=", v)) == Some(TextEqual(PStr(t), v))
  {
    var data := map["building:levels" := PStr(t), "height" := PInt(1)];
    assert GetOr(data, "height", PNone) == PInt(1) && GetOr(data, "building:levels", PStr("3")) == PStr(t);
  }

  /** Text with a point in it is never the `str` of an int. */
  lemma DottedTextNotInt(d: string, z: string, n: nat)
    ensures !TextEqual(PStr(d + ['.'] + z), PInt(n))
  {
    var t := d + ['.'] + z;
    var u := Lower(IntText(n));
    assert Lower(t)[|d|] == '.';
    assert forall i :: 0 <= i < |u| ==> u[i] != '.' by {
      assert AllDigits(DigitsOf(n));
    }
  }
}
