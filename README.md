# 3D City Visualizer — a verified model of its core logic

3D City Visualizer draws downtown Calgary in the browser. It fetches
OpenStreetMap buildings and roads from the Overpass service and extrudes them
into meshes. The user can then ask a language model about buildings, or have
it turn a question into attribute filters that highlight buildings. A small
Flask server forwards the questions and tidies the model's answers.

This project models the parts of that system that decide something, not the
rendering:

- **Buildings** (`Buildings.dfy`): filtering and sorting buildings by a list of
  `{attribute, operator, value}` predicates; collecting building ways from an
  Overpass answer and closing their rings; resolving a height from tags and
  clamping it; the colour family and metalness; placement with a one-step
  collision nudge; the `userData` record a mesh carries.
- **Server model** (`BackendModel.dfy`): the Python `Building` record's
  defaults, its `to_dict`, and its stricter `matches_filter`. Lemmas relate
  it to the browser filter.
- **Server replies** (`FilterService.dfy`): stripping code fences from a model
  reply, validating and normalising filters, the knowledge-based rewrites,
  the fallback replies, the split of a chat answer at `Sources:`, and the
  fallback building summary.
- **Geometry** (`Geometry.dfy`): outline paths, the local projection, the
  centre of a set of rings, box overlap and grid snapping.
- **Client rate limiter and summary cache** (`LlmService.dfy`, class
  `Client`): a one-minute sliding window, a per-day counter in local storage,
  a two-hour summary cache, the gated requests and the preload selection.
- **Overpass bookkeeping** (`Overpass.dfy`, class `Service`): a per-hour
  counter, an always-open gate and a 24-hour cache per kind of data.
- **Roads** (`Roads.dfy`): way selection, the width, colour and centre-line
  tables, the outline command sequence, road `userData`, and the fetch that
  prefers the cache.
- **Mock responders** (`MockApi.dfy`): keyword-priority dispatch of canned
  answers and the mock building summary.
- **Shared helpers**:
  - `Text.dfy`: ASCII case mapping, substring search, trimming, Python
    `split`.
  - `Numbers.dfy`: exact decimal numbers, the parsers `parseFloat`,
    `Number`, `float` and `parseInt`, number printing, and thousands
    grouping.
  - `Literals.dfy`: decimal literals as values (sign, digits, point,
    fraction, exponent), their printed text and the number they denote.
    Lemmas prove that each parser reads a printed literal as its value and
    that whatever a parser accepts is such a literal.

Modelling choices used throughout:

- Numbers are exact. A parsed number is a `Decimal` (an integer mantissa and
  a count of decimal places), and NaN is `None`.
- Clocks, the current date and hour, local storage and network replies are
  parameters or fields.
- `Math.cos` of the centre latitude is the parameter `cosLat`.
- A segment's unit direction (`normalize()`) is the function parameter
  `direction`.

## Model

| member | source | states |
|---|---|---|
| Text.IndexOf | backend/app.py:282-283 | the result is the first position where the text occurs, and `None` only when it occurs nowhere |
| Text.Split | backend/app.py:284 | `str.split(sep)`: at least one piece, no piece contains the separator, the first piece is a prefix ending at the first occurrence |
| Text.SplitJoin | backend/app.py:284 | joining the pieces of a split with the separator gives back the original text |
| Text.SplitOnce | backend/app.py:283 | `split(sep, 1)` is `None` iff the separator is absent; otherwise before + sep + after is the text and the separator does not occur earlier |
| Text.StripSlice | backend/app.py:289 | `strip()` gives a slice of the text with no whitespace at either end |
| Text.StripParts | backend/app.py:289 | every text is leading whitespace, its `strip()`, then trailing whitespace |
| Text.StripAround | backend/app.py:289 | whitespace around a text that starts and ends with non-whitespace is removed by `strip()` and nothing else is |
| Text.LowerIdempotent | src/components/Buildings.tsx:106-107 | lower-casing twice is lower-casing once |
| Numbers.ParseFloat | src/components/Buildings.tsx:95-96 | `parseFloat` gives a number iff a decimal literal starts the text after leading whitespace |
| Literals.ScanLiteral | src/components/Buildings.tsx:95-96 | the scanner reads all of a printed literal, and nothing more, as the literal's value when the text after it cannot extend it |
| Literals.ReadLiteral | src/components/Buildings.tsx:95-96 | whatever the scanner reads is the printed text of a valid literal, its number is that literal's value, and the rest of the text cannot extend it |
| Literals.ParseFloatReads | src/components/Buildings.tsx:95-96 | `parseFloat` of whitespace, a literal (any sign, `.5`, `5.`, exponents) and text that cannot extend it is the literal's value |
| Literals.ParseFloatAccepts | src/components/Buildings.tsx:95-96 | whenever `parseFloat` gives a number, the text is whitespace, a literal and text that cannot extend it, and the number is the literal's value |
| Literals.JsNumberReads | src/components/Buildings.tsx:144-147 | `Number` of a literal with whitespace around it is the literal's value |
| Literals.JsNumberAccepts | src/components/Buildings.tsx:144-147 | whenever `Number` reads non-blank text, the text is whitespace, one literal and whitespace, and the number is the literal's value |
| Literals.PyFloatReads | backend/models.py:76-77 | `float` of a literal with whitespace around it is the literal's value |
| Literals.PyFloatAccepts | backend/models.py:76-77 | whenever `float` succeeds, the text is whitespace, one literal and whitespace, and the number is the literal's value; with `PyFloatReads`, `float` accepts exactly these texts |
| Numbers.PyFloatAgreesWithParseFloat | backend/models.py:76-77 | wherever Python's `float` accepts a text, `parseFloat` reads the same number from it |
| Numbers.JsNumberAgreesWithParseFloat | src/components/Buildings.tsx:144-147 | wherever `Number` reads a non-blank text, `parseFloat` reads the same number |
| Numbers.PrefixParsingDiffers | src/components/Buildings.tsx:95-96 | `parseFloat("12abc")` is 12 while `float` and `Number` reject it |
| Numbers.BlankTextDiffers | src/components/Buildings.tsx:144 | `Number(" ")` is 0 while `parseFloat` and `float` reject blank text |
| Numbers.IntTextRoundTrip | src/services/llmService.ts:52-70 | an integer written with `toString` is read back by `parseInt(_, 10)` |
| Numbers.CountTextRoundTrip | src/services/llmService.ts:49-70 | a stored count (NaN included) is non-empty text and reads back as itself |
| Numbers.GroupedDigitsValue | backend/app.py:200 | dropping the commas from the grouped digits of n gives a numeral for n |
| Numbers.ParseFloatDigitsOf | src/components/Buildings.tsx:312-314 | `parseFloat` reads back the digits of every whole number |
| Numbers.JsNumberTextWhole | src/components/Buildings.tsx:314 | a whole number prints as its digits |
| Geometry.CoordsToShape | src/utils/geometry.ts:3-16 | one move to the first point, only lines after it, and the path visits exactly the given points in order |
| Geometry.PolylineVertices | src/utils/geometry.ts:8-13 | a path of moves and lines visits one point per command, the command's target |
| Geometry.NormalizeCoordinates | src/utils/geometry.ts:19-33 | same length as the input, each point projected on its own |
| Geometry.ProjectLinear | src/utils/geometry.ts:29-30 | x depends only on the longitude offset and z only on the latitude offset, each linearly |
| Geometry.ProjectCenter | src/utils/geometry.ts:29-30 | the centre projects to the origin |
| Geometry.ProjectRoundTrip | src/utils/geometry.ts:29-30 | the projection is invertible when the cosine is non-zero |
| Geometry.ProjectMonotone | src/utils/geometry.ts:29-30 | with a positive cosine the projection keeps east-west and north-south order, both ways |
| Geometry.BoundsTight | src/utils/geometry.ts:37-49 | every point lies within the bounds, and each bound is reached by some point; no points, no bounds |
| Geometry.CalculateCenter | src/utils/geometry.ts:36-52 | NaN iff there are no points; otherwise the midpoint of the bounds of all points |
| Geometry.MidpointInside | src/utils/geometry.ts:51 | the midpoint of bounds lies within them |
| Geometry.CenterInside | src/utils/geometry.ts:36-52 | the centre of a non-empty set of rings lies inside their bounding box |
| Geometry.IntersectsSymmetric | src/utils/geometry.ts:55-60 | box overlap does not depend on the order of the boxes |
| Geometry.IntersectsIffCommonPoint | src/utils/geometry.ts:55-60 | two non-empty boxes overlap iff some point lies in both |
| Geometry.RoundClose | src/utils/geometry.ts:65-67 | `Math.round` is within one half of its argument |
| Geometry.SnapOnGrid | src/utils/geometry.ts:63-69 | a snapped value is a whole multiple of the grid size and within half a grid step of the value |
| Geometry.SnapIdempotent | src/utils/geometry.ts:63-69 | snapping twice is snapping once |
| Geometry.SnapToGridIdempotent | src/utils/geometry.ts:63-69 | snapping a vector twice is snapping it once |
| Buildings.ToNumberViaText | src/components/Buildings.tsx:144-147 | `Number(v)` of a text or object is `Number(String(v))` |
| Buildings.MissingAttributeFails | src/components/Buildings.tsx:79-82 | a filter on an attribute the building lacks rejects it |
| Buildings.LookupFallback | src/components/Buildings.tsx:63-69 | `building:levels` reads `levels` exactly when its own value is missing or falsy; `building` likewise reads `type` |
| Buildings.Lookup | src/components/Buildings.tsx:63-69 | definition: `building:levels` falls back to `levels` and `building` to `type`; stated by `Buildings.LookupFallback` and `Buildings.MissingAttributeFails` |
| Buildings.Test | src/components/Buildings.tsx:84-128 | definition: the per-operator test; stated by `Buildings.NumericComparison`, `Buildings.ContainsFilter`, `Buildings.LooseEqualsSymmetric` and `Buildings.UnknownOperatorFails` |
| Buildings.UnknownOperatorFails | src/components/Buildings.tsx:125-127 | an operator outside the six rejects every building |
| Buildings.NumericComparison | src/components/Buildings.tsx:88-122 | a numeric operator holds iff both sides have a leading number and they compare as the operator says |
| Buildings.ContainsFilter | src/components/Buildings.tsx:105-124 | `contains` holds iff the lower-cased filter text occurs in the lower-cased building text |
| Buildings.LooseEqualsSymmetric | src/components/Buildings.tsx:118 | loose equality does not depend on the order of its operands |
| Buildings.LeadingNumberPassesFilter | src/components/Buildings.tsx:95-112 | a tag such as `120m` passes `height > 100`: only its leading number is read |
| Buildings.LooseNumericEquality | src/components/Buildings.tsx:115-118 | a tag `10.0` equals the number 10 under `=` |
| Buildings.Selected | src/components/Buildings.tsx:131-132 | the flagged positions, strictly increasing, each below the bound, and every flagged position included |
| Buildings.Matching | src/components/Buildings.tsx:56-132 | strictly increasing building indices, and index i is present iff every filter accepts building i |
| Buildings.LexCompare | src/components/Buildings.tsx:154-155 | the text comparison is -1, 0 or 1 |
| Buildings.LexCompareAntisymmetric | src/components/Buildings.tsx:154-155 | swapping the texts negates the comparison |
| Buildings.Compare | src/components/Buildings.tsx:139-156 | the comparator's sign is -1, 0 or 1 |
| Buildings.CompareAntisymmetric | src/components/Buildings.tsx:139-156 | swapping the two values negates the comparator, in both sort orders |
| Buildings.SwapKeepsMultiset | src/components/Buildings.tsx:139 | exchanging neighbours keeps the same indices |
| Buildings.InsertAt | src/components/Buildings.tsx:139-156 | one insertion step keeps the same indices and extends the ordered prefix by one |
| Buildings.SortIndices | src/components/Buildings.tsx:139-156 | sorting keeps the same indices and leaves every neighbouring pair in comparator order |
| Buildings.IndexCompareAntisymmetric | src/components/Buildings.tsx:139-156 | the comparator on building indices is antisymmetric |
| Buildings.CompareNumbers | src/components/Buildings.tsx:144-148 | between two numbers the comparator orders by value, rising or falling with the sort order |
| Buildings.AdjacentNumbers | src/components/Buildings.tsx:144-148 | neighbours with numeric sort values are in numeric order |
| Buildings.NumericKeysSorted | src/components/Buildings.tsx:137-157 | when every sort value is a number, the whole result is ordered by value, not only its neighbours |
| Buildings.ApplyFilters | src/components/Buildings.tsx:41-167 | no filters: nothing shown and no count reported; otherwise the accepted buildings, as a permutation of `Matching`, in index order without `sortBy` and in comparator order with it, and the count reported is the number shown |
| Buildings.ShownAreAccepted | src/components/Buildings.tsx:56-132 | every index shown is a building that every filter accepts |
| Buildings.CollectNodes | src/components/Buildings.tsx:254-259 | the node table the first pass builds is `NodeMap` of the elements |
| Buildings.NodeMap | src/components/Buildings.tsx:254-259 | definition: the node table, later nodes overwriting earlier ones; stated by `Buildings.NodeMapLastWins` and `Buildings.NodeMapOnlyNodes` |
| Buildings.NodeMapLastWins | src/components/Buildings.tsx:255-259 | a node id maps to the position of the last node with that id |
| Buildings.NodeMapOnlyNodes | src/components/Buildings.tsx:255-259 | every id in the table comes from a node element |
| Buildings.Ring | src/components/Buildings.tsx:264-269 | a way's entries in order, plus its first entry when that is not already last, so the ring ends where it starts |
| Buildings.CollectWays | src/components/Buildings.tsx:262-277 | the second pass collects exactly `BuildingWays` |
| Buildings.BuildingWays | src/components/Buildings.tsx:262-277 | definition: the kept building ways with their closed rings; stated by `Buildings.BuildingWaysClosed` and `Buildings.BuildingWaysCount` |
| Buildings.BuildingWaysClosed | src/components/Buildings.tsx:262-277 | every collected outline has a set `building` tag, at least three entries, and ends where it starts |
| Buildings.BuildingWaysCount | src/components/Buildings.tsx:262-277 | one outline for each kept way element |
| Buildings.ResolveLength | src/components/Buildings.tsx:264 | the points resolve iff no node is missing, keeping length and order |
| Buildings.Clamp | src/components/Buildings.tsx:317-319 | a clamped number lies in [4, 800] |
| Buildings.HeightFromTag | src/components/Buildings.tsx:302-310 | the recorded text is the tag; NaN iff the tag has no leading number; otherwise the height is in [4, 800] |
| Buildings.HeightFromLevels | src/components/Buildings.tsx:311-314 | NaN iff the levels tag has no leading number; otherwise in [4, 800] and recorded as `<levels> levels` |
| Buildings.ResolveHeight | src/components/Buildings.tsx:299-319 | `height` tag first, then `building:levels`, else 50 recorded as `unknown`; a numeric height always lies in [4, 800] |
| Buildings.ClampKeepsInRange | src/components/Buildings.tsx:317-319 | a height already in [4, 800] is unchanged |
| Buildings.ClampIdempotent | src/components/Buildings.tsx:317-319 | clamping twice is clamping once |
| Buildings.FeetHeight | src/components/Buildings.tsx:302-310 | a height tag mentioning `ft` with whole number v gives v × 0.3048 × 1.5, clamped |
| Buildings.FeetSuffix | src/components/Buildings.tsx:305 | any tag ending in `ft` counts as feet |
| Buildings.FeetTagHeight | src/components/Buildings.tsx:305-310 | feet conversion and scaling of a whole-number tag |
| Buildings.HundredFeet | src/components/Buildings.tsx:306-310 | 100 ft becomes 45.72 |
| Buildings.LevelsHeight | src/components/Buildings.tsx:311-319 | without a height tag, v levels give 4.5 × v, clamped, recorded as `v levels` |
| Buildings.WholeLevels | src/components/Buildings.tsx:312-314 | the levels height and text for a whole number of levels |
| Buildings.UnparsableHeightIsNaN | src/components/Buildings.tsx:304-319 | a height tag not starting with a number gives NaN, which passes both clamp tests |
| Buildings.Metalness | src/components/Buildings.tsx:362 | metalness is 0.3 or 0.1 |
| Buildings.CategoryOf | src/components/Buildings.tsx:333-353 | definition: the colour rules in order; stated by `Buildings.ShopOrOfficeIsCommercial`, `Buildings.AmenityColourNeedsUnlistedType` and `Buildings.MetalnessAndColour` |
| Buildings.ShopOrOfficeIsCommercial | src/components/Buildings.tsx:335 | any `shop` or `office` tag gives the commercial colour |
| Buildings.AmenityColourNeedsUnlistedType | src/components/Buildings.tsx:335-349 | an amenity colour implies no shop, no office and none of the listed building types |
| Buildings.MetalnessAndColour | src/components/Buildings.tsx:335-362 | commercial metalness implies the commercial colour, but a shop makes the colour commercial without the metalness |
| Buildings.BaseAtOrigin | src/components/Buildings.tsx:377-387 | every mesh sits at the origin, so it rests 0.01 above the ground |
| Buildings.Nudge | src/components/Buildings.tsx:397-406 | raised by 0.1 iff some earlier box overlaps, and raised only once |
| Buildings.UserDataOf | src/components/Buildings.tsx:390-395 | the tags plus `id`, `position` and `actualHeight`, the three own keys winning over tags |
| Buildings.HeightFilterSeesTag | src/components/Buildings.tsx:390-395 | a `height` filter reads the raw tag, never the resolved height |
| Buildings.BuildingLayer.constructor | src/components/Buildings.tsx:284 | the layer starts with no meshes |
| Buildings.BuildingLayer.Boxes | src/components/Buildings.tsx:398-399 | the boxes of the placed meshes, in placement order |
| Buildings.BuildingLayer.AddBuilding | src/components/Buildings.tsx:287-408 | appends one mesh (outline, height, colour, metalness, userData) and keeps every height NaN or in [4, 800]; nudged iff it overlaps an earlier mesh |
| BackendModel.ToFloat | backend/models.py:76-79 | `float(None)` fails and `float` of an int is that int |
| BackendModel.HeightOf | backend/models.py:14 | a truthy height is kept; no height and no levels give 10; otherwise levels × 3, failing iff `float` rejects the levels |
| BackendModel.NewBuilding | backend/models.py:9-22 | construction fails iff the height rule fails; the height follows the rule for the levels read with default `'3'` |
| BackendModel.ThreeParses | backend/models.py:13-14 | `float('3')` is 3 |
| BackendModel.DefaultHeight | backend/models.py:13-14 | with no height and default levels the height is the float 9 |
| BackendModel.EmptyDataDefaults | backend/models.py:9-22 | an empty dictionary gives every documented default |
| BackendModel.ToDict | backend/models.py:24-42 | exactly the thirteen keys, `type` holding the building type and `year_built` the start date |
| BackendModel.RebuildFromDict | backend/models.py:9-42 | rebuilding a record from its own dictionary succeeds; the keys `to_dict` renames fall back to defaults |
| BackendModel.MatchesFilter | backend/models.py:44-95 | undecided only when the attribute is not text; a match implies the attribute is present |
| BackendModel.AttributeValue | backend/models.py:58-68 | definition: four renamed fields, otherwise `getattr`; stated by `BackendModel.TypeIsNotAField`, `BackendModel.FilterFailures` and `BackendModel.LevelsEqualityIsTextual` |
| BackendModel.Apply | backend/models.py:73-95 | definition: the operator tests; stated by `BackendModel.NumericFilter`, `BackendModel.EqualityFilter` and `BackendModel.ContainsFilter` |
| BackendModel.Criteria | backend/models.py:54-56 | the filter dictionary reads back its attribute, operator and value |
| BackendModel.NumericFilter | backend/models.py:74-89 | a numeric operator holds iff both sides convert with `float` and compare that way |
| BackendModel.EqualityFilter | backend/models.py:90-91 | for any present attribute, `=` and `==` hold iff the lower-cased `str` of both values are equal |
| BackendModel.ContainsFilter | backend/models.py:92-93 | for any present attribute, `contains` holds iff the lower-cased `str` of the filter value occurs in the lower-cased `str` of the attribute |
| BackendModel.TextFiltersAgree | backend/models.py:90-93 | on a text attribute the browser also sees as that text, the server's `=` and `contains` give the browser's answer |
| BackendModel.EqualitySymmetric | backend/models.py:90-91 | `=` compares only text, so it is symmetric between two buildings' values |
| BackendModel.FilterFailures | backend/models.py:68-95 | an absent field, or an operator outside the six, never matches |
| BackendModel.TypeIsNotAField | backend/models.py:31-68 | `type` is a dictionary key but not a field, so a filter on it never matches |
| BackendModel.FloatHeightNotEqualToInt | backend/models.py:91 | a computed float height `9.0` is not `=` to the int 9 |
| BackendModel.NumericFiltersAgree | backend/models.py:74-89 | on text both `float` and `parseFloat` read, the server and browser numeric filters agree |
| BackendModel.NumericTestsAgree | backend/models.py:74-89 | the numeric tests agree on text both parsers accept |
| BackendModel.PrefixParsingSplitsFilters | backend/models.py:74-79 | a tag like `120m` passes the browser's `height > 100` and fails the server's |
| BackendModel.LooseEqualityDiffers | backend/models.py:90-91 | `10.0 == 10` holds in the browser and fails on the server |
| BackendModel.LevelsEqualityIsTextual | backend/models.py:90-91 | the server's `=` on levels compares their text |
| BackendModel.DottedTextNotInt | backend/models.py:91 | text with a point is never the `str` of an int |
| FilterService.FirstPiece | backend/app.py:513-515 | the first piece of a split is the text before the first occurrence, or all of it |
| FilterService.FencedPieceClean | backend/app.py:513-515 | the extracted fenced part contains no fence |
| FilterService.TaggedFenceIsFence | backend/app.py:512-514 | a reply starting with the tagged fence also starts with a plain fence, so the order of the tests matters |
| FilterService.StripFences | backend/app.py:509-515 | unfenced replies are only stripped; fenced ones lose every fence |
| FilterService.JsonFencedBody | backend/app.py:512-513 | ```` ```json body ``` ```` gives the stripped body |
| FilterService.FencedBody | backend/app.py:514-515 | ```` ``` body ``` ```` gives the stripped body |
| FilterService.CanonicalNameIdempotent | backend/app.py:532-542 | normalising an attribute name twice is normalising it once |
| FilterService.CanonicalName | backend/app.py:532-542 | definition: the alias table; stated by `FilterService.CanonicalNameIdempotent` |
| FilterService.NormalizeAttribute | backend/app.py:532-542 | definition: a text attribute goes through `CanonicalName`, any other value is kept; used by `FilterService.StepRewrites` and `FilterService.ProcessedFilters` |
| FilterService.KnowledgeRewrite | backend/app.py:544-630 | no rewrite iff no cue applies (date cues only for `start_date`); a rewrite's value is one of the seven building names |
| FilterService.StyleRewritesAnyAttribute | backend/app.py:585-606 | a style cue rewrites a filter on any attribute unless a date rule came first |
| FilterService.SecondMeansSustainable | backend/app.py:620-625 | a query containing `second` triggers the sustainability rewrite, because it contains `eco` |
| FilterService.HistoricPrecedence | backend/app.py:548-559 | `oldest` outranks `heritage` in a date filter |
| FilterService.AppendSentence | backend/app.py:562-564 | the explanation keeps its text, gains a full stop only if it lacks one, and ends with the sentence |
| FilterService.Outputs | backend/app.py:526-637 | no more output filters than input items |
| FilterService.FailurePersists | backend/app.py:507-653 | once an item raises, the whole reply falls back |
| FilterService.ProcessFilters | backend/app.py:524-640 | the loop succeeds iff `Processed` does, and then yields its filters and explanation |
| FilterService.Classify | backend/app.py:526-529 | definition: the `in` tests on a dictionary, a list, a text or another value, as keep, skip or raise; stated by `FilterService.StepOutcome` and `FilterService.ProcessedFails` |
| FilterService.Step | backend/app.py:526-637 | definition: one iteration of the loop; stated by `FilterService.StepOutcome` and `FilterService.StepRewrites` |
| FilterService.Processed | backend/app.py:524-640 | definition: the loop as a fold of `Step`; stated by `FilterService.ProcessedFilters`, `FilterService.ProcessedExplanation` and `FilterService.ProcessedFails`, and reached by `FilterService.ProcessFilters` |
| FilterService.ProcessedFilters | backend/app.py:526-640 | the filter list is the kept items, each normalised or rewritten on its own, in order |
| FilterService.StepOutcome | backend/app.py:526-637 | an item fails iff it raises, or is rewritten while the explanation is not text; otherwise the explanation changes only on a rewrite |
| FilterService.ProcessedExplanation | backend/app.py:561-630 | the explanation stays text iff it was text, only grows (the old text is a prefix), and is unchanged when nothing is rewritten |
| FilterService.StepRewrites | backend/app.py:544-630 | a rewritten item adds the filter `name contains <value>` and appends the rewrite's sentence to the explanation with `AppendSentence` |
| FilterService.ProcessedFails | backend/app.py:526-653 | the loop fails iff some item raises, or some item is rewritten while the explanation is not text |
| FilterService.Fallback | backend/app.py:647-653 | empty filters and an explanation naming the query |
| FilterService.Respond | backend/app.py:518-646 | a reply only for a dictionary with both fields, keeping every other field |
| FilterService.FilterReply | backend/app.py:506-653 | an undecodable reply gives the fallback; any other answer comes from a decoded dictionary with both fields |
| FilterService.MissingFieldsFallBack | backend/app.py:521-522 | a decoded reply without `filters` or `explanation` gives the fallback |
| FilterService.NonBlank | backend/app.py:284 | the kept lines are stripped and non-empty, and no more than the input |
| FilterService.NonBlankMembers | backend/app.py:284 | a text is kept iff it is non-empty and the `strip()` of some line |
| FilterService.NonBlankAppend | backend/app.py:284 | keeping the lines of two runs keeps each run's lines, in order |
| FilterService.NonBlankOne | backend/app.py:284 | one line gives its `strip()` when that is non-empty, else nothing |
| FilterService.SplitSources | backend/app.py:281-291 | no marker: the stripped text and no sources; with the marker first at k: the response is the stripped text before k and the sources are the non-blank stripped lines of the stripped text after the marker; the response never contains the marker; every source is a stripped non-empty single line |
| FilterService.Capitalize | backend/app.py:198 | same length; the first letter upper-cased and every other letter lower-cased |
| FilterService.CapitalizeIdempotent | backend/app.py:198 | capitalising twice is capitalising once |
| FilterService.DollarsReadBack | backend/app.py:200 | a dollar amount with separators reads back as its number |
| FilterService.AssessedValue | backend/app.py:200 | starts with `$`; its digits read back as `int(levels × 500000)` |
| FilterService.DefaultAssessedValue | backend/app.py:200 | three levels are assessed at `$1,500,000` |
| FilterService.GroupedMillionAndAHalf | backend/app.py:200 | 1500000 groups as `1,500,000` |
| FilterService.Zoning | backend/app.py:201 | `RC-G` iff the type lower-cases to `residential`, else `C-COR1` |
| FilterService.ZoningIgnoresCase | backend/app.py:201 | zoning ignores letter case |
| FilterService.SummaryFallback | backend/app.py:195-202 | fails iff `float` rejects the levels or the type is not text; otherwise zoning, assessed value and capitalised type as the record states |
| FilterService.CapitalizedFixed | backend/app.py:198 | `Commercial` and the like are left unchanged |
| FilterService.EmptyBuildingSummary | backend/app.py:195-202 | with neither levels nor type in the data, the record is sent and describes a three-storey commercial building worth $1,500,000 zoned `C-COR1` |
| LlmService.DailyCount | src/services/llmService.ts:43-63 | the stored count only when stored today, else 0 |
| LlmService.SavedStorage | src/services/llmService.ts:66-74 | a saved count reads back on the same day |
| LlmService.LoadedStorage | src/services/llmService.ts:43-85 | after loading, the storage holds today's count, unchanged if it already did |
| LlmService.LoadIdempotent | src/services/llmService.ts:43-63 | loading twice is loading once |
| LlmService.NewDayResets | src/services/llmService.ts:49-58 | a count saved on another day is read as 0 |
| LlmService.Pruned | src/services/llmService.ts:91-95 | a suffix of the window whose first stamp is at or after the cutoff; every dropped stamp is before it |
| LlmService.RecentOfSortedTail | src/services/llmService.ts:91-95 | in a sorted window starting at or after the cutoff, every stamp is recent |
| LlmService.PrunedSorted | src/services/llmService.ts:91-95 | on a sorted window, popping from the front keeps exactly the recent stamps |
| LlmService.PrunedIdempotent | src/services/llmService.ts:91-95 | pruning twice is pruning once |
| LlmService.AppendKeepsSorted | src/services/llmService.ts:109-111 | with a monotone clock the window stays sorted |
| LlmService.LimitMessage | src/services/llmService.ts:196-203 | the daily message iff the daily count has reached the daily limit, else the per-minute message |
| LlmService.BuildingId | src/services/llmService.ts:179-180 | never empty; the id's text when the id is set |
| LlmService.BuildingTypeText | src/services/llmService.ts:182 | never empty |
| LlmService.CacheKey | src/services/llmService.ts:183 | the id, a dash, then a non-empty type |
| LlmService.KeyIsNotId | src/services/llmService.ts:296 | the cache key always differs from the bare id |
| LlmService.Stored2 | src/services/llmService.ts:289-301 | definition: the entry stored under the key, and under the id when it differs; stated by `LlmService.StoredIsServed` and `LlmService.StoredLeavesOthers` |
| LlmService.Fresh | src/services/llmService.ts:187-190 | definition: present and younger than two hours; stated by `LlmService.StoredIsServed` and used by `LlmService.Client.GetBuildingSummary` |
| LlmService.FallbackSummary | src/services/llmService.ts:308-320 | fails iff the building value is not text; `RC-G` iff the type lower-cases to `residential`; `$1,500,000` without levels, else `$` and `Number(levels) × 500000`; the type or `Commercial` |
| LlmService.AssessedFromLevels | src/services/llmService.ts:314-316 | levels holding the digits of n give `$` and the digits of n × 500000, with no separators |
| LlmService.AssessedNaN | src/services/llmService.ts:314-316 | levels that are set but not a number give `$NaN` |
| LlmService.StoredIsServed | src/services/llmService.ts:289-334 | for two hours a stored summary is served under both the key and the id |
| LlmService.StoredLeavesOthers | src/services/llmService.ts:289-301 | storing a summary leaves every other key unchanged |
| LlmService.PreloadTargets | src/services/llmService.ts:443-466 | at most five; of the first five buildings, exactly those whose key is not in the cache |
| LlmService.Uncached | src/services/llmService.ts:463-466 | exactly the buildings whose key is not in the cache |
| LlmService.ExpiredEntryBlocksPreload | src/services/llmService.ts:464 | any cache entry, even an expired one, stops a preload |
| LlmService.Client.constructor | src/services/llmService.ts:6-31 | empty window and cache |
| LlmService.Client.LoadDailyRequestCount | src/services/llmService.ts:43-63 | returns the daily count and leaves the storage loaded |
| LlmService.Client.PruneWindow | src/services/llmService.ts:91-95 | the window becomes `Pruned` |
| LlmService.Client.CheckRateLimit | src/services/llmService.ts:88-106 | allows iff fewer than 10 recent stamps and a daily count below 100 |
| LlmService.Client.TrackRequest | src/services/llmService.ts:109-120 | appends now to the window and stores today's count plus one |
| LlmService.Client.GetApiUsageStats | src/services/llmService.ts:123-142 | prunes the window and reports its size, the daily count and both limits |
| LlmService.Client.IsBuildingSummaryCached | src/services/llmService.ts:431-440 | definition: `Fresh` on the client's cache; `LlmService.StoredIsServed` states when it holds |
| LlmService.Client.PreloadSelection | src/services/llmService.ts:443-466 | at most five; of the first five buildings, exactly those whose key is not in the client's cache |
| LlmService.Client.GatedRequest | src/services/llmService.ts:353-429 | refused with the limit message without tracking, or tracked and answered with the reply or the fallback |
| LlmService.Client.SendQuery | src/services/llmService.ts:353-391 | refused iff over a limit, then with the limit's message, the pruned window and the loaded storage; otherwise the reply or the query fallback, now appended to the pruned window and today's count plus one stored; the cache unchanged |
| LlmService.Client.QueryBuildings | src/services/llmService.ts:394-429 | refused iff over a limit, then with the limit's message, the pruned window and the loaded storage; otherwise the reply or the filter fallback, now appended to the pruned window and today's count plus one stored; the cache unchanged |
| LlmService.Client.GetBuildingSummary | src/services/llmService.ts:175-338 | a fresh cached summary is returned first with nothing else changed; then the limit error, with the pruned window and the loaded storage; otherwise tracked, and the reply or fallback is stored under key and id |
| Overpass.HourlyCount | src/services/overpassService.ts:14-34 | 0 unless the stored hour is this hour |
| Overpass.SavedCounter | src/services/overpassService.ts:37-45 | a saved count reads back in the same hour |
| Overpass.LoadedCounter | src/services/overpassService.ts:14-56 | after loading, the counter holds this hour's count, unchanged if it already did |
| Overpass.NewHourResets | src/services/overpassService.ts:20-30 | a count saved in another hour is read as 0 |
| Overpass.TrackTwice | src/services/overpassService.ts:66-73 | two requests tracked in one hour add two |
| Overpass.KeysDistinct | src/services/overpassService.ts:9-10 | buildings and roads are cached under different keys |
| Overpass.Lookup | src/services/overpassService.ts:87-109 | a value iff an entry exists and is less than 24 hours old, and then the stored data |
| Overpass.Put | src/services/overpassService.ts:112-128 | adds the kind's key and leaves every other key unchanged |
| Overpass.CachedIsServed | src/services/overpassService.ts:87-128 | data cached less than a day ago is served back |
| Overpass.CachedExpires | src/services/overpassService.ts:98 | data cached a day or more ago is not served |
| Overpass.CachingIsPerKind | src/services/overpassService.ts:89-118 | caching one kind leaves what the other kind serves unchanged |
| Overpass.Service.constructor | src/services/overpassService.ts:14-128 | the service starts from the given storage |
| Overpass.Service.LoadHourlyRequestCount | src/services/overpassService.ts:14-34 | returns the hourly count and leaves the counter loaded |
| Overpass.Service.CheckOverpassRateLimit | src/services/overpassService.ts:59-63 | always allows, after reloading the counter |
| Overpass.Service.TrackOverpassRequest | src/services/overpassService.ts:66-73 | stores this hour's count plus one |
| Overpass.Service.GetOverpassUsageStats | src/services/overpassService.ts:76-84 | the hourly count and the limit 999999 |
| Overpass.Service.GetCachedOverpassData | src/services/overpassService.ts:87-109 | the kind's data iff it was cached less than a day ago |
| Overpass.Service.CacheOverpassData | src/services/overpassService.ts:112-128 | the cache becomes `Put` of the data at now |
| Roads.Coords | src/components/Roads.tsx:70 | one entry per node ref, `None` for a missing node |
| Roads.CollectRoads | src/components/Roads.tsx:67-78 | collects exactly `RoadWays` |
| Roads.RoadWaysSound | src/components/Roads.tsx:68-78 | every road comes from a kept way, with a highway tag and at least two entries |
| Roads.RoadWaysComplete | src/components/Roads.tsx:68-78 | every kept way gives a road |
| Roads.RoadWays | src/components/Roads.tsx:67-78 | definition: the kept road ways; stated by `Roads.RoadWaysSound`, `Roads.RoadWaysComplete` and reached by `Roads.CollectRoads` |
| Roads.Width | src/components/Roads.tsx:90-101 | one of the five widths |
| Roads.Colour | src/components/Roads.tsx:104-115 | one of the five colours |
| Roads.WiderIsLighter | src/components/Roads.tsx:90-115 | width and colour partition road types the same way: wider iff lighter, equal iff equal |
| Roads.CenterLineOnWideRoads | src/components/Roads.tsx:170 | a centre line iff the road is at least 3 wide; tertiary has none |
| Roads.OutLines | src/components/Roads.tsx:120-138 | one line per outward segment |
| Roads.BackLines | src/components/Roads.tsx:140-151 | one line per backward segment |
| Roads.Outline | src/components/Roads.tsx:118-153 | for n ≥ 2 points, 2n commands: a move, lines only, then a close; fewer points leave only the close |
| Roads.RoadOutline | src/components/Roads.tsx:118-153 | the two loops build `Outline` |
| Roads.OutlineCentred | src/components/Roads.tsx:125-145 | the outward and backward points at a vertex are centred on it |
| Roads.OutlineWidth | src/components/Roads.tsx:125-145 | for a unit direction, those two points are one road width apart |
| Roads.RoadUserData | src/components/Roads.tsx:194-219 | the tags plus `type` = `road` and `roadType` = the highway value |
| Roads.RoadShape | src/components/Roads.tsx:85-219 | the outline has two commands per point and a centre line iff the road is wide |
| Roads.RoadFor | src/components/Roads.tsx:85-221 | definition: outline, colour, centre line and userData of one road; stated by `Roads.RoadShape` and `Roads.RoadUserData` |
| Roads.MakeRoad | src/components/Roads.tsx:85-221 | the road built for the projected points |
| Roads.Rings | src/components/Roads.tsx:81-83 | one ring per road |
| Roads.ResolveAll | src/components/Roads.tsx:81-87 | the rings iff no node is missing |
| Roads.BuildRoads | src/components/Roads.tsx:85-222 | one road per way, each built from its projected ring |
| Roads.ProcessRoads | src/components/Roads.tsx:54-228 | roads iff no node is missing; then one road per kept way, projected about the centre of all rings |
| Roads.FetchRoads | src/components/Roads.tsx:11-51 | a fresh cached answer is used with nothing changed; otherwise the request is counted and the answer cached; either way the roads are those of the answer: present iff no node is missing, one per kept way, each projected about the centre of all rings |
| MockApi.DispatchIsFirstMatch | src/mocks/api.ts:28-58 | the answer's topic is the first rule whose keyword occurs in the lower-cased query |
| MockApi.TopicOf | src/mocks/api.ts:28-58 | definition: the keyword checks in order; stated by `MockApi.DispatchIsFirstMatch` and `MockApi.TopicIgnoresCase` |
| MockApi.TopicIgnoresCase | src/mocks/api.ts:30 | dispatch ignores letter case |
| MockApi.Sources | src/mocks/api.ts:34-52 | every keyword answer has sources |
| MockApi.MockQueryResponse | src/mocks/api.ts:28-58 | sources iff a keyword matched |
| MockApi.UnknownQuestionEchoed | src/mocks/api.ts:53-57 | the default answer quotes the query and has no sources |
| MockApi.JsCapitalize | src/mocks/api.ts:18 | same length; the first letter upper-cased, the rest unchanged |
| MockApi.JsCapitalizeIdempotent | src/mocks/api.ts:18 | capitalising twice is capitalising once |
| MockApi.MockSummary | src/mocks/api.ts:4-25 | fails iff the building type is not text; `RC-G` iff it lower-cases to `residential`; the capitalised type |
| MockApi.MockBuildingSummary | src/mocks/api.ts:4-25 | definition: `getMockBuildingSummary` on a building's tags; stated through `MockApi.MockSummary` and `MockApi.MockAssessedReadsBack` |
| MockApi.AssessedLineReadsBack | src/mocks/api.ts:22 | the assessed value's digits read back as levels × 500000 |
| MockApi.MockAssessedReadsBack | src/mocks/api.ts:6-22 | the summary's assessed value reads back as the parsed levels × 500000 |
| MockApi.DefaultCost | src/mocks/api.ts:17 | three levels cost `7.5` |
| MockApi.DefaultAssessed | src/mocks/api.ts:22 | three levels are assessed at `1,500,000` |
| MockApi.DefaultLevels | src/mocks/api.ts:6 | without a levels tag the levels are 3 |
| MockApi.UntaggedMockSummary | src/mocks/api.ts:4-25 | without type or levels: `Commercial`, `C-COR1`, cost 7.5, assessed 1,500,000 |
| MockApi.CommercialCapitalized | src/mocks/api.ts:5-18 | the default type capitalises to `Commercial` |

## Left out

- Rendering is left out: three.js meshes, materials, extrusion, rotation, the ground and the lighting. A shape is its list of path commands and a collision is the overlap of two given boxes.
- The per-frame highlight and colour interpolation (src/components/Buildings.tsx:170-231), the `Math.random` colour jitter and the height tint are left out; only the colour family and metalness are modelled.
- Network and model calls are inputs: the Overpass fetches, the Gemini calls, Flask routing and the HTTP 500 error replies. The reply text or its failure is a parameter.
- `json.loads` is a decoding function passed in. The `eval` fallback in the summary route (backend/app.py:188) is left out.
- Local storage is a field. Its exceptions are left out, including the `catch` branches that return 0. The cached Overpass answers are values, not JSON text.
- `Date.now()`, `toDateString()` and `getHours()` are parameters.
- Async scheduling is left out: `Promise.all` in the preload is modelled as the selection of buildings it requests.
- Floating point is left out: numbers are exact decimals and reals, so rounding, overflow, `Infinity` and `-0` are not modelled.
- Numbers.ParseFloat: `Infinity`, hexadecimal and binary forms, and Python's `inf`, `nan` and digit underscores are not recognised by any of the parsers.
- Text.Lower: case mapping and whitespace are ASCII only; non-ASCII letters and spaces are treated as other characters.
- Text.IsSpace: whitespace is space, tab, line feed, carriage return, vertical tab and form feed. Python's `strip` also removes `\x1c`–`\x1f`, and both `strip` and `trim` remove non-ASCII spaces; those are not modelled.
- Numbers.JsNumberText: numbers are always printed positionally. The exponent forms that `String(n)` uses from 1e21 on and Python's `repr` uses from 1e16 on (`1e+21`) are not modelled.
- BackendModel.FieldNamed: `getattr(self, name, None)` also returns the class's methods and attributes (`to_dict`, `__doc__`, `__module__`, ...). The model gives `None` for every name that is not a field, so a filter such as `__doc__ contains building` is false here and true in Python.
- LlmService.QueryFallback: the fallback answer carries an empty `sources` list, while the source's fallback object has no `sources` field.
- Buildings.BuildingLayer.AddBuilding: each mesh's box is taken before the nudge, while three.js reads the nudged position of earlier meshes. The two differ only by the 0.1 nudge in height.
- Buildings: a building way with a missing node is kept with `undefined` in its outline, and `calculateCenter` then throws, losing the whole batch. The model resolves each way on its own (`Buildings.ResolveLength`) and does not model the batch failure for buildings.
- Buildings.LexCompare: `localeCompare` is modelled as code-unit order, not the locale's collation.
- Buildings.SortIndices: `Array.prototype.sort` is modelled by a stable insertion sort. Only neighbouring order is promised, because the comparator mixes numeric and text order and is not transitive in general. A fully ordered result is proved when every value is a number.
- Geometry.NormalizeCoordinates: `Math.cos(centre latitude)` is the parameter `cosLat`, not computed.
- Geometry.CalculateCenter: features are given as their first rings; the feature wrapper objects are not modelled.
- `calculateElevation` is not evaluated: every mesh sits at the origin, where it is 0 (`Geometry.OriginElevation`).
- Roads.RoadOutline: `normalize()` is the function parameter `direction`; the square root is not computed.
- Roads.FetchRoads: the rate-limit failure branch (src/components/Roads.tsx:21-25) cannot be taken, because the gate always allows.
- Roads: the centre-line height 0.06, line material and mesh rotation are rendering. The road-name branch (src/components/Roads.tsx:210-212) is empty.
- MockApi.MockSummary: `toFixed` and `toLocaleString` are modelled for whole levels in the default locale, with comma grouping. The summary sentence's `name` is unused in the source and so is absent.
- MockApi.JsCapitalize: `toUpperCase` is ASCII only.
- The `handlers.ts` delayed dispatcher and the type declarations in `src/types/index.ts` are not part of this model.

## Notes on the code's behaviour

- The browser sorts descending for any `sortOrder` other than `asc`, and ascending when it is absent.
- A NaN height passes both clamp tests, so the [4, 800] bound holds only for heights that parse as numbers.
- `building:levels` falls back to `levels` when its value is falsy, not only when it is missing.
- With no points at all, `calculateCenter` returns NaN.
- Every mesh is placed at the origin before `calculateElevation` is read, so the elevation term is always 0.
- A way with a missing node leaves `undefined` in its coordinates. Destructuring that entry in `calculateCenter` (src/utils/geometry.ts:43) throws before any projection, and the whole batch of buildings or roads is lost. For roads the model returns `None` for the batch (`Roads.ProcessRoads`); for buildings the batch failure is not modelled.
- The browser's fallback summary writes the assessed value as `$` followed by `Number(levels) × 500000` with no thousands separators. The server's fallback and the mock group the digits with commas.
