/** The translation of a search request into the WHERE clauses and bound
    parameters of a SQL query, shared by `/api/chair/search` and
    `/api/estate/search` (webapp/nodejs/app.js). Clauses are kept as a datatype;
    `ClauseSql` gives the exact text each one contributes to the query. */
module Search {
  import opened Common
  import opened Text

  /** One entry of a search-condition fixture: a half-open range
      `min <= v < max`, where `-1` on either side means "no bound". */
  datatype Range = Range(min: int, max: int)

  const NoBound: int := -1

  /** A fixture's `ranges`, looked up by the range id the client sends. */
  type RangeTable = map<string, Range>

  /** The contents of fixture/chair_condition.json that the handler reads. */
  datatype ChairConditions = ChairConditions(
    price: RangeTable, height: RangeTable, width: RangeTable, depth: RangeTable)

  /** The contents of fixture/estate_condition.json that the handler reads. */
  datatype EstateConditions = EstateConditions(
    doorHeight: RangeTable, doorWidth: RangeTable, rent: RangeTable)

  /** The query string of `/api/chair/search`; a parameter the client did not send is None. */
  datatype ChairQuery = ChairQuery(
    priceRangeId: Option<string>, heightRangeId: Option<string>,
    widthRangeId: Option<string>, depthRangeId: Option<string>,
    kind: Option<string>, color: Option<string>, features: Option<string>,
    page: Option<string>, perPage: Option<string>)

  /** The query string of `/api/estate/search`. */
  datatype EstateQuery = EstateQuery(
    doorHeightRangeId: Option<string>, doorWidthRangeId: Option<string>,
    rentRangeId: Option<string>, features: Option<string>,
    page: Option<string>, perPage: Option<string>)

  datatype Column = Price | Height | Width | Depth | DoorHeight | DoorWidth | Rent

  /** One condition of the WHERE conjunction. Every clause but InStock carries
      one `?` placeholder. */
  datatype Clause = AtLeast(column: Column) | Below(column: Column) | KindIs | ColorIs | HasFeature | InStock

  /** A value bound to a placeholder. */
  datatype Param = Num(n: int) | Str(s: string)

  /** The handler's answer: a 400 with its message, or the query it runs. In an
      Ok, `params` ends with the LIMIT and OFFSET values; the COUNT query binds
      the rest (see CountParams). */
  datatype Response = BadRequest(message: string) | Ok(clauses: seq<Clause>, params: seq<Param>)

  /** What one filter block of a handler produces: a 400, or clauses and parameters to push. */
  datatype Step = Fail(message: string) | Emit(clauses: seq<Clause>, params: seq<Param>)

  const PriceInvalid := "priceRangeID invalid"
  const HeightInvalid := "heightRangeId invalid"
  const WidthInvalid := "widthRangeId invalid"
  const DepthInvalid := "depthRangeId invalid"
  const DoorHeightInvalid := "doorHeightRangeId invalid"
  const DoorWidthInvalid := "doorWidthRangeId invalid"
  const RentInvalid := "rentRangeId invalid"
  const NoCondition := "Search condition not found"
  const PerPageInvalid := "perPage condition invalid"

  /** The page message interpolates the raw parameter; an absent one prints as `undefined`. */
  function PageInvalid(page: Option<string>): string
  {
    "page condition invalid " + (if page.Some? then page.value else "undefined")
  }

  /** JavaScript truthiness of a query parameter (`!!x`): sent and non-empty. */
  predicate Present(o: Option<string>)
  {
    o.Some? && o.value != ""
  }

  /** A range id that is sent but has no entry in its table. */
  predicate Unknown(id: Option<string>, table: RangeTable)
  {
    Present(id) && id.value !in table
  }

  /** `page`/`perPage` pass the handler's `!x || x != +x` test. */
  predicate ValidNumber(o: Option<string>)
  {
    o.Some? && IsNumeric(o.value)
  }

  // ---------------------------------------------------------------------------
  // The filter blocks and their composition

  /** One `if (!!xRangeId) { ... }` block: an unknown id is a 400; a known one
      pushes `col >= min` unless min is -1, then `col < max` unless max is -1. */
  function RangeFilter(column: Column, table: RangeTable, id: Option<string>, message: string): Step
  {
    if !Present(id) then Emit([], [])
    else if id.value !in table then Fail(message)
    else
      var r := table[id.value];
      var lower := if r.min != NoBound then Emit([AtLeast(column)], [Num(r.min)]) else Emit([], []);
      var upper := if r.max != NoBound then Emit([Below(column)], [Num(r.max)]) else Emit([], []);
      Then(lower, upper)
  }

  /** The `kind`/`color` blocks: an equality test when the parameter is present. */
  function EqualsFilter(clause: Clause, value: Option<string>): Step
  {
    if Present(value) then Emit([clause], [Str(value.value)]) else Emit([], [])
  }

  /** The `features` block: one LIKE clause per piece of `features.split(",")`. */
  function FeatureFilter(features: Option<string>): Step
  {
    if Present(features) then FeatureClauses(Split(features.value, ',')) else Emit([], [])
  }

  function FeatureClauses(pieces: seq<string>): Step
  {
    if pieces == [] then Emit([], [])
    else Then(Emit([HasFeature], [Str(pieces[0])]), FeatureClauses(pieces[1..]))
  }

  /** Running one block after another: the first 400 ends the handler, otherwise
      both blocks' pushes accumulate in order. */
  function Then(first: Step, next: Step): Step
  {
    match first
    case Fail(m) => Fail(m)
    case Emit(c1, p1) =>
      match next
      case Fail(m) => Fail(m)
      case Emit(c2, p2) => Emit(c1 + c2, p1 + p2)
  }

  /** What follows the filter blocks: the empty-condition check, the chair
      handler's `stock > 0`, the page and perPage checks, and the LIMIT/OFFSET
      parameters `perPage, perPage * page`. */
  function Paginate(filters: Step, withStock: bool, page: Option<string>, perPage: Option<string>): Response
  {
    match filters
    case Fail(m) => BadRequest(m)
    case Emit(cs, ps) =>
      if cs == [] then BadRequest(NoCondition)
      else if !ValidNumber(page) then BadRequest(PageInvalid(page))
      else if !ValidNumber(perPage) then BadRequest(PerPageInvalid)
      else
        var perPageNum := ParseInt(perPage.value);
        var pageNum := ParseInt(page.value);
        Ok(if withStock then cs + [InStock] else cs, ps + [Num(perPageNum), Num(perPageNum * pageNum)])
  }

  /** The blocks of the chair handler in the order they run. */
  function ChairFilters(q: ChairQuery, t: ChairConditions): Step
  {
    var price := RangeFilter(Price, t.price, q.priceRangeId, PriceInvalid);
    var height := Then(price, RangeFilter(Height, t.height, q.heightRangeId, HeightInvalid));
    var width := Then(height, RangeFilter(Width, t.width, q.widthRangeId, WidthInvalid));
    var depth := Then(width, RangeFilter(Depth, t.depth, q.depthRangeId, DepthInvalid));
    var kind := Then(depth, EqualsFilter(KindIs, q.kind));
    var color := Then(kind, EqualsFilter(ColorIs, q.color));
    Then(color, FeatureFilter(q.features))
  }

  /** `/api/chair/search` up to the database calls. */
  function ChairSearch(q: ChairQuery, t: ChairConditions): Response
  {
    Paginate(ChairFilters(q, t), true, q.page, q.perPage)
  }

  /** The blocks of the estate handler in the order they run. */
  function EstateFilters(q: EstateQuery, t: EstateConditions): Step
  {
    var doorHeight := RangeFilter(DoorHeight, t.doorHeight, q.doorHeightRangeId, DoorHeightInvalid);
    var doorWidth := Then(doorHeight, RangeFilter(DoorWidth, t.doorWidth, q.doorWidthRangeId, DoorWidthInvalid));
    var rent := Then(doorWidth, RangeFilter(Rent, t.rent, q.rentRangeId, RentInvalid));
    Then(rent, FeatureFilter(q.features))
  }

  /** `/api/estate/search` up to the database calls. */
  function EstateSearch(q: EstateQuery, t: EstateConditions): Response
  {
    Paginate(EstateFilters(q, t), false, q.page, q.perPage)
  }

  /** The parameters of the COUNT query: all but LIMIT and OFFSET. */
  function CountParams(r: Response): seq<Param>
    requires r.Ok? && |r.params| >= 2
  {
    r.params[..|r.params| - 2]
  }

  // ---------------------------------------------------------------------------
  // Alignment of clauses and parameters

  /** Which kind of value a clause's placeholder takes; InStock takes none. */
  predicate Binds(c: Clause, p: Param)
  {
    match c
    case AtLeast(_) => p.Num?
    case Below(_) => p.Num?
    case KindIs => p.Str?
    case ColorIs => p.Str?
    case HasFeature => p.Str?
    case InStock => false
  }

  /** Each clause was pushed together with exactly its own parameter. */
  predicate Aligned(cs: seq<Clause>, ps: seq<Param>)
  {
    |cs| == |ps| && forall i :: 0 <= i < |cs| ==> Binds(cs[i], ps[i])
  }

  predicate StepAligned(s: Step)
  {
    s.Emit? ==> Aligned(s.clauses, s.params)
  }

  lemma AlignedAppend(c1: seq<Clause>, p1: seq<Param>, c2: seq<Clause>, p2: seq<Param>)
    requires Aligned(c1, p1) && Aligned(c2, p2)
    ensures Aligned(c1 + c2, p1 + p2)
  {
    forall i | 0 <= i < |c1 + c2|
      ensures Binds((c1 + c2)[i], (p1 + p2)[i])
    {
      if i >= |c1| {
        assert (c1 + c2)[i] == c2[i - |c1|] && (p1 + p2)[i] == p2[i - |p1|];
      }
    }
  }

  lemma {:induction false} FeatureClausesAligned(pieces: seq<string>)
    ensures FeatureClauses(pieces).Emit?
    ensures Aligned(FeatureClauses(pieces).clauses, FeatureClauses(pieces).params)
  {
    if pieces != [] {
      FeatureClausesAligned(pieces[1..]);
      var rest := FeatureClauses(pieces[1..]);
      AlignedAppend([HasFeature], [Str(pieces[0])], rest.clauses, rest.params);
    }
  }

  lemma RangeFilterAligned(column: Column, table: RangeTable, id: Option<string>, message: string)
    ensures StepAligned(RangeFilter(column, table, id, message))
  {
    if Present(id) && id.value in table {
      var r := table[id.value];
      var lower := if r.min != NoBound then Emit([AtLeast(column)], [Num(r.min)]) else Emit([], []);
      var upper := if r.max != NoBound then Emit([Below(column)], [Num(r.max)]) else Emit([], []);
      AlignedAppend(lower.clauses, lower.params, upper.clauses, upper.params);
    }
  }

  lemma ThenAligned(a: Step, b: Step)
    requires StepAligned(a) && StepAligned(b)
    ensures StepAligned(Then(a, b))
  {
    if a.Emit? && b.Emit? {
      AlignedAppend(a.clauses, a.params, b.clauses, b.params);
    }
  }

  lemma FeatureFilterAligned(features: Option<string>)
    ensures StepAligned(FeatureFilter(features))
  {
    if Present(features) {
      FeatureClausesAligned(Split(features.value, ','));
    }
  }

  /** Every filter block of the chair handler pushes each clause with exactly
      one parameter of the kind its placeholder takes. */
  lemma ChairFiltersAligned(q: ChairQuery, t: ChairConditions)
    ensures StepAligned(ChairFilters(q, t))
  {
    var price := RangeFilter(Price, t.price, q.priceRangeId, PriceInvalid);
    RangeFilterAligned(Price, t.price, q.priceRangeId, PriceInvalid);
    RangeFilterAligned(Height, t.height, q.heightRangeId, HeightInvalid);
    ThenAligned(price, RangeFilter(Height, t.height, q.heightRangeId, HeightInvalid));
    var height := Then(price, RangeFilter(Height, t.height, q.heightRangeId, HeightInvalid));
    RangeFilterAligned(Width, t.width, q.widthRangeId, WidthInvalid);
    ThenAligned(height, RangeFilter(Width, t.width, q.widthRangeId, WidthInvalid));
    var width := Then(height, RangeFilter(Width, t.width, q.widthRangeId, WidthInvalid));
    RangeFilterAligned(Depth, t.depth, q.depthRangeId, DepthInvalid);
    ThenAligned(width, RangeFilter(Depth, t.depth, q.depthRangeId, DepthInvalid));
    var depth := Then(width, RangeFilter(Depth, t.depth, q.depthRangeId, DepthInvalid));
    ThenAligned(depth, EqualsFilter(KindIs, q.kind));
    var kind := Then(depth, EqualsFilter(KindIs, q.kind));
    ThenAligned(kind, EqualsFilter(ColorIs, q.color));
    var color := Then(kind, EqualsFilter(ColorIs, q.color));
    FeatureFilterAligned(q.features);
    ThenAligned(color, FeatureFilter(q.features));
  }

  /** The same for the estate handler. */
  lemma EstateFiltersAligned(q: EstateQuery, t: EstateConditions)
    ensures StepAligned(EstateFilters(q, t))
  {
    var doorHeight := RangeFilter(DoorHeight, t.doorHeight, q.doorHeightRangeId, DoorHeightInvalid);
    RangeFilterAligned(DoorHeight, t.doorHeight, q.doorHeightRangeId, DoorHeightInvalid);
    RangeFilterAligned(DoorWidth, t.doorWidth, q.doorWidthRangeId, DoorWidthInvalid);
    ThenAligned(doorHeight, RangeFilter(DoorWidth, t.doorWidth, q.doorWidthRangeId, DoorWidthInvalid));
    var doorWidth := Then(doorHeight, RangeFilter(DoorWidth, t.doorWidth, q.doorWidthRangeId, DoorWidthInvalid));
    RangeFilterAligned(Rent, t.rent, q.rentRangeId, RentInvalid);
    ThenAligned(doorWidth, RangeFilter(Rent, t.rent, q.rentRangeId, RentInvalid));
    var rent := Then(doorWidth, RangeFilter(Rent, t.rent, q.rentRangeId, RentInvalid));
    FeatureFilterAligned(q.features);
    ThenAligned(rent, FeatureFilter(q.features));
  }

  /** Shape of an accepted request: the filter clauses with their parameters
      aligned one to one, the chair handler's `stock > 0` last and without a
      parameter, and exactly `perPage, perPage * page` appended. */
  lemma PaginateShape(filters: Step, withStock: bool, page: Option<string>, perPage: Option<string>)
    requires StepAligned(filters)
    ensures var r := Paginate(filters, withStock, page, perPage);
      r.Ok? <==> filters.Emit? && filters.clauses != [] && ValidNumber(page) && ValidNumber(perPage)
    ensures var r := Paginate(filters, withStock, page, perPage);
      r.Ok? ==>
        && |r.params| >= 2
        && var filterCount := |r.params| - 2;
        && r.params[filterCount..] == [Num(ParseInt(perPage.value)), Num(ParseInt(perPage.value) * ParseInt(page.value))]
        && CountParams(r) == filters.params
        && (withStock ==> |r.clauses| == filterCount + 1 && r.clauses[filterCount] == InStock)
        && (!withStock ==> |r.clauses| == filterCount)
        && Aligned(r.clauses[..filterCount], CountParams(r))
        && r.clauses[..filterCount] == filters.clauses
  {
  }

  // ---------------------------------------------------------------------------
  // Error ordering

  /** Whether a range filter pushes anything: a known id whose range is not
      `-1` on both sides. */
  predicate RangeContributes(id: Option<string>, table: RangeTable)
  {
    Present(id) && id.value in table && (table[id.value].min != NoBound || table[id.value].max != NoBound)
  }

  /** Some filter of a chair request yields a clause. `stock > 0` is not a filter. */
  predicate ChairHasCondition(q: ChairQuery, t: ChairConditions)
  {
    RangeContributes(q.priceRangeId, t.price) || RangeContributes(q.heightRangeId, t.height)
    || RangeContributes(q.widthRangeId, t.width) || RangeContributes(q.depthRangeId, t.depth)
    || Present(q.kind) || Present(q.color) || Present(q.features)
  }

  predicate EstateHasCondition(q: EstateQuery, t: EstateConditions)
  {
    RangeContributes(q.doorHeightRangeId, t.doorHeight) || RangeContributes(q.doorWidthRangeId, t.doorWidth)
    || RangeContributes(q.rentRangeId, t.rent) || Present(q.features)
  }

  lemma RangeFilterOutcome(column: Column, table: RangeTable, id: Option<string>, message: string)
    ensures RangeFilter(column, table, id, message).Fail? <==> Unknown(id, table)
    ensures Unknown(id, table) ==> RangeFilter(column, table, id, message) == Fail(message)
    ensures !Unknown(id, table) ==>
      (RangeFilter(column, table, id, message).clauses != [] <==> RangeContributes(id, table))
  {
  }

  lemma {:induction false} FeatureClausesNonEmpty(pieces: seq<string>)
    ensures FeatureClauses(pieces).Emit?
    ensures |FeatureClauses(pieces).clauses| == |pieces|
  {
    if pieces != [] {
      FeatureClausesNonEmpty(pieces[1..]);
    }
  }

  lemma FeatureFilterOutcome(features: Option<string>)
    ensures FeatureFilter(features).Emit?
    ensures FeatureFilter(features).clauses != [] <==> Present(features)
  {
    if Present(features) {
      FeatureClausesNonEmpty(Split(features.value, ','));
    }
  }

  /** The chair handler's decision, in the order its checks run: the first
      unknown range id among price, height, width, depth gives that filter's
      own message; then a request with no filter clause is rejected (the
      `stock > 0` clause does not count); then page, then perPage. */
  lemma ChairSearchOutcome(q: ChairQuery, t: ChairConditions)
    ensures var r := ChairSearch(q, t);
      r == (if Unknown(q.priceRangeId, t.price) then BadRequest(PriceInvalid)
       else if Unknown(q.heightRangeId, t.height) then BadRequest(HeightInvalid)
       else if Unknown(q.widthRangeId, t.width) then BadRequest(WidthInvalid)
       else if Unknown(q.depthRangeId, t.depth) then BadRequest(DepthInvalid)
       else if !ChairHasCondition(q, t) then BadRequest(NoCondition)
       else if !ValidNumber(q.page) then BadRequest(PageInvalid(q.page))
       else if !ValidNumber(q.perPage) then BadRequest(PerPageInvalid)
       else r)
    ensures ChairSearch(q, t).Ok? <==>
      !Unknown(q.priceRangeId, t.price) && !Unknown(q.heightRangeId, t.height)
      && !Unknown(q.widthRangeId, t.width) && !Unknown(q.depthRangeId, t.depth)
      && ChairHasCondition(q, t) && ValidNumber(q.page) && ValidNumber(q.perPage)
  {
    RangeFilterOutcome(Price, t.price, q.priceRangeId, PriceInvalid);
    RangeFilterOutcome(Height, t.height, q.heightRangeId, HeightInvalid);
    RangeFilterOutcome(Width, t.width, q.widthRangeId, WidthInvalid);
    RangeFilterOutcome(Depth, t.depth, q.depthRangeId, DepthInvalid);
    FeatureFilterOutcome(q.features);
  }

  /** The estate handler's decision: doorHeight, doorWidth, rent in that
      order, then the empty-condition check, then page, then perPage. */
  lemma EstateSearchOutcome(q: EstateQuery, t: EstateConditions)
    ensures var r := EstateSearch(q, t);
      r == (if Unknown(q.doorHeightRangeId, t.doorHeight) then BadRequest(DoorHeightInvalid)
       else if Unknown(q.doorWidthRangeId, t.doorWidth) then BadRequest(DoorWidthInvalid)
       else if Unknown(q.rentRangeId, t.rent) then BadRequest(RentInvalid)
       else if !EstateHasCondition(q, t) then BadRequest(NoCondition)
       else if !ValidNumber(q.page) then BadRequest(PageInvalid(q.page))
       else if !ValidNumber(q.perPage) then BadRequest(PerPageInvalid)
       else r)
    ensures EstateSearch(q, t).Ok? <==>
      !Unknown(q.doorHeightRangeId, t.doorHeight) && !Unknown(q.doorWidthRangeId, t.doorWidth)
      && !Unknown(q.rentRangeId, t.rent)
      && EstateHasCondition(q, t) && ValidNumber(q.page) && ValidNumber(q.perPage)
  {
    RangeFilterOutcome(DoorHeight, t.doorHeight, q.doorHeightRangeId, DoorHeightInvalid);
    RangeFilterOutcome(DoorWidth, t.doorWidth, q.doorWidthRangeId, DoorWidthInvalid);
    RangeFilterOutcome(Rent, t.rent, q.rentRangeId, RentInvalid);
    FeatureFilterOutcome(q.features);
  }

  /** An accepted chair request: its filter clauses and the COUNT query's
      parameters are aligned one to one, `stock > 0` comes last with no
      parameter (so there is one parameter fewer than clauses), and the SELECT
      binds exactly `perPage, perPage * page` after them: LIMIT perPage OFFSET
      perPage * page, a zero-based page. */
  lemma ChairSearchShape(q: ChairQuery, t: ChairConditions)
    ensures var r := ChairSearch(q, t);
      r.Ok? ==>
        && |r.params| >= 2 && |r.clauses| == |r.params| - 1
        && r.clauses[|r.clauses| - 1] == InStock
        && Aligned(r.clauses[..|r.clauses| - 1], CountParams(r))
        && r.params[|r.params| - 2..] == [Num(ParseInt(q.perPage.value)), Num(ParseInt(q.perPage.value) * ParseInt(q.page.value))]
  {
    ChairFiltersAligned(q, t);
    PaginateShape(ChairFilters(q, t), true, q.page, q.perPage);
  }

  /** An accepted estate request: as many parameters as clauses before the
      LIMIT and OFFSET values, aligned one to one. */
  lemma EstateSearchShape(q: EstateQuery, t: EstateConditions)
    ensures var r := EstateSearch(q, t);
      r.Ok? ==>
        && |r.params| >= 2 && |r.clauses| == |r.params| - 2
        && Aligned(r.clauses, CountParams(r))
        && r.params[|r.params| - 2..] == [Num(ParseInt(q.perPage.value)), Num(ParseInt(q.perPage.value) * ParseInt(q.page.value))]
  {
    EstateFiltersAligned(q, t);
    PaginateShape(EstateFilters(q, t), false, q.page, q.perPage);
  }


  // ---------------------------------------------------------------------------
  // What the WHERE conjunction selects

  /** A listing row as the WHERE clause sees it. */
  datatype Row = Row(measure: Column -> int, kind: string, color: string, features: string, stock: int)

  /** `text LIKE CONCAT('%', piece, '%')`, the piece taken literally. */
  predicate Contains(text: string, piece: string)
    decreases |text|
  {
    piece <= text || (text != [] && Contains(text[1..], piece))
  }

  /** One clause with its bound value, evaluated on a row. */
  predicate Holds(c: Clause, p: Param, row: Row)
  {
    match c
    case AtLeast(col) => p.Num? && row.measure(col) >= p.n
    case Below(col) => p.Num? && row.measure(col) < p.n
    case KindIs => p.Str? && row.kind == p.s
    case ColorIs => p.Str? && row.color == p.s
    case HasFeature => p.Str? && Contains(row.features, p.s)
    case InStock => row.stock > 0
  }

  /** The WHERE conjunction evaluated on a row, the placeholders bound to the
      parameters from left to right; `stock > 0` consumes none. */
  predicate Satisfies(cs: seq<Clause>, ps: seq<Param>, row: Row)
    decreases |cs|
  {
    if cs == [] then true
    else if cs[0] == InStock then row.stock > 0 && Satisfies(cs[1..], ps, row)
    else |ps| > 0 && Holds(cs[0], ps[0], row) && Satisfies(cs[1..], ps[1..], row)
  }

  predicate StepAdmits(s: Step, row: Row)
  {
    s.Emit? && Satisfies(s.clauses, s.params, row)
  }

  /** The reading of a range the fixtures intend: half-open, -1 meaning unbounded. */
  predicate InRange(r: Range, v: int)
  {
    (r.min == NoBound || r.min <= v) && (r.max == NoBound || v < r.max)
  }

  /** A range filter admits a value: not sent, or sent, known, and in range. */
  predicate RangeAdmits(id: Option<string>, table: RangeTable, v: int)
  {
    !Present(id) || (id.value in table && InRange(table[id.value], v))
  }

  predicate EqualsAdmits(value: Option<string>, field: string)
  {
    Present(value) ==> field == value.value
  }

  /** Every comma-separated piece of `features` occurs in the row's features. */
  predicate FeaturesAdmit(features: Option<string>, row: Row)
  {
    Present(features) ==>
      var pieces := Split(features.value, ',');
      forall i :: 0 <= i < |pieces| ==> Contains(row.features, pieces[i])
  }

  /** The chairs a chair search asks for. */
  predicate ChairMatches(q: ChairQuery, t: ChairConditions, row: Row)
  {
    && RangeAdmits(q.priceRangeId, t.price, row.measure(Price))
    && RangeAdmits(q.heightRangeId, t.height, row.measure(Height))
    && RangeAdmits(q.widthRangeId, t.width, row.measure(Width))
    && RangeAdmits(q.depthRangeId, t.depth, row.measure(Depth))
    && EqualsAdmits(q.kind, row.kind)
    && EqualsAdmits(q.color, row.color)
    && FeaturesAdmit(q.features, row)
    && row.stock > 0
  }

  /** The estates an estate search asks for. */
  predicate EstateMatches(q: EstateQuery, t: EstateConditions, row: Row)
  {
    && RangeAdmits(q.doorHeightRangeId, t.doorHeight, row.measure(DoorHeight))
    && RangeAdmits(q.doorWidthRangeId, t.doorWidth, row.measure(DoorWidth))
    && RangeAdmits(q.rentRangeId, t.rent, row.measure(Rent))
    && FeaturesAdmit(q.features, row)
  }

  /** Aligned clauses consume exactly their own parameters, so a conjunction
      splits at their end. */
  lemma {:induction false} SatisfiesAppend(c1: seq<Clause>, p1: seq<Param>, c2: seq<Clause>, p2: seq<Param>, row: Row)
    requires Aligned(c1, p1)
    ensures Satisfies(c1 + c2, p1 + p2, row) == (Satisfies(c1, p1, row) && Satisfies(c2, p2, row))
  {
    if c1 == [] {
      assert c1 + c2 == c2 && p1 + p2 == p2;
    } else {
      assert Binds(c1[0], p1[0]);
      assert (c1 + c2)[0] == c1[0] && (c1 + c2)[1..] == c1[1..] + c2;
      assert (p1 + p2)[0] == p1[0] && (p1 + p2)[1..] == p1[1..] + p2;
      assert Aligned(c1[1..], p1[1..]) by {
        forall i | 0 <= i < |c1[1..]| ensures Binds(c1[1..][i], p1[1..][i]) {
          assert Binds(c1[i + 1], p1[i + 1]);
        }
      }
      SatisfiesAppend(c1[1..], p1[1..], c2, p2, row);
    }
  }

  lemma SatisfiesSingle(c: Clause, p: Param, row: Row)
    requires c != InStock
    ensures Satisfies([c], [p], row) == Holds(c, p, row)
  {
    assert [c][1..] == [] && [p][1..] == [];
  }

  lemma ThenAdmits(a: Step, b: Step, row: Row)
    requires StepAligned(a)
    ensures StepAdmits(Then(a, b), row) == (StepAdmits(a, row) && StepAdmits(b, row))
  {
    if a.Emit? && b.Emit? {
      SatisfiesAppend(a.clauses, a.params, b.clauses, b.params, row);
    }
  }

  /** A range filter keeps exactly the rows whose value lies in the half-open
      range `[min, max)`, a -1 bound imposing nothing; an unknown id keeps none
      (the handler answers 400). It pushes `>= min` iff min is not -1 and
      `< max` iff max is not -1. */
  lemma RangeFilterMeaning(column: Column, table: RangeTable, id: Option<string>, message: string, row: Row)
    ensures StepAdmits(RangeFilter(column, table, id, message), row) <==> RangeAdmits(id, table, row.measure(column))
    ensures var s := RangeFilter(column, table, id, message);
      s.Emit? && Present(id) ==>
        && (AtLeast(column) in s.clauses <==> table[id.value].min != NoBound)
        && (Below(column) in s.clauses <==> table[id.value].max != NoBound)
  {
    if Present(id) && id.value in table {
      var r := table[id.value];
      var lower := if r.min != NoBound then Emit([AtLeast(column)], [Num(r.min)]) else Emit([], []);
      var upper := if r.max != NoBound then Emit([Below(column)], [Num(r.max)]) else Emit([], []);
      ThenAdmits(lower, upper, row);
      SatisfiesSingle(AtLeast(column), Num(r.min), row);
      SatisfiesSingle(Below(column), Num(r.max), row);
    }
  }

  lemma EqualsFilterMeaning(value: Option<string>, row: Row)
    ensures StepAligned(EqualsFilter(KindIs, value)) && StepAligned(EqualsFilter(ColorIs, value))
    ensures StepAdmits(EqualsFilter(KindIs, value), row) <==> EqualsAdmits(value, row.kind)
    ensures StepAdmits(EqualsFilter(ColorIs, value), row) <==> EqualsAdmits(value, row.color)
  {
    if Present(value) {
      SatisfiesSingle(KindIs, Str(value.value), row);
      SatisfiesSingle(ColorIs, Str(value.value), row);
    }
  }

  lemma {:induction false} FeatureClausesMeaning(pieces: seq<string>, row: Row)
    ensures StepAdmits(FeatureClauses(pieces), row) <==>
      forall i :: 0 <= i < |pieces| ==> Contains(row.features, pieces[i])
  {
    if pieces != [] {
      FeatureClausesMeaning(pieces[1..], row);
      ThenAdmits(Emit([HasFeature], [Str(pieces[0])]), FeatureClauses(pieces[1..]), row);
      SatisfiesSingle(HasFeature, Str(pieces[0]), row);
      assert forall i :: 1 <= i < |pieces| ==> pieces[i] == pieces[1..][i - 1];
    }
  }

  /** The features filter keeps exactly the rows containing every piece of
      `features.split(",")`, and pushes one LIKE clause per piece, in order,
      each bound to its piece. */
  lemma FeatureFilterMeaning(features: Option<string>, row: Row)
    ensures StepAdmits(FeatureFilter(features), row) <==> FeaturesAdmit(features, row)
    ensures var s := FeatureFilter(features);
      Present(features) ==>
        var pieces := Split(features.value, ',');
        && s.Emit? && |s.clauses| == |pieces| == |s.params|
        && forall i :: 0 <= i < |pieces| ==> s.clauses[i] == HasFeature && s.params[i] == Str(pieces[i])
  {
    if Present(features) {
      var pieces := Split(features.value, ',');
      FeatureClausesMeaning(pieces, row);
      FeatureClausesShape(pieces);
    }
  }

  lemma {:induction false} FeatureClausesShape(pieces: seq<string>)
    ensures var s := FeatureClauses(pieces);
      && s.Emit? && |s.clauses| == |pieces| == |s.params|
      && forall i :: 0 <= i < |pieces| ==> s.clauses[i] == HasFeature && s.params[i] == Str(pieces[i])
  {
    if pieces != [] {
      FeatureClausesShape(pieces[1..]);
      var rest := FeatureClauses(pieces[1..]);
      assert FeatureClauses(pieces).clauses == [HasFeature] + rest.clauses;
      assert FeatureClauses(pieces).params == [Str(pieces[0])] + rest.params;
    }
  }

  /** An accepted chair search's COUNT and SELECT queries both select exactly
      the chairs the request asks for: every sent range half-open with -1
      unbounded, kind and color equal, every feature piece contained, and
      stock left. The WHERE text is the same in both; the SELECT's extra
      parameters are consumed by LIMIT and OFFSET. */
  lemma ChairSearchMeaning(q: ChairQuery, t: ChairConditions, row: Row)
    ensures var r := ChairSearch(q, t);
      r.Ok? ==> |r.params| >= 2 && (Satisfies(r.clauses, CountParams(r), row) <==> ChairMatches(q, t, row))
    ensures var r := ChairSearch(q, t);
      r.Ok? ==> (Satisfies(r.clauses, r.params, row) <==> ChairMatches(q, t, row))
  {
    var r := ChairSearch(q, t);
    if r.Ok? {
      ChairFiltersAligned(q, t);
      PaginateShape(ChairFilters(q, t), true, q.page, q.perPage);
      var f := ChairFilters(q, t);
      assert r.clauses == f.clauses + [InStock] && CountParams(r) == f.params + [];
      SatisfiesAppend(f.clauses, f.params, [InStock], [], row);
      var limits := r.params[|r.params| - 2..];
      assert r.params == f.params + limits;
      SatisfiesAppend(f.clauses, f.params, [InStock], limits, row);

      var price := RangeFilter(Price, t.price, q.priceRangeId, PriceInvalid);
      RangeFilterMeaning(Price, t.price, q.priceRangeId, PriceInvalid, row);
      RangeFilterAligned(Price, t.price, q.priceRangeId, PriceInvalid);
      RangeFilterMeaning(Height, t.height, q.heightRangeId, HeightInvalid, row);
      RangeFilterAligned(Height, t.height, q.heightRangeId, HeightInvalid);
      ThenAdmits(price, RangeFilter(Height, t.height, q.heightRangeId, HeightInvalid), row);
      ThenAligned(price, RangeFilter(Height, t.height, q.heightRangeId, HeightInvalid));
      var height := Then(price, RangeFilter(Height, t.height, q.heightRangeId, HeightInvalid));
      RangeFilterMeaning(Width, t.width, q.widthRangeId, WidthInvalid, row);
      RangeFilterAligned(Width, t.width, q.widthRangeId, WidthInvalid);
      ThenAdmits(height, RangeFilter(Width, t.width, q.widthRangeId, WidthInvalid), row);
      ThenAligned(height, RangeFilter(Width, t.width, q.widthRangeId, WidthInvalid));
      var width := Then(height, RangeFilter(Width, t.width, q.widthRangeId, WidthInvalid));
      RangeFilterMeaning(Depth, t.depth, q.depthRangeId, DepthInvalid, row);
      RangeFilterAligned(Depth, t.depth, q.depthRangeId, DepthInvalid);
      ThenAdmits(width, RangeFilter(Depth, t.depth, q.depthRangeId, DepthInvalid), row);
      ThenAligned(width, RangeFilter(Depth, t.depth, q.depthRangeId, DepthInvalid));
      var depth := Then(width, RangeFilter(Depth, t.depth, q.depthRangeId, DepthInvalid));
      EqualsFilterMeaning(q.kind, row);
      ThenAdmits(depth, EqualsFilter(KindIs, q.kind), row);
      ThenAligned(depth, EqualsFilter(KindIs, q.kind));
      var kind := Then(depth, EqualsFilter(KindIs, q.kind));
      EqualsFilterMeaning(q.color, row);
      ThenAdmits(kind, EqualsFilter(ColorIs, q.color), row);
      ThenAligned(kind, EqualsFilter(ColorIs, q.color));
      var color := Then(kind, EqualsFilter(ColorIs, q.color));
      FeatureFilterMeaning(q.features, row);
      ThenAdmits(color, FeatureFilter(q.features), row);
    }
  }

  /** An accepted estate search's COUNT and SELECT queries both select
      exactly the estates the request asks for. */
  lemma EstateSearchMeaning(q: EstateQuery, t: EstateConditions, row: Row)
    ensures var r := EstateSearch(q, t);
      r.Ok? ==> |r.params| >= 2 && (Satisfies(r.clauses, CountParams(r), row) <==> EstateMatches(q, t, row))
    ensures var r := EstateSearch(q, t);
      r.Ok? ==> (Satisfies(r.clauses, r.params, row) <==> EstateMatches(q, t, row))
  {
    var r := EstateSearch(q, t);
    if r.Ok? {
      EstateFiltersAligned(q, t);
      PaginateShape(EstateFilters(q, t), false, q.page, q.perPage);
      var f := EstateFilters(q, t);
      var limits := r.params[|r.params| - 2..];
      assert r.clauses == f.clauses + [] && r.params == f.params + limits;
      SatisfiesAppend(f.clauses, f.params, [], limits, row);
      var doorHeight := RangeFilter(DoorHeight, t.doorHeight, q.doorHeightRangeId, DoorHeightInvalid);
      RangeFilterMeaning(DoorHeight, t.doorHeight, q.doorHeightRangeId, DoorHeightInvalid, row);
      RangeFilterAligned(DoorHeight, t.doorHeight, q.doorHeightRangeId, DoorHeightInvalid);
      RangeFilterMeaning(DoorWidth, t.doorWidth, q.doorWidthRangeId, DoorWidthInvalid, row);
      RangeFilterAligned(DoorWidth, t.doorWidth, q.doorWidthRangeId, DoorWidthInvalid);
      ThenAdmits(doorHeight, RangeFilter(DoorWidth, t.doorWidth, q.doorWidthRangeId, DoorWidthInvalid), row);
      ThenAligned(doorHeight, RangeFilter(DoorWidth, t.doorWidth, q.doorWidthRangeId, DoorWidthInvalid));
      var doorWidth := Then(doorHeight, RangeFilter(DoorWidth, t.doorWidth, q.doorWidthRangeId, DoorWidthInvalid));
      RangeFilterMeaning(Rent, t.rent, q.rentRangeId, RentInvalid, row);
      RangeFilterAligned(Rent, t.rent, q.rentRangeId, RentInvalid);
      ThenAdmits(doorWidth, RangeFilter(Rent, t.rent, q.rentRangeId, RentInvalid), row);
      ThenAligned(doorWidth, RangeFilter(Rent, t.rent, q.rentRangeId, RentInvalid));
      var rent := Then(doorWidth, RangeFilter(Rent, t.rent, q.rentRangeId, RentInvalid));
      FeatureFilterMeaning(q.features, row);
      ThenAdmits(rent, FeatureFilter(q.features), row);
    }
  }

  // ---------------------------------------------------------------------------
  // The SQL text

  function ColumnName(c: Column): string
  {
    match c
    case Price => "price"
    case Height => "height"
    case Width => "width"
    case Depth => "depth"
    case DoorHeight => "door_height"
    case DoorWidth => "door_width"
    case Rent => "rent"
  }

  /** The fragment the handler pushes onto `searchQueries` for a clause. */
  function ClauseSql(c: Clause): string
  {
    match c
    case AtLeast(col) => ColumnName(col) + " >= ? "
    case Below(col) => ColumnName(col) + " < ? "
    case KindIs => "kind = ? "
    case ColorIs => "color = ? "
    case HasFeature => "features LIKE CONCAT('%', ?, '%')"
    case InStock => "stock > 0"
  }

  function ClauseTexts(cs: seq<Clause>): seq<string>
  {
    if cs == [] then [] else [ClauseSql(cs[0])] + ClauseTexts(cs[1..])
  }

  /** `searchQueries.join(" AND ")`. */
  function WhereSql(cs: seq<Clause>): string
  {
    Join(ClauseTexts(cs), " AND ")
  }

  const ChairCountPrefix := "SELECT COUNT(*) as count FROM chair WHERE "
  const ChairSelectPrefix := "SELECT * FROM chair WHERE "
  const ChairOrder := " ORDER BY popularity sort_key DESC LIMIT "
  const EstateCountPrefix := "SELECT COUNT(*) as count FROM estate WHERE "
  const EstateSelectPrefix := "SELECT * FROM estate WHERE "
  const EstateOrder := " ORDER BY popularity DESC, id ASC LIMIT "
  const OffsetWord := " OFFSET "

  function ChairCountSql(condition: string): string
  {
    ChairCountPrefix + condition
  }

  function ChairSelectSql(condition: string): string
  {
    ChairSelectPrefix + condition + (ChairOrder + "?" + OffsetWord + "?")
  }

  function EstateCountSql(condition: string): string
  {
    EstateCountPrefix + condition
  }

  function EstateSelectSql(condition: string): string
  {
    EstateSelectPrefix + condition + (EstateOrder + "?" + OffsetWord + "?")
  }

  /** Number of clauses that take a parameter. */
  function Slots(cs: seq<Clause>): nat
  {
    if cs == [] then 0 else (if cs[0] == InStock then 0 else 1) + Slots(cs[1..])
  }

  lemma {:induction false} SlotsAppend(c1: seq<Clause>, c2: seq<Clause>)
    ensures Slots(c1 + c2) == Slots(c1) + Slots(c2)
  {
    if c1 == [] {
      assert c1 + c2 == c2;
    } else {
      assert (c1 + c2)[0] == c1[0] && (c1 + c2)[1..] == c1[1..] + c2;
      SlotsAppend(c1[1..], c2);
    }
  }

  lemma {:induction false} AlignedSlots(cs: seq<Clause>, ps: seq<Param>)
    requires Aligned(cs, ps)
    ensures Slots(cs) == |ps|
  {
    if cs != [] {
      assert Binds(cs[0], ps[0]);
      assert Aligned(cs[1..], ps[1..]) by {
        forall i | 0 <= i < |cs[1..]| ensures Binds(cs[1..][i], ps[1..][i]) {
          assert Binds(cs[i + 1], ps[i + 1]);
        }
      }
      AlignedSlots(cs[1..], ps[1..]);
    }
  }

  lemma ClausePlaceholders(c: Clause)
    ensures Count(ClauseSql(c), '?') == if c == InStock then 0 else 1
  {
    match c
    case AtLeast(col) =>
      CountAbsent(ColumnName(col), '?');
      CountAppend(ColumnName(col), " >= ? ", '?');
    case Below(col) =>
      CountAbsent(ColumnName(col), '?');
      CountAppend(ColumnName(col), " < ? ", '?');
    case KindIs => KindPlaceholder();
    case ColorIs => ColorPlaceholder();
    case HasFeature => FeaturePlaceholder();
    case InStock => CountAbsent(ClauseSql(c), '?');
  }

  lemma KindPlaceholder()
    ensures Count(ClauseSql(KindIs), '?') == 1
  {
    assert ClauseSql(KindIs) == "kind = " + "?" + " ";
    OnePlaceholder("kind = ", " ");
  }

  lemma ColorPlaceholder()
    ensures Count(ClauseSql(ColorIs), '?') == 1
  {
    assert ClauseSql(ColorIs) == "color = " + "?" + " ";
    OnePlaceholder("color = ", " ");
  }

  lemma FeaturePlaceholder()
    ensures Count(ClauseSql(HasFeature), '?') == 1
  {
    assert ClauseSql(HasFeature) == "features LIKE CONCAT('%', " + "?" + ", '%')";
    OnePlaceholder("features LIKE CONCAT('%', ", ", '%')");
  }

  lemma OnePlaceholder(a: string, b: string)
    requires '?' !in a && '?' !in b
    ensures Count(a + "?" + b, '?') == 1
  {
    CountAbsent(a, '?');
    CountAbsent(b, '?');
    CountAppend(a, "?", '?');
    CountAppend(a + "?", b, '?');
  }

  /** The WHERE text has one `?` per clause that takes a parameter. */
  lemma {:induction false} WherePlaceholders(cs: seq<Clause>)
    ensures Count(WhereSql(cs), '?') == Slots(cs)
  {
    if |cs| == 1 {
      ClausePlaceholders(cs[0]);
      assert ClauseTexts(cs) == [ClauseSql(cs[0])];
    } else if |cs| > 1 {
      WherePlaceholders(cs[1..]);
      ClausePlaceholders(cs[0]);
      var rest := ClauseTexts(cs[1..]);
      assert ClauseTexts(cs) == [ClauseSql(cs[0])] + rest;
      assert |rest| >= 1 by { assert rest == [ClauseSql(cs[1])] + ClauseTexts(cs[2..]) by { assert cs[1..][1..] == cs[2..]; } }
      assert WhereSql(cs) == ClauseSql(cs[0]) + " AND " + Join(rest, " AND ");
      CountAppend(ClauseSql(cs[0]), " AND ", '?');
      CountAppend(ClauseSql(cs[0]) + " AND ", Join(rest, " AND "), '?');
    }
  }

  /** The COUNT query has exactly as many `?` as the parameters it is given,
      and the SELECT query as many as the parameters with LIMIT and OFFSET. */
  lemma ChairSqlPlaceholders(q: ChairQuery, t: ChairConditions)
    ensures var r := ChairSearch(q, t);
      r.Ok? ==> (|r.params| >= 2
        && Count(ChairCountSql(WhereSql(r.clauses)), '?') == |CountParams(r)|
        && Count(ChairSelectSql(WhereSql(r.clauses)), '?') == |r.params|)
  {
    var r := ChairSearch(q, t);
    if r.Ok? {
      ChairFiltersAligned(q, t);
      PaginateShape(ChairFilters(q, t), true, q.page, q.perPage);
      var f := ChairFilters(q, t);
      assert r.clauses == f.clauses + [InStock];
      SlotsAppend(f.clauses, [InStock]);
      AlignedSlots(f.clauses, f.params);
      WherePlaceholders(r.clauses);
      SqlAffixes(WhereSql(r.clauses));
    }
  }

  lemma EstateSqlPlaceholders(q: EstateQuery, t: EstateConditions)
    ensures var r := EstateSearch(q, t);
      r.Ok? ==> (|r.params| >= 2
        && Count(EstateCountSql(WhereSql(r.clauses)), '?') == |CountParams(r)|
        && Count(EstateSelectSql(WhereSql(r.clauses)), '?') == |r.params|)
  {
    var r := EstateSearch(q, t);
    if r.Ok? {
      EstateFiltersAligned(q, t);
      PaginateShape(EstateFilters(q, t), false, q.page, q.perPage);
      AlignedSlots(r.clauses, CountParams(r));
      WherePlaceholders(r.clauses);
      SqlAffixes(WhereSql(r.clauses));
    }
  }

  /** The fixed parts of the queries: no `?` in the prefixes, two in the ORDER BY tails. */
  lemma SqlAffixes(condition: string)
    ensures Count(ChairCountSql(condition), '?') == Count(condition, '?')
    ensures Count(ChairSelectSql(condition), '?') == Count(condition, '?') + 2
    ensures Count(EstateCountSql(condition), '?') == Count(condition, '?')
    ensures Count(EstateSelectSql(condition), '?') == Count(condition, '?') + 2
  {
    ChairCountFree();
    ChairSelectFree();
    ChairOrderFree();
    EstateCountFree();
    EstateSelectFree();
    EstateOrderFree();
    OffsetFree();
    PrefixFree(ChairCountPrefix, condition);
    PrefixFree(EstateCountPrefix, condition);
    SelectAffixes(ChairSelectPrefix, condition, ChairOrder);
    SelectAffixes(EstateSelectPrefix, condition, EstateOrder);
  }

  lemma ChairCountFree()
    ensures '?' !in ChairCountPrefix
  {
  }

  lemma ChairSelectFree()
    ensures '?' !in ChairSelectPrefix
  {
  }

  lemma ChairOrderFree()
    ensures '?' !in ChairOrder
  {
  }

  lemma EstateCountFree()
    ensures '?' !in EstateCountPrefix
  {
  }

  lemma EstateSelectFree()
    ensures '?' !in EstateSelectPrefix
  {
  }

  lemma EstateOrderFree()
    ensures '?' !in EstateOrder
  {
  }

  lemma OffsetFree()
    ensures '?' !in OffsetWord
  {
  }

  lemma SelectAffixes(prefix: string, condition: string, order: string)
    requires '?' !in prefix && '?' !in order && '?' !in OffsetWord
    ensures Count(prefix + condition + (order + "?" + OffsetWord + "?"), '?') == Count(condition, '?') + 2
  {
    TwoPlaceholders(order, OffsetWord);
    PrefixFree(prefix, condition);
    CountAppend(prefix + condition, order + "?" + OffsetWord + "?", '?');
  }

  lemma TwoPlaceholders(a: string, b: string)
    requires '?' !in a && '?' !in b
    ensures Count(a + "?" + b + "?", '?') == 2
  {
    OnePlaceholder(a, b);
    CountAppend(a + "?" + b, "?", '?');
  }

  lemma PrefixFree(prefix: string, rest: string)
    requires '?' !in prefix
    ensures Count(prefix + rest, '?') == Count(rest, '?')
  {
    CountAbsent(prefix, '?');
    CountAppend(prefix, rest, '?');
  }

}
