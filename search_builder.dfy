/** The search handlers as they run: `searchQueries` and `queryParams` grow by
    `push` through a fixed sequence of blocks, an early return answering 400,
    then the page parameters are checked and LIMIT/OFFSET pushed. Each method
    is proved to compute what the Search functions specify. */
module SearchBuilder {
  import opened Common
  import opened Text
  import opened Search

  /** One range block: on a known id push the bounds that are not -1;
      an unknown id yields the block's message and pushes nothing. */
  method PushRange(searchQueries: seq<Clause>, queryParams: seq<Param>,
                   column: Column, table: RangeTable, id: Option<string>, message: string)
    returns (error: Option<string>, searchQueries': seq<Clause>, queryParams': seq<Param>)
    ensures var s := RangeFilter(column, table, id, message);
      if s.Fail? then error == Some(s.message)
      else error == None && searchQueries' == searchQueries + s.clauses && queryParams' == queryParams + s.params
  {
    searchQueries', queryParams' := searchQueries, queryParams;
    error := None;
    if Present(id) {
      if id.value !in table {
        error := Some(message);
        return;
      }
      var range := table[id.value];
      if range.min != NoBound {
        searchQueries' := searchQueries' + [AtLeast(column)];
        queryParams' := queryParams' + [Num(range.min)];
      }
      if range.max != NoBound {
        searchQueries' := searchQueries' + [Below(column)];
        queryParams' := queryParams' + [Num(range.max)];
      }
    }
  }

  /** The `kind`/`color` blocks. */
  method PushEquals(searchQueries: seq<Clause>, queryParams: seq<Param>, clause: Clause, value: Option<string>)
    returns (searchQueries': seq<Clause>, queryParams': seq<Param>)
    ensures searchQueries' == searchQueries + EqualsFilter(clause, value).clauses
    ensures queryParams' == queryParams + EqualsFilter(clause, value).params
  {
    searchQueries', queryParams' := searchQueries, queryParams;
    if Present(value) {
      searchQueries' := searchQueries' + [clause];
      queryParams' := queryParams' + [Str(value.value)];
    }
  }

  /** The `features` block: a loop over `features.split(",")` pushing one LIKE
      clause and its piece per iteration. */
  method PushFeatures(searchQueries: seq<Clause>, queryParams: seq<Param>, features: Option<string>)
    returns (searchQueries': seq<Clause>, queryParams': seq<Param>)
    ensures FeatureFilter(features).Emit?
    ensures searchQueries' == searchQueries + FeatureFilter(features).clauses
    ensures queryParams' == queryParams + FeatureFilter(features).params
  {
    FeatureFilterOutcome(features);
    searchQueries', queryParams' := searchQueries, queryParams;
    if Present(features) {
      var featureConditions := Split(features.value, ',');
      for i := 0 to |featureConditions|
        invariant FeatureClauses(featureConditions[..i]).Emit?
        invariant searchQueries' == searchQueries + FeatureClauses(featureConditions[..i]).clauses
        invariant queryParams' == queryParams + FeatureClauses(featureConditions[..i]).params
      {
        searchQueries' := searchQueries' + [HasFeature];
        queryParams' := queryParams' + [Str(featureConditions[i])];
        FeatureClausesSnoc(featureConditions[..i], featureConditions[i]);
        assert featureConditions[..i + 1] == featureConditions[..i] + [featureConditions[i]];
      }
      assert featureConditions[..|featureConditions|] == featureConditions;
    }
  }

  /** Appending a piece to the list appends its clause and parameter. */
  lemma {:induction false} FeatureClausesSnoc(pieces: seq<string>, piece: string)
    ensures var before := FeatureClauses(pieces);
      var after := FeatureClauses(pieces + [piece]);
      before.Emit? && after.Emit?
      && after.clauses == before.clauses + [HasFeature]
      && after.params == before.params + [Str(piece)]
  {
    if pieces == [] {
      assert [piece][1..] == [];
    } else {
      assert (pieces + [piece])[1..] == pieces[1..] + [piece];
      FeatureClausesSnoc(pieces[1..], piece);
    }
  }

  /** `/api/chair/search` up to the database calls. */
  method BuildChairSearch(q: ChairQuery, t: ChairConditions) returns (res: Response)
    ensures res == ChairSearch(q, t)
  {
    var searchQueries: seq<Clause> := [];
    var queryParams: seq<Param> := [];
    var error;
    // `done` is what the blocks run so far specify
    ghost var done := RangeFilter(Price, t.price, q.priceRangeId, PriceInvalid);
    error, searchQueries, queryParams := PushRange(searchQueries, queryParams, Price, t.price, q.priceRangeId, PriceInvalid);
    if error.Some? { return BadRequest(error.value); }
    assert done == Emit(searchQueries, queryParams);

    done := Then(done, RangeFilter(Height, t.height, q.heightRangeId, HeightInvalid));
    error, searchQueries, queryParams := PushRange(searchQueries, queryParams, Height, t.height, q.heightRangeId, HeightInvalid);
    if error.Some? { return BadRequest(error.value); }
    assert done == Emit(searchQueries, queryParams);

    done := Then(done, RangeFilter(Width, t.width, q.widthRangeId, WidthInvalid));
    error, searchQueries, queryParams := PushRange(searchQueries, queryParams, Width, t.width, q.widthRangeId, WidthInvalid);
    if error.Some? { return BadRequest(error.value); }
    assert done == Emit(searchQueries, queryParams);

    done := Then(done, RangeFilter(Depth, t.depth, q.depthRangeId, DepthInvalid));
    error, searchQueries, queryParams := PushRange(searchQueries, queryParams, Depth, t.depth, q.depthRangeId, DepthInvalid);
    if error.Some? { return BadRequest(error.value); }
    assert done == Emit(searchQueries, queryParams);

    done := Then(done, EqualsFilter(KindIs, q.kind));
    searchQueries, queryParams := PushEquals(searchQueries, queryParams, KindIs, q.kind);
    done := Then(done, EqualsFilter(ColorIs, q.color));
    searchQueries, queryParams := PushEquals(searchQueries, queryParams, ColorIs, q.color);
    done := Then(done, FeatureFilter(q.features));
    searchQueries, queryParams := PushFeatures(searchQueries, queryParams, q.features);
    assert done == ChairFilters(q, t) == Emit(searchQueries, queryParams);

    if |searchQueries| == 0 { return BadRequest(NoCondition); }
    searchQueries := searchQueries + [InStock];
    if !ValidNumber(q.page) { return BadRequest(PageInvalid(q.page)); }
    if !ValidNumber(q.perPage) { return BadRequest(PerPageInvalid); }
    var pageNum := ParseInt(q.page.value);
    var perPageNum := ParseInt(q.perPage.value);
    queryParams := queryParams + [Num(perPageNum), Num(perPageNum * pageNum)];
    res := Ok(searchQueries, queryParams);
  }

  /** `/api/estate/search` up to the database calls. */
  method BuildEstateSearch(q: EstateQuery, t: EstateConditions) returns (res: Response)
    ensures res == EstateSearch(q, t)
  {
    var searchQueries: seq<Clause> := [];
    var queryParams: seq<Param> := [];
    var error;
    ghost var done := RangeFilter(DoorHeight, t.doorHeight, q.doorHeightRangeId, DoorHeightInvalid);
    error, searchQueries, queryParams := PushRange(searchQueries, queryParams, DoorHeight, t.doorHeight, q.doorHeightRangeId, DoorHeightInvalid);
    if error.Some? { return BadRequest(error.value); }
    assert done == Emit(searchQueries, queryParams);

    done := Then(done, RangeFilter(DoorWidth, t.doorWidth, q.doorWidthRangeId, DoorWidthInvalid));
    error, searchQueries, queryParams := PushRange(searchQueries, queryParams, DoorWidth, t.doorWidth, q.doorWidthRangeId, DoorWidthInvalid);
    if error.Some? { return BadRequest(error.value); }
    assert done == Emit(searchQueries, queryParams);

    done := Then(done, RangeFilter(Rent, t.rent, q.rentRangeId, RentInvalid));
    error, searchQueries, queryParams := PushRange(searchQueries, queryParams, Rent, t.rent, q.rentRangeId, RentInvalid);
    if error.Some? { return BadRequest(error.value); }
    assert done == Emit(searchQueries, queryParams);

    done := Then(done, FeatureFilter(q.features));
    searchQueries, queryParams := PushFeatures(searchQueries, queryParams, q.features);
    assert done == EstateFilters(q, t) == Emit(searchQueries, queryParams);

    if |searchQueries| == 0 { return BadRequest(NoCondition); }
    if !ValidNumber(q.page) { return BadRequest(PageInvalid(q.page)); }
    if !ValidNumber(q.perPage) { return BadRequest(PerPageInvalid); }
    var pageNum := ParseInt(q.page.value);
    var perPageNum := ParseInt(q.perPage.value);
    queryParams := queryParams + [Num(perPageNum), Num(perPageNum * pageNum)];
    res := Ok(searchQueries, queryParams);
  }

}
