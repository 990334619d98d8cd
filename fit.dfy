/** The rule of `/api/recommended_estate/:id`: an estate is recommended for a
    chair when the chair passes through the estate's door, judged by the
    chair's two smallest dimensions, in either orientation. */
module Fit {
  import opened Common

  datatype Chair = Chair(width: int, height: int, depth: int)

  /** An estate's `door_width` and `door_height`. */
  datatype Door = Door(width: int, height: int)

  /** `LIMIT`, the number of estates the query returns at most. */
  const Limit: int := 20

  function Dimensions(c: Chair): seq<int>
  {
    [c.width, c.height, c.depth]
  }

  /** `r` lists `a`, `b`, `c` in some order. */
  predicate Rearranges(r: seq<int>, a: int, b: int, c: int)
  {
    r == [a, b, c] || r == [a, c, b] || r == [b, a, c] || r == [b, c, a] || r == [c, a, b] || r == [c, b, a]
  }

  /** `[a, b, c].sort((x, y) => x - y)`: the three values in ascending order. */
  function SortAscending(a: int, b: int, c: int): (r: seq<int>)
    ensures |r| == 3 && r[0] <= r[1] <= r[2]
    ensures Rearranges(r, a, b, c)
  {
    if a <= b then
      if b <= c then [a, b, c] else if a <= c then [a, c, b] else [c, a, b]
    else
      if a <= c then [b, a, c] else if b <= c then [b, c, a] else [c, b, a]
  }

  /** The parameters bound to the recommendation query:
      `[min1, min2, min2, min1, LIMIT]`, min1 <= min2 the two smallest dimensions. */
  function FitParams(c: Chair): seq<int>
  {
    var dims := SortAscending(c.width, c.height, c.depth);
    [dims[0], dims[1], dims[1], dims[0], Limit]
  }

  /** The query's WHERE with its parameters bound:
      `(door_width >= ? AND door_height >= ?) OR (door_width >= ? AND door_height >= ?)`. */
  predicate DoorAdmits(ps: seq<int>, d: Door)
    requires |ps| >= 4
  {
    (d.width >= ps[0] && d.height >= ps[1]) || (d.width >= ps[2] && d.height >= ps[3])
  }

  /** The recommendation rule as the handler applies it. */
  predicate Fits(c: Chair, d: Door)
  {
    DoorAdmits(FitParams(c), d)
  }

  /** The rule read independently of the sort: some face of the chair, two
      of its three dimensions, passes the door, one along the door's width
      and the other along its height. */
  predicate SomeFacePasses(c: Chair, d: Door)
  {
    var dims := Dimensions(c);
    exists i, j :: 0 <= i < 3 && 0 <= j < 3 && i != j && d.width >= dims[i] && d.height >= dims[j]
  }

  /** Sorting then taking the two smallest in both orientations is the same
      as asking whether some face of the chair passes the door. */
  lemma FitsIffSomeFacePasses(c: Chair, d: Door)
    ensures Fits(c, d) <==> SomeFacePasses(c, d)
  {
    var dims := Dimensions(c);
    var s := SortAscending(c.width, c.height, c.depth);
    if Fits(c, d) {
      if d.width >= s[0] && d.height >= s[1] {
        var i, j := FacePositions(c, s[0], s[1]);
        assert d.width >= dims[i] && d.height >= dims[j];
      } else {
        var i, j := FacePositions(c, s[0], s[1]);
        assert d.width >= dims[j] && d.height >= dims[i];
      }
    }
    if SomeFacePasses(c, d) {
      var i, j :| 0 <= i < 3 && 0 <= j < 3 && i != j && d.width >= dims[i] && d.height >= dims[j];
      TwoSmallestBound(c, i, j);
    }
  }

  /** The two smallest values of the sort sit at two different positions of the chair. */
  lemma FacePositions(c: Chair, lo: int, mid: int) returns (i: int, j: int)
    requires var s := SortAscending(c.width, c.height, c.depth); lo == s[0] && mid == s[1]
    ensures 0 <= i < 3 && 0 <= j < 3 && i != j
    ensures Dimensions(c)[i] == lo && Dimensions(c)[j] == mid
  {
    var a, b, d := c.width, c.height, c.depth;
    if a <= b {
      if b <= d { i, j := 0, 1; } else if a <= d { i, j := 0, 2; } else { i, j := 2, 0; }
    } else {
      if a <= d { i, j := 1, 0; } else if b <= d { i, j := 1, 2; } else { i, j := 2, 1; }
    }
  }

  /** Any two dimensions at different positions are, as a pair, at least the two smallest. */
  lemma TwoSmallestBound(c: Chair, i: int, j: int)
    requires 0 <= i < 3 && 0 <= j < 3 && i != j
    ensures var s := SortAscending(c.width, c.height, c.depth);
      var x, y := Dimensions(c)[i], Dimensions(c)[j];
      (x <= y ==> s[0] <= x && s[1] <= y) && (y <= x ==> s[0] <= y && s[1] <= x)
  {
  }

  /** The recommendation does not depend on which dimension the chair row
      calls width, height or depth. */
  lemma FitsPermutationInvariant(c: Chair, d: Door)
    ensures Fits(Chair(c.height, c.width, c.depth), d) == Fits(c, d)
    ensures Fits(Chair(c.width, c.depth, c.height), d) == Fits(c, d)
    ensures Fits(Chair(c.depth, c.height, c.width), d) == Fits(c, d)
    ensures Fits(Chair(c.height, c.depth, c.width), d) == Fits(c, d)
    ensures Fits(Chair(c.depth, c.width, c.height), d) == Fits(c, d)
  {
  }

  /** `/api/recommended_estate/:id` up to the query: the parameters bound to
      it, or None when no chair has that id (the handler then dereferences an
      undefined row and answers 500). */
  function RecommendParams(chairs: map<int, Chair>, id: int): (r: Option<seq<int>>)
    ensures r.None? <==> id !in chairs
    ensures r.Some? ==> |r.value| == 5 && r.value[4] == Limit
  {
    if id in chairs then Some(FitParams(chairs[id])) else None
  }

  /** An estate satisfies the recommendation query for a chair exactly when
      some face of that chair passes the estate's door. */
  lemma RecommendMeaning(chairs: map<int, Chair>, id: int, d: Door)
    requires id in chairs
    ensures var r := RecommendParams(chairs, id);
      r.Some? && (DoorAdmits(r.value, d) <==> SomeFacePasses(chairs[id], d))
  {
    FitsIffSomeFacePasses(chairs[id], d);
  }

}
