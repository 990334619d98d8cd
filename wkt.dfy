/** The lasso search `/api/estate/nazotte` up to the database: the drawn
    coordinates become a polygon in Well-Known Text (OGC Simple Feature Access
    Part 1, section 7), which the query hands to the database's own spatial
    functions together with the result limit. */
module Wkt {
  import opened Common
  import opened Text

  /** One element of the request's `coordinates`, each number in the text
      form that a JavaScript template literal gives it. */
  datatype Coordinate = Coordinate(latitude: string, longitude: string)

  /** `NAZOTTE_LIMIT`. */
  const NazotteLimit: int := 50

  /** The text of a number: non-empty, and none of the WKT delimiters. */
  predicate IsAtom(s: string)
  {
    s != [] && ' ' !in s && ',' !in s && '(' !in s && ')' !in s
  }

  predicate AllAtoms(cs: seq<Coordinate>)
  {
    forall i :: 0 <= i < |cs| ==> IsAtom(cs[i].latitude) && IsAtom(cs[i].longitude)
  }

  /** `${c.longitude} ${c.latitude}`: longitude first. */
  function VertexWkt(c: Coordinate): string
  {
    c.longitude + " " + c.latitude
  }

  function VertexTexts(cs: seq<Coordinate>): seq<string>
  {
    if cs == [] then [] else [VertexWkt(cs[0])] + VertexTexts(cs[1..])
  }

  /** `POLYGON((${coordinates.map(...).join(',')}))`. The first vertex is not
      repeated at the end; the ring is closed only if the client closed it. */
  function PolygonWkt(cs: seq<Coordinate>): string
  {
    "POLYGON((" + Join(VertexTexts(cs), ",") + "))"
  }

  /** Reading a one-ring WKT polygon back into its vertices. */
  function ParseRing(wkt: string): Option<seq<Coordinate>>
  {
    if |wkt| >= 11 && wkt[..9] == "POLYGON((" && wkt[|wkt| - 2..] == "))" then
      var inner := wkt[9..|wkt| - 2];
      if inner == "" then Some([]) else ParseVertices(Split(inner, ','))
    else None
  }

  function ParseVertices(vs: seq<string>): Option<seq<Coordinate>>
  {
    if vs == [] then Some([])
    else
      match (ParseVertex(vs[0]), ParseVertices(vs[1..]))
      case (Some(c), Some(rest)) => Some([c] + rest)
      case _ => None
  }

  /** `x y` read as longitude `x`, latitude `y`. */
  function ParseVertex(v: string): Option<Coordinate>
  {
    var parts := Split(v, ' ');
    if |parts| == 2 && IsAtom(parts[0]) && IsAtom(parts[1]) then Some(Coordinate(parts[1], parts[0])) else None
  }

  lemma VertexRoundTrip(c: Coordinate)
    requires IsAtom(c.latitude) && IsAtom(c.longitude)
    ensures ParseVertex(VertexWkt(c)) == Some(c)
  {
    assert Join([c.longitude, c.latitude], [' ']) == VertexWkt(c);
    SplitJoin([c.longitude, c.latitude], ' ');
  }

  lemma {:induction false} VerticesRoundTrip(cs: seq<Coordinate>)
    requires AllAtoms(cs)
    ensures |VertexTexts(cs)| == |cs|
    ensures forall i :: 0 <= i < |cs| ==> VertexTexts(cs)[i] == VertexWkt(cs[i])
    ensures ParseVertices(VertexTexts(cs)) == Some(cs)
  {
    if cs != [] {
      VertexRoundTrip(cs[0]);
      VerticesRoundTrip(cs[1..]);
      assert VertexTexts(cs)[1..] == VertexTexts(cs[1..]);
      assert [cs[0]] + cs[1..] == cs;
    }
  }

  /** The polygon text holds exactly one `lon lat` vertex per coordinate, in
      the input order, and nothing else: reading it back gives the coordinates
      unchanged, so no closing vertex is added. */
  lemma PolygonWktRoundTrip(cs: seq<Coordinate>)
    requires AllAtoms(cs)
    ensures ParseRing(PolygonWkt(cs)) == Some(cs)
  {
    var texts := VertexTexts(cs);
    var inner := Join(texts, ",");
    var wkt := PolygonWkt(cs);
    assert wkt[..9] == "POLYGON((" && wkt[9..|wkt| - 2] == inner && wkt[|wkt| - 2..] == "))";
    VerticesRoundTrip(cs);
    if cs == [] {
      assert inner == "";
    } else {
      forall i | 0 <= i < |texts|
        ensures ',' !in texts[i]
      {
        assert texts[i] == cs[i].longitude + " " + cs[i].latitude;
      }
      assert inner != "" by {
        if |texts| == 1 {
          assert inner == texts[0];
        } else {
          assert inner == texts[0] + "," + Join(texts[1..], ",");
        }
      }
      SplitJoin(texts, ',');
    }
  }

  /** The ring text has one comma fewer than it has vertices. */
  lemma PolygonWktCommas(cs: seq<Coordinate>)
    requires AllAtoms(cs) && |cs| >= 1
    ensures Count(PolygonWkt(cs), ',') == |cs| - 1
  {
    var texts := VertexTexts(cs);
    var inner := Join(texts, ",");
    VerticesRoundTrip(cs);
    forall i | 0 <= i < |texts|
      ensures ',' !in texts[i]
    {
      assert texts[i] == cs[i].longitude + " " + cs[i].latitude;
    }
    SplitJoin(texts, ',');
    SplitLength(inner, ',');
    CountAbsent("POLYGON((", ',');
    CountAbsent("))", ',');
    CountAppend("POLYGON((", inner, ',');
    CountAppend("POLYGON((" + inner, "))", ',');
  }

  /** The two values bound to the lasso query: the polygon text and the limit. */
  datatype NazotteQuery = NazotteQuery(polygon: string, limit: int)

  function NazotteQueryFor(cs: seq<Coordinate>): (q: NazotteQuery)
    ensures q.limit == NazotteLimit
    ensures AllAtoms(cs) ==> ParseRing(q.polygon) == Some(cs)
  {
    var q := NazotteQuery(PolygonWkt(cs), NazotteLimit);
    if AllAtoms(cs) then PolygonWktRoundTrip(cs); q else q
  }

  /** The response body `{ estates, count }`. */
  datatype NazotteResponse<E> = NazotteResponse(estates: seq<E>, count: int)

  /** `/api/estate/nazotte` end to end. `rowsFor` stands for the database
      answering the lasso query. The response lists the rows returned for
      the bound query, in order, and `count` is their number: the rows
      returned, not all rows inside the polygon. When the database honours
      `LIMIT`, the count is at most `NAZOTTE_LIMIT`. */
  function Nazotte<E>(cs: seq<Coordinate>, rowsFor: NazotteQuery -> seq<E>): (r: NazotteResponse<E>)
    ensures var q := NazotteQueryFor(cs);
      && q.limit == NazotteLimit
      && (AllAtoms(cs) ==> ParseRing(q.polygon) == Some(cs))
      && r.estates == rowsFor(q)
      && r.count == |r.estates|
    ensures (forall q :: |rowsFor(q)| <= q.limit) ==> r.count <= NazotteLimit
  {
    var rows := rowsFor(NazotteQueryFor(cs));
    NazotteResponse(rows, |rows|)
  }

}
