# isuumo request rules in Dafny

isuumo is a real-estate and furniture listing service. Its Node.js backend
(`webapp/nodejs/app.js`) turns HTTP requests into MySQL queries. This project
models the decisions the handlers make before the database is reached, and
proves what those decisions mean:

- **Search-condition builder** (`/api/chair/search`, `/api/estate/search`).
  Range ids are looked up in the fixture condition tables. Each known range
  contributes `col >= ?` and/or `col < ?`, where `-1` means "no bound".
  `kind` and `color` contribute an equality. `features` is split on `,` and
  gives one `LIKE` per piece. The handler then rejects an empty condition,
  adds `stock > 0` (chairs only), validates `page` and `perPage`, and binds
  `LIMIT perPage OFFSET perPage * page`.
  - `Search` states this as functions over a `Step` value
    (`Fail(message) | Emit(clauses, params)`), chained block by block. A
    request ends as `BadRequest(message) | Ok(clauses, params)`.
  - `SearchBuilder` holds the handlers' imperative form: methods that push
    onto `searchQueries`/`queryParams`, with a `for` loop over the feature
    pieces. Each method is proved equal to the `Search` function.
  - `Search` also gives the clauses a meaning: each clause is evaluated on
    a row, with the `?` placeholders bound left to right. Lemmas prove that
    an accepted request selects exactly the rows the request asks for. They
    also prove that the SQL text has one `?` per bound parameter.
- **Chair-through-door rule** (`/api/recommended_estate/:id`), module `Fit`.
  The chair's dimensions are sorted and the two smallest are taken. A door
  admits them in either orientation. This is proved equivalent to "some face
  of the chair passes the door", and so independent of how the dimensions
  are labelled.
- **Lasso polygon** (`/api/estate/nazotte`), module `Wkt`. The coordinates
  become a Well-Known Text polygon (OGC Simple Feature Access Part 1,
  section 7), one `lon lat` vertex each. A reader of one-ring WKT polygons
  recovers the coordinates exactly, so no vertex is added or reordered.
- **Chair stock** (`/api/chair/:id`, `/api/chair/buy/:id`), module `Stock`.
  The table is a map from id to stock, held by a class whose `Buy` method
  updates it. A purchase succeeds only on positive stock and takes one
  chair. Repeated purchases never sell more than the stock.

`Text` holds JavaScript's `split` and `join` on a separator, a character
count, and the numeric test and integer parse used for `page`/`perPage`.
`Common` holds `Option`.

## Model

| member | source | states |
|---|---|---|
| Search.RangeFilterOutcome | webapp/nodejs/app.js:168-184 | A range block fails iff the id is sent and absent from the table, and then with that block's own message; a known id pushes something iff its range is not -1 on both sides |
| Search.RangeFilterMeaning | webapp/nodejs/app.js:175-183 | A range block admits a row iff the id is not sent, or the value lies in the half-open `[min, max)` with -1 unbounded; `>= min` is pushed iff min != -1 and `< max` iff max != -1 |
| Search.EqualsFilterMeaning | webapp/nodejs/app.js:240-248 | The kind/color blocks are aligned and admit a row iff the parameter is absent or equals the row's kind/color |
| Search.FeatureFilterOutcome | webapp/nodejs/app.js:250-256 | The features block never fails, and pushes something iff `features` is sent and non-empty |
| Search.FeatureFilterMeaning | webapp/nodejs/app.js:250-256 | One LIKE clause per piece of `features.split(",")`, in order, each bound to its piece; the block admits a row iff every piece occurs in the row's features |
| Search.ChairFiltersAligned | webapp/nodejs/app.js:168-256 | Every clause the chair filter blocks push comes with exactly one parameter of the matching kind |
| Search.EstateFiltersAligned | webapp/nodejs/app.js:377-439 | The same for the estate filter blocks |
| Search.PaginateShape | webapp/nodejs/app.js:258-291 | After the filters: accepted iff no block failed, some clause was pushed, and page and perPage are numeric; the chair form appends `stock > 0` without a parameter; exactly `perPage, perPage * page` are appended to the parameters |
| Search.ChairSearchOutcome | webapp/nodejs/app.js:168-273 | The chair response as the ordered chain of checks: price, height, width, depth id errors, then "Search condition not found" (not satisfied by `stock > 0`), then page, then perPage; and accepted iff none applies |
| Search.EstateSearchOutcome | webapp/nodejs/app.js:377-454 | The same chain for estates: doorHeight, doorWidth, rent, empty condition, page, perPage |
| Search.ChairSearchShape | webapp/nodejs/app.js:263-291 | Accepted chair request: one parameter fewer than clauses; `stock > 0` last; the other clauses aligned one to one with the COUNT parameters; the last two parameters are perPage and perPage * page |
| Search.EstateSearchShape | webapp/nodejs/app.js:441-472 | Accepted estate request: clauses aligned one to one with the COUNT parameters, then perPage and perPage * page |
| Search.ChairSearchMeaning | webapp/nodejs/app.js:153-295 | An accepted chair search's WHERE clause, bound to the COUNT parameters and equally to all SELECT parameters, holds on a row iff the row is in every sent range, has the sent kind and color, contains every feature piece, and has stock left |
| Search.EstateSearchMeaning | webapp/nodejs/app.js:365-476 | An accepted estate search's WHERE clause, bound to the COUNT parameters and equally to all SELECT parameters, holds on a row iff the row is in every sent range and contains every feature piece |
| Search.WherePlaceholders | webapp/nodejs/app.js:279 | The `" AND "`-joined condition holds one `?` per clause that takes a parameter |
| Search.ChairSqlPlaceholders | webapp/nodejs/app.js:278-295 | For an accepted chair search, the COUNT text has as many `?` as the COUNT parameters, and the SELECT text as many as all parameters |
| Search.EstateSqlPlaceholders | webapp/nodejs/app.js:459-476 | The same for estates |
| SearchBuilder.PushRange | webapp/nodejs/app.js:168-184 | The imperative range block reports the block's error or appends exactly what RangeFilter specifies |
| SearchBuilder.PushEquals | webapp/nodejs/app.js:240-248 | The kind/color block appends exactly what EqualsFilter specifies |
| SearchBuilder.PushFeatures | webapp/nodejs/app.js:250-256 | The loop over the feature pieces appends exactly the clauses and parameters FeatureFilter specifies |
| SearchBuilder.BuildChairSearch | webapp/nodejs/app.js:153-291 | The chair handler's pushes and early returns compute ChairSearch |
| SearchBuilder.BuildEstateSearch | webapp/nodejs/app.js:365-472 | The estate handler's pushes and early returns compute EstateSearch |
| Text.Split | webapp/nodejs/app.js:251 | `split` gives at least one piece and no piece holds the separator |
| Text.JoinSplit | webapp/nodejs/app.js:251 | Joining the pieces of a split with the separator gives the text back |
| Text.SplitJoin | webapp/nodejs/app.js:517 | Splitting a join of separator-free pieces gives the pieces back |
| Text.SplitLength | webapp/nodejs/app.js:251 | A split has one piece more than the text has separators |
| Fit.SortAscending | webapp/nodejs/app.js:590 | The result is ascending and a rearrangement of the three dimensions |
| Fit.FitsIffSomeFacePasses | webapp/nodejs/app.js:590-603 | The door admits `[min1, min2, min2, min1]` iff some two distinct dimensions of the chair pass the door, one along its width and one along its height |
| Fit.FitsPermutationInvariant | webapp/nodejs/app.js:590-603 | The result is the same under every permutation of width, height and depth |
| Fit.RecommendParams | webapp/nodejs/app.js:589-603 | No parameters exactly when no chair has the id; otherwise five, the last the LIMIT 20 |
| Fit.RecommendMeaning | webapp/nodejs/app.js:589-603 | For an existing chair, an estate satisfies the bound WHERE clause iff some face of the chair passes its door |
| Wkt.PolygonWktRoundTrip | webapp/nodejs/app.js:517-527 | Reading the polygon text back gives the coordinates unchanged: one `lon lat` vertex each, in order, none added |
| Wkt.PolygonWktCommas | webapp/nodejs/app.js:517-527 | The polygon text has one comma fewer than there are coordinates |
| Wkt.NazotteQueryFor | webapp/nodejs/app.js:527-547 | The query binds the limit 50 and a polygon text that reads back as the coordinates |
| Wkt.Nazotte | webapp/nodejs/app.js:511-552 | The handler end to end: the estates are exactly the rows the database returns for the bound query (limit 50, a polygon that reads back as the coordinates), in order; `count` is their number, so at most 50 when the database honours LIMIT |
| Stock.Detail | webapp/nodejs/app.js:317-321 | Not found iff the row is missing or its stock is not positive; otherwise the row's stock |
| Stock.Purchase | webapp/nodejs/app.js:340-356 | Same ids; every other row unchanged; on a row in stock, one fewer and still non-negative; otherwise the table unchanged; non-negative stocks stay non-negative |
| Stock.PurchasesSellAtMostStock | webapp/nodejs/app.js:330-363 | Of n requests for one chair exactly min(n, stock) succeed, its stock drops by that many, other rows keep theirs, and once sold out the chair is not shown |
| Stock.ChairStock.Buy | webapp/nodejs/app.js:330-363 | Succeeds iff the row exists with positive stock, and the table becomes Purchase of the old table |
| Stock.ChairStock.Show | webapp/nodejs/app.js:311-321 | Answers what Detail specifies for the current table |

## Left out

- HTTP and observability plumbing: Express routing, `morgan`, `multer`, `dd-trace`, `app.listen`. A handler's input is its query record and its output a response value.
- The MySQL pool, connections and transactions (`beginTransaction`, `commit`, `rollback`, `FOR UPDATE`). Buy is modelled as its sequential effect on the stock map, so concurrent purchases are not modelled.
- Evaluation of SQL inside the database: `ST_Contains`/`ST_PolygonFromText`, `ORDER BY`, `LIMIT`/`OFFSET`, and the `ORDER BY popularity sort_key DESC` text of the chair query. The WHERE conjunction is given a meaning (`Search.Satisfies`) so that the filters can be stated; ordering and paging of the result are not.
- Search.ChairSearchMeaning, Search.EstateSearchMeaning: a LIKE piece is matched as a literal, case-sensitive substring, and `kind = ?` / `color = ?` as exact text equality. `%` and `_` inside a piece, and the column collation (case and accent folding, trailing-space padding) for both LIKE and the equalities, are not modelled.
- The `/initialize` handler, the CSV import, `/api/chair/low_priced`, `/api/estate/low_priced`, `/api/estate/req_doc/:id`, `/api/estate/:id` and the search-condition endpoints: they only forward to the database or return fixtures.
- The `node-cache` cache middleware and its TTL, and `camelcaseKeys`.
- Text.IsNumeric: `page != +page` uses JavaScript loose equality. It is modelled as an optional `-` or `+` sign followed by decimal digits, read by a decimal parse. The model answers 400 on other texts that JavaScript accepts: leading or trailing blanks, blank-only texts such as `" "` (`+" "` is 0), fractions, exponents, hexadecimal, binary or octal literals such as `0x1f`, `0b101` or `0o17`, and `Infinity`, `+Infinity` or `-Infinity` (for which `parseInt` gives NaN).
- Search.Paginate: `parseInt` and `perPageNum * pageNum` are IEEE doubles, exact only up to 2^53. The model uses unbounded integers, so it does not capture rounding of very large page numbers.
- Search.RangeFilter: the condition tables are maps from id text to range. JavaScript array indexing quirks such as `ranges["length"]` or `ranges["01"]` are not modelled.
- Query parameters sent as arrays, and the number values of the range tables beyond integers.
- Wkt.Coordinate: coordinates are kept as the text a template literal produces, without float formatting. The round trip holds for texts without spaces, commas or parentheses. A request without `coordinates` throws at app.js:517, outside the handler's try block; not modelled.
- Fit.RecommendParams: a missing chair makes the handler throw after the chair query and before the estate query (inside the try block, so passed to `next`); it is modelled as no parameters.
- Stock.StockTable: a chair row is reduced to its stock; the other columns returned by the detail endpoint are not modelled. Ids are integers.
