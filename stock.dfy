/** The chair stock as `/api/chair/:id` and `/api/chair/buy/:id` see it: a
    table from chair id to the number of chairs left. A purchase takes one
    chair of a row whose stock is positive; a chair whose stock is used up is
    no longer shown. */
module Stock {
  import opened Common

  /** The `stock` column of the `chair` table, by `id`. */
  type StockTable = map<int, int>

  /** `SELECT * FROM chair WHERE id = ? AND stock > 0` finds a row. */
  predicate InStock(t: StockTable, id: int)
  {
    id in t && t[id] > 0
  }

  /** `/api/chair/:id`: the row's stock, or None (404) when there is no such
      row or its stock is not positive. */
  function Detail(t: StockTable, id: int): (r: Option<int>)
    ensures r.None? <==> id !in t || t[id] <= 0
    ensures r.Some? ==> id in t && r.value == t[id] && r.value > 0
  {
    if id !in t || t[id] <= 0 then None else Some(t[id])
  }

  /** The table after `/api/chair/buy/:id`: one chair fewer of that row when
      it is in stock; otherwise (404, rollback) the table unchanged. */
  function Purchase(t: StockTable, id: int): (t': StockTable)
    ensures t'.Keys == t.Keys
    ensures forall k :: k in t && k != id ==> t'[k] == t[k]
    ensures InStock(t, id) ==> t'[id] == t[id] - 1 && t'[id] >= 0
    ensures !InStock(t, id) ==> t' == t
    ensures (forall k :: k in t ==> t[k] >= 0) ==> forall k :: k in t' ==> t'[k] >= 0
  {
    if InStock(t, id) then t[id := t[id] - 1] else t
  }

  /** `n` purchase requests for the same chair in a row: the final table and
      how many of them answered `{ ok: true }`. */
  function Purchases(t: StockTable, id: int, n: nat): (StockTable, nat)
  {
    if n == 0 then (t, 0)
    else
      var (t', sold) := Purchases(t, id, n - 1);
      if InStock(t', id) then (Purchase(t', id), sold + 1) else (t', sold)
  }

  /** No overselling: of `n` requests exactly min(n, stock) succeed, the
      stock drops by that many, other rows keep theirs, and once the stock is
      used up the chair is no longer shown. */
  lemma {:induction false} PurchasesSellAtMostStock(t: StockTable, id: int, n: nat)
    ensures var (t', sold) := Purchases(t, id, n);
      t'.Keys == t.Keys
      && (forall k :: k in t && k != id ==> t'[k] == t[k])
      && (id !in t || t[id] <= 0 ==> sold == 0 && t' == t)
      && (id in t && t[id] > 0 ==>
            sold == (if n <= t[id] then n else t[id]) && t'[id] == t[id] - sold)
      && (id in t && n >= t[id] ==> Detail(t', id).None?)
  {
    if n > 0 {
      PurchasesSellAtMostStock(t, id, n - 1);
    }
  }

  /** The chair table as the handlers update it, one request at a time. */
  class ChairStock {
    var stock: StockTable

    constructor(initial: StockTable)
      ensures stock == initial
    {
      stock := initial;
    }

    /** `/api/chair/buy/:id`: true (`{ ok: true }`) when the row is found with
        positive stock, which is then decremented; false (404) otherwise, and
        nothing changes. */
    method Buy(id: int) returns (ok: bool)
      modifies this
      ensures ok <==> InStock(old(stock), id)
      ensures stock == Purchase(old(stock), id)
    {
      if id !in stock || !(stock[id] > 0) {
        return false;
      }
      var current := stock[id];
      stock := stock[id := current - 1];
      ok := true;
    }

    /** `/api/chair/:id`. */
    method Show(id: int) returns (r: Option<int>)
      ensures r == Detail(stock, id)
    {
      if id !in stock {
        return None;
      }
      var row := stock[id];
      if row <= 0 {
        return None;
      }
      r := Some(row);
    }
  }
}
