/** Queries over one batch's crucibles, in the order a technician reads the tray: row by row. */
module TrayQueries {
  import opened Furnace

  /** Which crucibles of a batch a query asks for. */
  datatype Query = StockInsertions | DuplicateInsertions

  predicate Selects(q: Query, f: Tables, batch: nat, k: int) {
    Holds(f, batch, k) && if q.StockInsertions? then At(f, k).material.Some? else At(f, k).insertion.Some?
  }

  predicate SlotAtMost(c: Crucible, d: Crucible) {
    c.row < d.row || (c.row == d.row && c.col <= d.col)
  }

  predicate AllSelected(q: Query, f: Tables, batch: nat, ids: seq<nat>) {
    forall i :: 0 <= i < |ids| ==> Selects(q, f, batch, ids[i])
  }

  function InsertBySlot(q: Query, f: Tables, batch: nat, k: nat, ids: seq<nat>): (r: seq<nat>)
    requires Selects(q, f, batch, k) && AllSelected(q, f, batch, ids)
    ensures AllSelected(q, f, batch, r) && multiset(r) == multiset([k]) + multiset(ids)
  {
    if ids == [] || SlotAtMost(At(f, k), At(f, ids[0])) then [k] + ids
    else
      assert ids == [ids[0]] + ids[1..];
      [ids[0]] + InsertBySlot(q, f, batch, k, ids[1..])
  }

  function SelectBelow(q: Query, f: Tables, batch: nat, n: nat): (ids: seq<nat>)
    requires n <= |f.crucibles|
    ensures AllSelected(q, f, batch, ids)
  {
    if n == 0 then []
    else if Selects(q, f, batch, n - 1) then InsertBySlot(q, f, batch, n - 1, SelectBelow(q, f, batch, n - 1))
    else SelectBelow(q, f, batch, n - 1)
  }

  /** WHERE batch_id = ... ORDER BY position_row, position_col */
  function Select(q: Query, f: Tables, batch: nat): (ids: seq<nat>)
    ensures AllSelected(q, f, batch, ids)
  {
    SelectBelow(q, f, batch, |f.crucibles|)
  }

  // ----- The query returns each selected crucible once, in slot order ----------------------

  predicate InSlotOrder(f: Tables, ids: seq<nat>)
    requires forall i :: 0 <= i < |ids| ==> Live(f, ids[i])
  {
    forall i, j :: 0 <= i < j < |ids| ==> SlotAtMost(At(f, ids[i]), At(f, ids[j]))
  }

  lemma {:induction false} InsertInOrder(q: Query, f: Tables, batch: nat, k: nat, ids: seq<nat>)
    requires Selects(q, f, batch, k) && AllSelected(q, f, batch, ids) && InSlotOrder(f, ids)
    ensures InSlotOrder(f, InsertBySlot(q, f, batch, k, ids))
  {
    if ids != [] && !SlotAtMost(At(f, k), At(f, ids[0])) {
      var tail := InsertBySlot(q, f, batch, k, ids[1..]);
      InsertInOrder(q, f, batch, k, ids[1..]);
      forall j | 0 <= j < |tail| ensures SlotAtMost(At(f, ids[0]), At(f, tail[j])) {
        assert tail[j] in multiset(tail);
        assert tail[j] == k || tail[j] in ids[1..];
      }
    }
  }

  lemma {:induction false} SelectBelowCounts(q: Query, f: Tables, batch: nat, n: nat, k: nat)
    requires n <= |f.crucibles|
    ensures multiset(SelectBelow(q, f, batch, n))[k] == if k < n && Selects(q, f, batch, k) then 1 else 0
  {
    if n > 0 {
      SelectBelowCounts(q, f, batch, n - 1, k);
    }
  }

  lemma {:induction false} SelectBelowInOrder(q: Query, f: Tables, batch: nat, n: nat)
    requires n <= |f.crucibles|
    ensures InSlotOrder(f, SelectBelow(q, f, batch, n))
  {
    if n > 0 {
      SelectBelowInOrder(q, f, batch, n - 1);
      if Selects(q, f, batch, n - 1) {
        InsertInOrder(q, f, batch, n - 1, SelectBelow(q, f, batch, n - 1));
      }
    }
  }

  /** Every selected crucible of the batch exactly once and nothing else, in slot order. */
  lemma SelectIs(q: Query, f: Tables, batch: nat, k: nat)
    ensures multiset(Select(q, f, batch))[k] == if Selects(q, f, batch, k) then 1 else 0
    ensures k in Select(q, f, batch) <==> Selects(q, f, batch, k)
    ensures k in Select(q, f, batch) <==>
      && k < |f.crucibles| && f.crucibles[k].Some? && f.crucibles[k].value.batch == batch
      && if q == StockInsertions then f.crucibles[k].value.material.Some? else f.crucibles[k].value.insertion.Some?
    ensures InSlotOrder(f, Select(q, f, batch))
    ensures var ids := Select(q, f, batch);
      forall i, j :: 0 <= i < j < |ids| ==>
        var c, d := At(f, ids[i]), At(f, ids[j]); c.row < d.row || (c.row == d.row && c.col <= d.col)
  {
    SelectBelowCounts(q, f, batch, |f.crucibles|, k);
    SelectBelowInOrder(q, f, batch, |f.crucibles|);
    assert k in Select(q, f, batch) <==> k in multiset(Select(q, f, batch));
  }
}
