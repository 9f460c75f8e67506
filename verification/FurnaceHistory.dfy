/** How one state of the furnace tables relates to any later one, and the work left in a fired batch. */
module FurnaceHistory {
  import opened Wrappers
  import opened BatchLifecycle
  import opened Furnace

  /** A measurement, once there, is the same ever after. */
  predicate Kept(before: Option<real>, after: Option<real>) {
    before.Some? ==> after == before
  }

  /** The same charge, no further back, with every earlier measurement untouched. */
  predicate Progressed(c: Crucible, d: Crucible) {
    && SameCharge(c, d) && CrucibleRank(c.status) <= CrucibleRank(d.status)
    && Kept(c.lead, d.lead) && Kept(c.prill, d.prill) && Kept(c.acid, d.acid) && Kept(c.bead, d.bead)
  }

  predicate Fired(f: Tables, b: nat) {
    b < |f.batches| && StageRank(f.batches[b]) >= 2
  }

  ghost predicate BatchesFollow(f: Tables, g: Tables) {
    && |f.batches| <= |g.batches| && |f.crucibles| <= |g.crucibles|
    && forall b :: 0 <= b < |f.batches| ==> StageRank(f.batches[b]) <= StageRank(g.batches[b])
  }

  ghost predicate RowsFollow(f: Tables, g: Tables) {
    forall k :: Live(g, k) && k < |f.crucibles| ==> Live(f, k) && Progressed(At(f, k), At(g, k))
  }

  ghost predicate FiredRowsStay(f: Tables, g: Tables) {
    forall k :: Live(f, k) && Fired(f, At(f, k).batch) ==> Live(g, k)
  }

  ghost predicate NoRowsAddedToFired(f: Tables, g: Tables) {
    forall k :: Live(g, k) && Fired(f, At(g, k).batch) ==> k < |f.crucibles|
  }

  ghost predicate Follows(f: Tables, g: Tables) {
    BatchesFollow(f, g) && RowsFollow(f, g) && FiredRowsStay(f, g) && NoRowsAddedToFired(f, g)
  }

  lemma FollowsRefl(f: Tables)
    ensures Follows(f, f)
  {
  }

  lemma FollowsTrans(f: Tables, g: Tables, h: Tables)
    requires Follows(f, g) && Follows(g, h)
    ensures Follows(f, h)
  {
  }

  lemma OpenBatchFollows(f: Tables)
    requires Inv(f)
    ensures Follows(f, f.(batches := f.batches + [Pending]))
  {
  }

  lemma PlaceFollows(f: Tables, c: Crucible)
    requires Inv(f) && MayPlace(f, c)
    ensures Follows(f, Place(f, c))
  {
  }

  lemma RemoveFollows(f: Tables, k: nat)
    requires Inv(f) && Live(f, k) && f.batches[At(f, k).batch] == Charging
    ensures Follows(f, Remove(f, k))
  {
  }

  lemma MeasureFollows(f: Tables, k: nat, c: Crucible)
    requires Live(f, k) && Progressed(At(f, k), c)
    ensures Follows(f, Measure(f, k, c))
  {
  }

  lemma AdvanceFollows(f: Tables, b: nat, target: BatchStatus)
    requires Inv(f) && MayAdvance(f, b, target)
    ensures Follows(f, Advance(f, b, target))
  {
    var g := Advance(f, b, target);
    LegalMoveRanks(f.batches[b], target);
    AdvanceRows(f, b, target);
    forall k | Live(g, k) ensures Live(f, k) && Progressed(At(f, k), At(g, k)) {
      assert g.crucibles[k] == Moved(f.crucibles[k], b, BulkStatus(target));
      assert RowOk(At(f, k), f.batches);
      if At(f, k).batch == b {
        BulkKeepsAgreement(f.batches[b], target, At(f, k).status);
      }
    }
  }

  lemma LegalMoveRanks(source: BatchStatus, target: BatchStatus)
    requires NextStage(source) == Some(target)
    ensures StageRank(target) == StageRank(source) + 1
  {
  }

  /** The crucibles of a batch are the same ones in every state after charging ended. */
  lemma TrayIsFixed(f: Tables, g: Tables, b: nat, k: int)
    requires Follows(f, g) && Fired(f, b)
    ensures Holds(f, b, k) <==> Holds(g, b, k)
  {
  }

  // ----- The work left in a fired batch -------------------------------------------------------

  function RowWork(row: Option<Crucible>, b: nat): nat {
    if row.Some? && row.value.batch == b then 6 - CrucibleRank(row.value.status) else 0
  }

  function TrayWork(rows: seq<Option<Crucible>>, b: nat): nat {
    if rows == [] then 0 else RowWork(rows[0], b) + TrayWork(rows[1..], b)
  }

  /** Furnace stages still to come plus the moves left to each crucible in the tray. */
  function Remaining(f: Tables, b: nat): nat
    requires b < |f.batches|
  {
    6 - StageRank(f.batches[b]) + TrayWork(f.crucibles, b)
  }

  lemma {:induction false} TrayWorkPointwise(rows: seq<Option<Crucible>>, later: seq<Option<Crucible>>, b: nat)
    requires |rows| == |later|
    requires forall k :: 0 <= k < |rows| ==> RowWork(later[k], b) <= RowWork(rows[k], b)
    ensures TrayWork(later, b) <= TrayWork(rows, b)
    ensures (exists k :: 0 <= k < |rows| && RowWork(later[k], b) < RowWork(rows[k], b))
      ==> TrayWork(later, b) < TrayWork(rows, b)
  {
    if rows != [] {
      assert forall k :: 0 <= k < |rows| - 1 ==> rows[1..][k] == rows[k + 1] && later[1..][k] == later[k + 1];
      TrayWorkPointwise(rows[1..], later[1..], b);
      forall k | 0 <= k < |rows| && RowWork(later[k], b) < RowWork(rows[k], b)
        ensures TrayWork(later, b) < TrayWork(rows, b)
      {
        if k > 0 {
          assert later[k] == later[1..][k - 1] && rows[k] == rows[1..][k - 1];
        }
      }
    }
  }

  lemma {:induction false} TrayWorkAppend(rows: seq<Option<Crucible>>, row: Option<Crucible>, b: nat)
    ensures TrayWork(rows + [row], b) == TrayWork(rows, b) + RowWork(row, b)
  {
    if rows == [] {
      assert rows + [row] == [row];
    } else {
      TrayWorkAppend(rows[1..], row, b);
      assert (rows + [row])[1..] == rows[1..] + [row];
    }
  }

  lemma AdvanceLowersWork(f: Tables, b: nat, target: BatchStatus)
    requires Inv(f) && MayAdvance(f, b, target)
    ensures Remaining(Advance(f, b, target), b) < Remaining(f, b)
  {
    var g := Advance(f, b, target);
    LegalMoveRanks(f.batches[b], target);
    forall k | 0 <= k < |f.crucibles| ensures RowWork(g.crucibles[k], b) <= RowWork(f.crucibles[k], b) {
      if Live(f, k) && At(f, k).batch == b {
        assert RowOk(At(f, k), f.batches);
        BulkKeepsAgreement(f.batches[b], target, At(f, k).status);
      }
    }
    TrayWorkPointwise(f.crucibles, g.crucibles, b);
  }

  lemma MeasureLowersWork(f: Tables, k: nat, c: Crucible)
    requires Inv(f) && Live(f, k) && c.batch == At(f, k).batch
    requires CrucibleRank(At(f, k).status) < CrucibleRank(c.status) <= 6
    ensures At(f, k).batch < |f.batches|
    ensures Remaining(Measure(f, k, c), At(f, k).batch) < Remaining(f, At(f, k).batch)
  {
    var g, b := Measure(f, k, c), At(f, k).batch;
    assert RowOk(At(f, k), f.batches);
    TrayWorkPointwise(f.crucibles, g.crucibles, b);
    assert RowWork(g.crucibles[k], b) < RowWork(f.crucibles[k], b);
  }

  /** Nothing done elsewhere adds work to a fired batch. */
  lemma OtherWorkKeeps(f: Tables, g: Tables, b: nat)
    requires Inv(f) && Follows(f, g) && Fired(f, b)
    ensures Remaining(g, b) <= Remaining(f, b)
  {
    var kept, added := g.crucibles[..|f.crucibles|], g.crucibles[|f.crucibles|..];
    forall k | 0 <= k < |f.crucibles| ensures RowWork(kept[k], b) <= RowWork(f.crucibles[k], b) {
      assert kept[k] == g.crucibles[k];
      assert kept[k].Some? ==> Live(g, k);
    }
    TrayWorkPointwise(f.crucibles, kept, b);
    forall k | 0 <= k < |added| ensures RowWork(added[k], b) == 0 {
      assert added[k] == g.crucibles[|f.crucibles| + k];
      assert added[k].Some? ==> Live(g, |f.crucibles| + k);
    }
    IdleTail(kept, added, b);
    assert kept + added == g.crucibles;
  }

  lemma {:induction false} IdleTail(rows: seq<Option<Crucible>>, idle: seq<Option<Crucible>>, b: nat)
    requires forall k :: 0 <= k < |idle| ==> RowWork(idle[k], b) == 0
    ensures TrayWork(rows + idle, b) == TrayWork(rows, b)
    decreases |idle|
  {
    if idle == [] {
      assert rows + idle == rows;
    } else {
      var n := |idle| - 1;
      assert forall k :: 0 <= k < n ==> idle[..n][k] == idle[k];
      IdleTail(rows, idle[..n], b);
      TrayWorkAppend(rows + idle[..n], idle[n], b);
      assert rows + idle == rows + idle[..n] + [idle[n]];
    }
  }
}
