/**
 The furnace tables: batches by stage, and crucible rows. Row ids are positions and are
 never reused; a removed crucible leaves an empty position.
 */
module Furnace {
  import opened Wrappers
  import opened BatchLifecycle

  datatype Insertion = FieldDuplicate | PrepDuplicate | PulpDuplicate

  datatype Crucible = Crucible(
    batch: nat, sample: Option<nat>, material: Option<nat>, insertion: Option<Insertion>,
    row: int, col: int, weight: real, status: CrucibleStatus,
    lead: Option<real>, prill: Option<real>, acid: Option<real>, bead: Option<real>)

  datatype Tables = Tables(batches: seq<BatchStatus>, crucibles: seq<Option<Crucible>>)

  predicate Live(f: Tables, k: int) {
    0 <= k < |f.crucibles| && f.crucibles[k].Some?
  }

  function At(f: Tables, k: int): Crucible
    requires Live(f, k)
  {
    f.crucibles[k].value
  }

  predicate Holds(f: Tables, batch: nat, k: int) {
    Live(f, k) && At(f, k).batch == batch
  }

  predicate Loaded(f: Tables, batch: nat) {
    exists k :: 0 <= k < |f.crucibles| && Holds(f, batch, k)
  }

  predicate TakesSlot(f: Tables, batch: nat, row: int, col: int, k: int) {
    Holds(f, batch, k) && At(f, k).row == row && At(f, k).col == col
  }

  predicate Occupied(f: Tables, batch: nat, row: int, col: int) {
    exists k :: 0 <= k < |f.crucibles| && TakesSlot(f, batch, row, col, k)
  }

  predicate IsPrimaryOf(f: Tables, batch: nat, sample: nat, k: int) {
    Holds(f, batch, k) && At(f, k).sample == Some(sample) && At(f, k).insertion.None?
  }

  predicate HasPrimary(f: Tables, batch: nat, sample: nat) {
    exists k :: 0 <= k < |f.crucibles| && IsPrimaryOf(f, batch, sample, k)
  }

  // ----- The four ways the tables change ------------------------------------------------

  function Place(f: Tables, c: Crucible): Tables {
    f.(crucibles := f.crucibles + [Some(c)])
  }

  function Remove(f: Tables, k: nat): Tables
    requires Live(f, k)
  {
    f.(crucibles := f.crucibles[k := None])
  }

  function Measure(f: Tables, k: nat, c: Crucible): Tables
    requires Live(f, k)
  {
    f.(crucibles := f.crucibles[k := Some(c)])
  }

  function Moved(row: Option<Crucible>, batch: nat, bulk: Option<CrucibleStatus>): Option<Crucible> {
    if row.Some? && row.value.batch == batch && bulk.Some? then Some(row.value.(status := bulk.value)) else row
  }

  function MovedAll(rows: seq<Option<Crucible>>, batch: nat, bulk: Option<CrucibleStatus>): seq<Option<Crucible>> {
    seq(|rows|, k requires 0 <= k < |rows| => Moved(rows[k], batch, bulk))
  }

  function Advance(f: Tables, batch: nat, target: BatchStatus): Tables
    requires batch < |f.batches|
  {
    Tables(f.batches[batch := target], MovedAll(f.crucibles, batch, BulkStatus(target)))
  }

  function Parting(c: Crucible, lead: real, prill: real, acid: real): Crucible {
    c.(status := Parted, lead := Some(lead), prill := Some(prill), acid := Some(acid))
  }

  function Weighing(c: Crucible, bead: real): Crucible {
    c.(status := Weighed, bead := Some(bead))
  }

  // ----- The invariant ----------------------------------------------------------------------

  predicate Positive(v: Option<real>) {
    v.Some? && v.value > 0.0
  }

  /** Each measurement is there exactly from the act that witnessed it. */
  predicate Measured(c: Crucible) {
    && (if CrucibleRank(c.status) >= 4 then Positive(c.lead) && Positive(c.prill) && Positive(c.acid)
        else c.lead.None? && c.prill.None? && c.acid.None?)
    && (if c.status == Weighed then c.bead.Some? && c.bead.value >= 0.0 else c.bead.None?)
  }

  predicate RowOk(c: Crucible, batches: seq<BatchStatus>) {
    && c.batch < |batches| && StageAgrees(batches[c.batch], c.status)
    && (c.sample.Some? != c.material.Some?)
    && (c.insertion.Some? ==> c.sample.Some?)
    && c.weight > 0.0 && c.row > 0 && c.col > 0
    && Measured(c)
  }

  ghost predicate RowsOk(f: Tables) {
    forall k :: Live(f, k) ==> RowOk(At(f, k), f.batches)
  }

  ghost predicate SlotsDistinct(f: Tables) {
    forall j, k :: Live(f, j) && Live(f, k) && j != k && At(f, j).batch == At(f, k).batch
      ==> At(f, j).row != At(f, k).row || At(f, j).col != At(f, k).col
  }

  ghost predicate OnePrimary(f: Tables) {
    forall j, k :: (Live(f, j) && Live(f, k) && j != k && At(f, j).batch == At(f, k).batch
        && At(f, j).insertion.None? && At(f, k).insertion.None? && At(f, j).sample.Some?)
      ==> At(f, j).sample != At(f, k).sample
  }

  ghost predicate FiredLoaded(f: Tables) {
    forall b :: 0 <= b < |f.batches| && StageRank(f.batches[b]) >= 2 ==> Loaded(f, b)
  }

  ghost predicate Inv(f: Tables) {
    RowsOk(f) && SlotsDistinct(f) && OnePrimary(f) && FiredLoaded(f)
  }

  // ----- Each change keeps it ------------------------------------------------------------------

  lemma OpenBatchKeepsInv(f: Tables)
    requires Inv(f)
    ensures Inv(f.(batches := f.batches + [Pending]))
  {
    var g := f.(batches := f.batches + [Pending]);
    forall k | Live(g, k) ensures RowOk(At(g, k), g.batches) {
      assert Live(f, k) && At(g, k) == At(f, k);
    }
    forall b | 0 <= b < |g.batches| && StageRank(g.batches[b]) >= 2 ensures Loaded(g, b) {
      assert Loaded(f, b);
      var k :| 0 <= k < |f.crucibles| && Holds(f, b, k);
      assert Holds(g, b, k);
    }
    forall j, k | Live(g, j) && Live(g, k) && j != k && At(g, j).batch == At(g, k).batch
      ensures At(g, j).row != At(g, k).row || At(g, j).col != At(g, k).col
    {
      assert Live(f, j) && Live(f, k);
    }
    OnePrimaryFrame(f, g);
  }

  /** Rows of g that are rows of f with the same charge keep both uniqueness rules. */
  ghost predicate SameCharges(f: Tables, g: Tables) {
    forall k :: Live(g, k) ==> Live(f, k) && SameCharge(At(f, k), At(g, k))
  }

  predicate SameCharge(c: Crucible, d: Crucible) {
    && c.batch == d.batch && c.sample == d.sample && c.material == d.material && c.insertion == d.insertion
    && c.row == d.row && c.col == d.col && c.weight == d.weight
  }

  lemma OnePrimaryFrame(f: Tables, g: Tables)
    requires SameCharges(f, g) && OnePrimary(f)
    ensures OnePrimary(g)
  {
  }

  lemma SlotsFrame(f: Tables, g: Tables)
    requires SameCharges(f, g) && SlotsDistinct(f)
    ensures SlotsDistinct(g)
  {
  }

  predicate MayPlace(f: Tables, c: Crucible) {
    && c.batch < |f.batches| && f.batches[c.batch] == Charging && RowOk(c, f.batches)
    && !Occupied(f, c.batch, c.row, c.col)
    && (c.sample.Some? && c.insertion.None? ==> !HasPrimary(f, c.batch, c.sample.value))
  }

  lemma PlaceKeepsInv(f: Tables, c: Crucible)
    requires Inv(f) && MayPlace(f, c)
    ensures Inv(Place(f, c))
  {
    var g, n := Place(f, c), |f.crucibles|;
    forall k | Live(g, k) ensures RowOk(At(g, k), g.batches) {
      assert k < n ==> Live(f, k) && At(g, k) == At(f, k);
    }
    forall b | 0 <= b < |g.batches| && StageRank(g.batches[b]) >= 2 ensures Loaded(g, b) {
      assert Loaded(f, b);
      var k :| 0 <= k < |f.crucibles| && Holds(f, b, k);
      assert Holds(g, b, k);
    }
    forall j, k | Live(g, j) && Live(g, k) && j != k && At(g, j).batch == At(g, k).batch
      ensures At(g, j).row != At(g, k).row || At(g, j).col != At(g, k).col
    {
      PlacePair(f, c, j, k);
    }
    forall j, k | (Live(g, j) && Live(g, k) && j != k && At(g, j).batch == At(g, k).batch
        && At(g, j).insertion.None? && At(g, k).insertion.None? && At(g, j).sample.Some?)
      ensures At(g, j).sample != At(g, k).sample
    {
      PlacePair(f, c, j, k);
    }
  }

  lemma PlacePair(f: Tables, c: Crucible, j: int, k: int)
    requires SlotsDistinct(f) && OnePrimary(f) && MayPlace(f, c)
    requires Live(Place(f, c), j) && Live(Place(f, c), k) && j != k
    requires At(Place(f, c), j).batch == At(Place(f, c), k).batch
    ensures var x, y := At(Place(f, c), j), At(Place(f, c), k);
      (x.row != y.row || x.col != y.col)
      && (x.insertion.None? && y.insertion.None? && x.sample.Some? ==> x.sample != y.sample)
  {
    var n := |f.crucibles|;
    if j < n && k < n {
      assert Live(f, j) && Live(f, k);
    } else {
      var other := if j < n then j else k;
      assert Live(f, other);
      assert !TakesSlot(f, c.batch, c.row, c.col, other);
      assert c.sample.Some? && c.insertion.None? ==> !IsPrimaryOf(f, c.batch, c.sample.value, other);
    }
  }

  lemma RemoveKeepsInv(f: Tables, k: nat)
    requires Inv(f) && Live(f, k) && f.batches[At(f, k).batch] == Charging
    ensures Inv(Remove(f, k))
  {
    var g := Remove(f, k);
    assert SameCharges(f, g);
    SlotsFrame(f, g);
    OnePrimaryFrame(f, g);
    forall i | Live(g, i) ensures RowOk(At(g, i), g.batches) {
      assert Live(f, i) && At(f, i) == At(g, i);
    }
    forall b | 0 <= b < |g.batches| && StageRank(g.batches[b]) >= 2 ensures Loaded(g, b) {
      assert Loaded(f, b);
      var i :| 0 <= i < |f.crucibles| && Holds(f, b, i);
      assert Holds(g, b, i);
    }
  }

  lemma MeasureKeepsInv(f: Tables, k: nat, c: Crucible)
    requires Inv(f) && Live(f, k) && SameCharge(At(f, k), c) && RowOk(c, f.batches)
    ensures Inv(Measure(f, k, c))
  {
    var g := Measure(f, k, c);
    assert SameCharges(f, g);
    SlotsFrame(f, g);
    OnePrimaryFrame(f, g);
    forall i | Live(g, i) ensures RowOk(At(g, i), g.batches) {
      assert Live(f, i) && (i != k ==> At(f, i) == At(g, i));
    }
    LoadedFrame(f, g);
  }

  lemma LoadedFrame(f: Tables, g: Tables)
    requires FiredLoaded(f) && |g.batches| == |f.batches|
    requires forall k :: Live(f, k) ==> Live(g, k) && At(g, k).batch == At(f, k).batch
    requires forall b ::
      0 <= b < |g.batches| && StageRank(g.batches[b]) >= 2 ==> StageRank(f.batches[b]) >= 2 || Loaded(f, b)
    ensures FiredLoaded(g)
  {
    forall b | 0 <= b < |g.batches| && StageRank(g.batches[b]) >= 2 ensures Loaded(g, b) {
      assert Loaded(f, b);
      var i :| 0 <= i < |f.crucibles| && Holds(f, b, i);
      assert Holds(g, b, i);
    }
  }

  /** A legal advance, which the service only lets into fusion with something in the tray. */
  predicate MayAdvance(f: Tables, b: nat, target: BatchStatus) {
    && b < |f.batches| && NextStage(f.batches[b]) == Some(target)
    && (target == InFusion ==> Loaded(f, b))
  }

  lemma AdvanceKeepsInv(f: Tables, b: nat, target: BatchStatus)
    requires Inv(f) && MayAdvance(f, b, target)
    ensures Inv(Advance(f, b, target))
  {
    var g := Advance(f, b, target);
    AdvanceRows(f, b, target);
    SlotsFrame(f, g);
    OnePrimaryFrame(f, g);
    forall k | Live(g, k) ensures RowOk(At(g, k), g.batches) {
      assert Live(f, k) && RowOk(At(f, k), f.batches);
      if At(f, k).batch == b {
        BulkKeepsAgreement(f.batches[b], target, At(f, k).status);
      }
    }
    LoadedFrame(f, g);
  }

  lemma AdvanceRows(f: Tables, b: nat, target: BatchStatus)
    requires b < |f.batches|
    ensures SameCharges(f, Advance(f, b, target))
    ensures forall k :: Live(f, k) ==>
      Live(Advance(f, b, target), k) && SameCharge(At(f, k), At(Advance(f, b, target), k))
  {
  }
}
