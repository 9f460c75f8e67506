/** Runs that lead from empty tables to a state in which the code falls short of what it promises. */
module LabExamples {
  import opened Wrappers
  import opened Lifecycle
  import opened BatchLifecycle
  import opened Chains
  import opened LabTables
  import opened Decimals
  import opened Silver
  import opened Assay
  import F = Furnace
  import opened LabInvariant
  import opened LabRuns
  import opened LabTheorems
  import B = BatchService
  import R = ResultService
  import opened QcDossier
  import opened TrayQueries

  const REF: Reference := Reference(4, 4, 1, [], [30.0], [])

  /** One pulp of one client, the batches, and the crucible rows. */
  function Tables(status: Status, batches: seq<BatchStatus>, crucibles: seq<Option<F.Crucible>>): Db {
    Db([SampleRow(0, Pulp, None, status)], F.Tables(batches, crucibles), [], [], [])
  }

  function Slot(col: int, insertion: Option<F.Insertion>, status: CrucibleStatus): Option<F.Crucible> {
    Some(F.Crucible(0, Some(0), None, insertion, 1, col, 30.0, status, None, None, None, None))
  }

  /** The primary charge and a pulp duplicate of it, side by side. */
  function Pair(status: CrucibleStatus): seq<Option<F.Crucible>> {
    [Slot(1, None, status), Slot(2, Some(F.PulpDuplicate), status)]
  }

  function Serve(op: Op): Event {
    Event(REF, op)
  }

  function ChargeOp(col: int, insertion: Option<F.Insertion>): Op {
    Op.Charge(B.ChargeRequest(0, Some(0), None, insertion, 0, 1, col, 30.0), LabManager)
  }

  lemma Received()
    ensures Apply(EMPTY, Serve(Receive(0, Pulp, None, LabManager))) == Ok(Tables(Status.Received, [], []))
  {
    var b := Apply(EMPTY, Serve(Receive(0, Pulp, None, LabManager))).value;
    assert b.samples == [SampleRow(0, Pulp, None, Status.Received)];
  }

  lemma MadeReady()
    ensures Apply(Tables(Status.Received, [], []), Serve(MoveSample(0, ReadyForAssay, None, LabManager)))
         == Ok(Tables(ReadyForAssay, [], []))
  {
    AllowedIff(Status.Received, ReadyForAssay, Pulp, LabManager, None);
    var a := Tables(Status.Received, [], []);
    assert SetStatus(a.samples, 0, ReadyForAssay) == Tables(ReadyForAssay, [], []).samples;
  }

  lemma Opened()
    ensures Apply(Tables(ReadyForAssay, [], []), Serve(OpenBatch(None, LabManager)))
         == Ok(Tables(ReadyForAssay, [Pending], []))
  {
    assert Tables(ReadyForAssay, [], []).furnace.batches + [Pending] == [Pending];
  }

  lemma OpenedForCharging()
    ensures Apply(Tables(ReadyForAssay, [Pending], []), Serve(Advance(0, Charging, LabManager)))
         == Ok(Tables(ReadyForAssay, [Charging], []))
  {
    var f := Tables(ReadyForAssay, [Pending], []).furnace;
    assert f.batches[0 := Charging] == [Charging];
    assert F.MovedAll(f.crucibles, 0, None) == [];
  }

  lemma ChargedPrimary()
    ensures Apply(Tables(ReadyForAssay, [Charging], []), Serve(ChargeOp(1, None)))
         == Ok(Tables(InAssay, [Charging], [Slot(1, None, CrucibleStatus.Charged)]))
  {
    var a := Tables(ReadyForAssay, [Charging], []);
    var q := ChargeOp(1, None).charge;
    B.ChargeIff(a, REF, q, LabManager);
    assert SetStatus(a.samples, 0, InAssay) == Tables(InAssay, [], []).samples;
    assert a.furnace.crucibles + [Some(B.NewCrucible(q))] == [Slot(1, None, CrucibleStatus.Charged)];
  }

  lemma ChargedDuplicate()
    ensures Apply(Tables(InAssay, [Charging], [Slot(1, None, CrucibleStatus.Charged)]),
                  Serve(ChargeOp(2, Some(F.PulpDuplicate))))
         == Ok(Tables(InAssay, [Charging], Pair(CrucibleStatus.Charged)))
  {
    var a := Tables(InAssay, [Charging], [Slot(1, None, CrucibleStatus.Charged)]);
    var q := ChargeOp(2, Some(F.PulpDuplicate)).charge;
    B.ChargeIff(a, REF, q, LabManager);
    assert a.furnace.crucibles + [Some(B.NewCrucible(q))] == Pair(CrucibleStatus.Charged);
  }

  lemma AdvancedTray(stage: BatchStatus, next: BatchStatus, before: CrucibleStatus)
    ensures var f := Tables(InAssay, [stage], Pair(before)).furnace;
      var after := if BulkStatus(next).Some? then BulkStatus(next).value else before;
      F.Loaded(f, 0) && F.Advance(f, 0, next) == Tables(InAssay, [next], Pair(after)).furnace
  {
    var f := Tables(InAssay, [stage], Pair(before)).furnace;
    var after := if BulkStatus(next).Some? then BulkStatus(next).value else before;
    assert F.Holds(f, 0, 0);
    assert F.MovedAll(f.crucibles, 0, BulkStatus(next)) == Pair(after);
    assert f.batches[0 := next] == [next];
  }

  lemma Advanced(stage: BatchStatus, next: BatchStatus, before: CrucibleStatus)
    requires NextStage(stage) == Some(next) && next != Charging
    ensures var after := if BulkStatus(next).Some? then BulkStatus(next).value else before;
      Apply(Tables(InAssay, [stage], Pair(before)), Serve(Advance(0, next, LabManager)))
      == Ok(Tables(InAssay, [next], Pair(after)))
  {
    AdvancedTray(stage, next, before);
  }

  /** The run so far, and the state it led to, with one more request granted. */
  lemma Next(events: seq<Event>, a: Db, op: Op, b: Db) returns (longer: seq<Event>)
    requires Run(EMPTY, events) == a && Apply(a, Serve(op)) == Ok(b)
    ensures Run(EMPTY, longer) == b
  {
    longer := events + [Serve(op)];
    assert longer[..|events|] == events;
  }

  lemma ChargedRun() returns (events: seq<Event>)
    ensures Run(EMPTY, events) == Tables(InAssay, [Charging], [Slot(1, None, CrucibleStatus.Charged)])
  {
    Received();
    MadeReady();
    Opened();
    OpenedForCharging();
    ChargedPrimary();
    var received, ready := Tables(Status.Received, [], []), Tables(ReadyForAssay, [], []);
    var pending, charging := Tables(ReadyForAssay, [Pending], []), Tables(ReadyForAssay, [Charging], []);
    var charged := Tables(InAssay, [Charging], [Slot(1, None, CrucibleStatus.Charged)]);
    events := Next([], EMPTY, Receive(0, Pulp, None, LabManager), received);
    events := Next(events, received, MoveSample(0, ReadyForAssay, None, LabManager), ready);
    events := Next(events, ready, OpenBatch(None, LabManager), pending);
    events := Next(events, pending, Advance(0, Charging, LabManager), charging);
    events := Next(events, charging, ChargeOp(1, None), charged);
  }

  lemma Fire(events: seq<Event>, stage: BatchStatus, next: BatchStatus, before: CrucibleStatus, after: CrucibleStatus)
    returns (longer: seq<Event>)
    requires Run(EMPTY, events) == Tables(InAssay, [stage], Pair(before))
    requires NextStage(stage) == Some(next) && next != Charging
    requires after == if BulkStatus(next).Some? then BulkStatus(next).value else before
    ensures Run(EMPTY, longer) == Tables(InAssay, [next], Pair(after))
  {
    Advanced(stage, next, before);
    longer := Next(events, Tables(InAssay, [stage], Pair(before)), Advance(0, next, LabManager),
                   Tables(InAssay, [next], Pair(after)));
  }

  lemma CompletedRun() returns (events: seq<Event>)
    ensures Run(EMPTY, events) == Tables(InAssay, [Completed], Pair(CrucibleCupelled))
  {
    events := ChargedRun();
    ChargedDuplicate();
    events := Next(events, Tables(InAssay, [Charging], [Slot(1, None, CrucibleStatus.Charged)]),
                   ChargeOp(2, Some(F.PulpDuplicate)), Tables(InAssay, [Charging], Pair(CrucibleStatus.Charged)));
    events := Fire(events, Charging, InFusion, CrucibleStatus.Charged, CrucibleStatus.Charged);
    events := Fire(events, InFusion, Fused, CrucibleStatus.Charged, CrucibleFused);
    events := Fire(events, Fused, InCupellation, CrucibleFused, CrucibleFused);
    events := Fire(events, InCupellation, Cupelled, CrucibleFused, CrucibleCupelled);
    events := Fire(events, Cupelled, Completed, CrucibleCupelled, CrucibleCupelled);
  }

  // ----- A dossier that cannot be built ----------------------------------------------------------

  /** In every reachable state, when the dossier of a completed batch fails to build. */
  lemma DossierFailsIff(events: seq<Event>, batch: nat, materials: seq<Material>, limits: Limits)
    requires Referenced(Run(EMPTY, events).furnace, materials) && limits.blank > 0.0 && limits.rpd > 0.0
    ensures var f := Run(EMPTY, events).furnace;
      batch < |f.batches| && f.batches[batch] == Completed ==>
        (Build(f, batch, materials, limits).Err?
         <==> (forall k :: F.Holds(f, batch, k) ==> F.At(f, k).material.None?)
              && (exists k :: DuplicateOfUngradable(f, batch, k)))
  {
    EveryRunKeepsInv(events);
    var f := Run(EMPTY, events).furnace;
    if batch < |f.batches| && f.batches[batch] == Completed {
      BuildFailsIff(f, batch, materials, limits);
    }
  }

  lemma PairCannotBePaired()
    ensures var f := Tables(InAssay, [Completed], Pair(CrucibleCupelled)).furnace;
      && Referenced(f, [])
      && (forall k :: F.Holds(f, 0, k) ==> F.At(f, k).material.None?) && DuplicateOfUngradable(f, 0, 1)
  {
    var f := Tables(InAssay, [Completed], Pair(CrucibleCupelled)).furnace;
    assert F.IsPrimaryOf(f, 0, 0, 0) && !F.IsPrimaryOf(f, 0, 0, 1);
    assert PrimaryOf(f, 0, 0, 2) == PrimaryOf(f, 0, 0, 1) == Some(0);
  }

  /** Charge a pulp and its duplicate, fire the batch to the end, weigh nothing: its dossier cannot be built. */
  lemma DossierCanFail(limits: Limits) returns (events: seq<Event>)
    requires limits.blank > 0.0 && limits.rpd > 0.0
    ensures var f := Run(EMPTY, events).furnace;
      f.batches == [Completed] && Referenced(f, []) && Build(f, 0, [], limits).Err?
  {
    events := CompletedRun();
    PairCannotBePaired();
    DossierFailsIff(events, 0, [], limits);
  }

  // ----- A silver grade its own row does not give back ---------------------------------------------

  const ENTRY: R.Entry := R.Entry(0, Some(1.0), None, None, None, None)

  function DriftingBeads(): R.Weighed {
    R.Weighed(Some(1.0), None, Some(2.0 + 1000.0 / K))
  }

  lemma DriftingEntryChecked()
    ensures R.CheckWeighed(Tables(InAssay, [Charging], [Slot(1, None, CrucibleStatus.Charged)]), REF, ENTRY,
                           DriftingBeads(), LabManager)
         == Ok(R.Weighings(1.0, 1.0, None))
  {
    var a := Tables(InAssay, [Charging], [Slot(1, None, CrucibleStatus.Charged)]);
    R.AdmitIff(a, ENTRY, LabManager);
    R.WeighingIff(a, ENTRY, Some(1.0));
    assert R.InstrumentProblems(REF, ENTRY) == [] && R.SupersessionProblems(ENTRY, None) == [];
  }

  lemma DriftingRowBuilt()
    ensures var row := R.WeighedRow(ENTRY, DriftingBeads().dore, 1.0, 1.0, None);
      row.Ok? && row.value.weight == 1.0 && row.value.finish == Gravimetric(1.0, None)
  {
    SilverDrifts();
  }

  /** What a checked gravimetric entry leaves in an empty result table. */
  lemma FirstEntry(a: Db, e: R.Entry, w: R.Weighed, m: R.Weighings, row: FireAssay)
    requires a.results == [] && R.CheckWeighed(a, REF, e, w, LabManager) == Ok(m)
    requires R.WeighedRow(e, w.dore, m.bead, m.portion, m.sensitivity) == Ok(row)
    ensures Apply(a, Serve(EnterWeighed(e, w, LabManager))).Ok?
    ensures After(a, Serve(EnterWeighed(e, w, LabManager))).results == [row]
  {
    EntryRecorded(a, e, w, m, row);
    AppliedEntry(a, e, w);
  }

  lemma EntryRecorded(a: Db, e: R.Entry, w: R.Weighed, m: R.Weighings, row: FireAssay)
    requires R.CheckWeighed(a, REF, e, w, LabManager) == Ok(m)
    requires R.WeighedRow(e, w.dore, m.bead, m.portion, m.sensitivity) == Ok(row)
    ensures R.EnterWeighed(a, REF, e, w, LabManager).Ok?
    ensures R.EnterWeighed(a, REF, e, w, LabManager).value.results == a.results + [row]
  {
    R.AdmittedSample(a, REF, e, w, LabManager);
  }

  lemma AppliedWeighing(a: Db, ref: Reference, e: R.Entry, w: R.Weighed, role: Role)
    ensures Apply(a, Event(ref, EnterWeighed(e, w, role))) == R.EnterWeighed(a, ref, e, w, role)
  {
  }

  lemma AppliedEntry(a: Db, e: R.Entry, w: R.Weighed)
    ensures Apply(a, Serve(EnterWeighed(e, w, LabManager))) == R.EnterWeighed(a, REF, e, w, LabManager)
  {
    AppliedWeighing(a, REF, e, w, LabManager);
  }

  lemma DriftingEntryGranted()
    ensures var a := Tables(InAssay, [Charging], [Slot(1, None, CrucibleStatus.Charged)]);
      var e := Serve(EnterWeighed(ENTRY, DriftingBeads(), LabManager));
      && Apply(a, e).Ok? && |After(a, e).results| == 1
      && After(a, e).results[0].weight == 1.0 && After(a, e).results[0].finish == Gravimetric(1.0, None)
  {
    var a := Tables(InAssay, [Charging], [Slot(1, None, CrucibleStatus.Charged)]);
    DriftingEntryChecked();
    DriftingRowBuilt();
    var row := R.WeighedRow(ENTRY, DriftingBeads().dore, 1.0, 1.0, None).value;
    FirstEntry(a, ENTRY, DriftingBeads(), R.Weighings(1.0, 1.0, None), row);
  }

  /** Charge a pulp, then enter beads of 1 mg and 2 + 10^-30 mg over 1 g: the stored silver grade does not repeat. */
  lemma SilverCanDrift() returns (events: seq<Event>)
    ensures var rows := Run(EMPTY, events).results;
      |rows| == 1 && rows[0].silver.Some? && !SilverRepeats(rows[0])
  {
    events := ChargedRun();
    var a, e := Run(EMPTY, events), Serve(EnterWeighed(ENTRY, DriftingBeads(), LabManager));
    DriftingEntryGranted();
    SilverOfEntry(a, e);
    SilverDrifts();
    events := Next(events, a, e.op, After(a, e));
  }
}
