/** What the bench services guarantee over whole runs. */
module LabTheorems {
  import opened Wrappers
  import opened Lifecycle
  import opened BatchLifecycle
  import opened Units
  import opened Chains
  import opened LabTables
  import opened Decimals
  import opened Silver
  import F = Furnace
  import H = FurnaceHistory
  import opened LabInvariant
  import opened LabSteps
  import opened ResultSteps
  import opened CertificateSteps
  import opened LabRuns
  import B = BatchService
  import R = ResultService
  import E = ReadingService
  import C = CertificateService
  import X = SupersessionRace

  // ----- The furnace -------------------------------------------------------------------------

  /** Crucible statuses agree with their batch's stage, and a fired batch is not empty. */
  lemma TraysAgreeWithStages(events: seq<Event>, b: nat, k: int)
    ensures var f := Run(EMPTY, events).furnace;
      && (F.Holds(f, b, k) ==> b < |f.batches| && StageAgrees(f.batches[b], F.At(f, k).status))
      && (b < |f.batches| && StageRank(f.batches[b]) >= 2 ==> F.Loaded(f, b))
  {
    EveryRunKeepsInv(events);
    var f := Run(EMPTY, events).furnace;
    if F.Holds(f, b, k) {
      assert F.RowOk(F.At(f, k), f.batches);
    }
  }

  /** Once charging ends a batch holds the same crucibles for good, and none of them goes back. */
  lemma TrayFixedForever(events: seq<Event>, more: seq<Event>, b: nat, k: int)
    ensures var f, g := Run(EMPTY, events).furnace, Run(EMPTY, events + more).furnace;
      H.Fired(f, b) ==>
        && (F.Holds(f, b, k) <==> F.Holds(g, b, k))
        && (F.Holds(f, b, k) ==> H.Progressed(F.At(f, k), F.At(g, k)))
    ensures var f, g := Run(EMPTY, events).furnace, Run(EMPTY, events + more).furnace;
      k < |f.crucibles| && F.Live(g, k) ==> F.Live(f, k) && H.Progressed(F.At(f, k), F.At(g, k))
  {
    EveryRunKeepsInv(events);
    RunStep(EMPTY, events, more);
    RunIsLater(Run(EMPTY, events), more);
    var f, g := Run(EMPTY, events).furnace, Run(EMPTY, events + more).furnace;
    if H.Fired(f, b) {
      H.TrayIsFixed(f, g, b, k);
    }
  }

  lemma ReadyWhenCharged(a: Db, e: Event)
    requires Inv(a) && Apply(a, e).Ok? && e.op.Charge? && B.IsPrimary(e.op.charge)
    ensures e.op.charge.sample.value < |a.samples| && a.samples[e.op.charge.sample.value].status == ReadyForAssay
  {
    var q := e.op.charge;
    var s := a.samples[q.sample.value];
    MenuIsDecision(s.status, InAssay, s.kind, e.op.role, None);
    OfferedIsListed(s.status, InAssay, s.kind);
  }

  lemma RevertRestores(a: Db, q: B.ChargeRequest, b: Db)
    requires q.sample.Some? ==> q.sample.value < |a.samples|
    requires B.IsPrimary(q) ==> a.samples[q.sample.value].status == ReadyForAssay
    requires b.samples == if B.IsPrimary(q) then SetStatus(a.samples, q.sample.value, InAssay) else a.samples
    ensures B.Reverted(b, B.NewCrucible(q)) == a.samples
  {
  }

  /** Un-charging the crucible just charged restores every status and every other row; only its id is spent. */
  lemma UnchargeUndoesCharge(a: Db, e: Event, role: Role)
    requires Inv(a) && Apply(a, e).Ok? && e.op.Charge? && role != ClientRole
    ensures B.Uncharge(After(a, e), e.op.charge.batch, |a.furnace.crucibles|, role)
         == Ok(a.(furnace := a.furnace.(crucibles := a.furnace.crucibles + [None])))
  {
    var q, k := e.op.charge, |a.furnace.crucibles|;
    ChargeGranted(a, e.ref, q, e.op.role);
    ChargeStep(a, e.ref, q, e.op.role);
    if B.IsPrimary(q) {
      ReadyWhenCharged(a, e);
    }
    UnchargePlaced(a, After(a, e), q, role);
  }

  lemma UnchargePlaced(a: Db, b: Db, q: B.ChargeRequest, role: Role)
    requires Inv(b) && role != ClientRole && F.MayPlace(a.furnace, B.NewCrucible(q))
    requires q.sample.Some? ==> q.sample.value < |a.samples|
    requires B.IsPrimary(q) ==> a.samples[q.sample.value].status == ReadyForAssay
    requires b == a.(furnace := F.Place(a.furnace, B.NewCrucible(q)),
      samples := if B.IsPrimary(q) then SetStatus(a.samples, q.sample.value, InAssay) else a.samples)
    ensures B.Uncharge(b, q.batch, |a.furnace.crucibles|, role)
         == Ok(a.(furnace := a.furnace.(crucibles := a.furnace.crucibles + [None])))
  {
    var k := |a.furnace.crucibles|;
    assert F.Holds(b.furnace, q.batch, k);
    UnchargeMeetsNoResult(b, q.batch, k, role);
    RevertRestores(a, q, b);
    assert b.furnace.crucibles[k := None] == a.furnace.crucibles + [None];
  }

  /** A granted advance, parting or weighing of this batch. */
  predicate MovesBatch(db: Db, e: Event, b: nat) {
    Apply(db, e).Ok? && (e.op.Advance? || e.op.Part? || e.op.Weigh?) && e.op.batch == b
  }

  function MovesOn(db: Db, events: seq<Event>, b: nat): nat {
    if events == [] then 0
    else
      var n := |events| - 1;
      MovesOn(db, events[..n], b) + (if MovesBatch(Run(db, events[..n]), events[n], b) then 1 else 0)
  }

  lemma MoveLowersWork(a: Db, e: Event, b: nat)
    requires Inv(a) && MovesBatch(a, e, b)
    ensures b < |a.furnace.batches| == |After(a, e).furnace.batches|
    ensures H.Remaining(After(a, e).furnace, b) < H.Remaining(a.furnace, b)
  {
    match e.op {
      case Advance(_, stage, role) => AdvancingLowersWork(a, b, stage, role);
      case Part(_, k, lead, prill, acid, role) => PartingLowersWork(a, b, k, lead, prill, acid, role);
      case Weigh(_, k, bead, role) => WeighingLowersWork(a, b, k, bead, role);
    }
  }

  lemma AdvancingLowersWork(a: Db, b: nat, stage: BatchStatus, role: Role)
    requires Inv(a) && B.AdvanceBatch(a, b, stage, role).Ok?
    ensures var f := B.AdvanceBatch(a, b, stage, role).value.furnace;
      b < |a.furnace.batches| == |f.batches| && H.Remaining(f, b) < H.Remaining(a.furnace, b)
  {
    H.AdvanceLowersWork(a.furnace, b, stage);
  }

  lemma PartingLowersWork(a: Db, b: nat, k: nat, lead: real, prill: real, acid: real, role: Role)
    requires Inv(a) && B.RecordParting(a, b, k, lead, prill, acid, role).Ok?
    ensures var f := B.RecordParting(a, b, k, lead, prill, acid, role).value.furnace;
      b < |a.furnace.batches| == |f.batches| && H.Remaining(f, b) < H.Remaining(a.furnace, b)
  {
    H.MeasureLowersWork(a.furnace, k, F.Parting(F.At(a.furnace, k), lead, prill, acid));
  }

  lemma WeighingLowersWork(a: Db, b: nat, k: nat, bead: real, role: Role)
    requires Inv(a) && B.RecordWeighing(a, b, k, bead, role).Ok?
    ensures var f := B.RecordWeighing(a, b, k, bead, role).value.furnace;
      b < |a.furnace.batches| == |f.batches| && H.Remaining(f, b) < H.Remaining(a.furnace, b)
  {
    H.MeasureLowersWork(a.furnace, k, F.Weighing(F.At(a.furnace, k), bead));
  }

  /** The work left in a fired batch bounds how often it can still be moved, whatever else the lab does. */
  lemma {:induction false} MovesAreBounded(a: Db, events: seq<Event>, b: nat)
    requires Inv(a) && H.Fired(a.furnace, b)
    ensures b < |Run(a, events).furnace.batches|
    ensures MovesOn(a, events, b) + H.Remaining(Run(a, events).furnace, b) <= H.Remaining(a.furnace, b)
  {
    if events != [] {
      var n := |events| - 1;
      var mid := Run(a, events[..n]);
      MovesAreBounded(a, events[..n], b);
      RunIsLater(a, events[..n]);
      EveryStep(mid, events[n]);
      H.OtherWorkKeeps(mid.furnace, After(mid, events[n]).furnace, b);
      if MovesBatch(mid, events[n], b) {
        MoveLowersWork(mid, events[n], b);
      }
    }
  }

  /** What a bench request recorded about a crucible, as it must read ever after. */
  predicate ReadsAsRecorded(op: Op, k: nat, c: F.Crucible) {
    match op
    case Part(_, crucible, lead, prill, acid, _) =>
      crucible == k ==> c.lead == Some(lead) && c.prill == Some(prill) && c.acid == Some(acid)
    case Weigh(_, crucible, bead, _) => crucible == k ==> c.bead == Some(bead)
    case Charge(q, _) =>
      && c.batch == q.batch && c.sample == q.sample && c.material == q.material && c.insertion == q.insertion
      && c.row == q.row && c.col == q.col && c.weight == q.weight
    case _ => true
  }

  lemma RecordedNow(a: Db, e: Event, k: nat)
    requires Apply(a, e).Ok? && (e.op.Part? || e.op.Weigh? || e.op.Charge?)
    requires F.Live(After(a, e).furnace, k) && (e.op.Charge? ==> k == |a.furnace.crucibles|)
    ensures ReadsAsRecorded(e.op, k, F.At(After(a, e).furnace, k))
  {
  }

  /** What was charged, parted or weighed reads the same in every later state. */
  lemma RecordedForever(a: Db, e: Event, more: seq<Event>, k: nat)
    requires Inv(a) && Apply(a, e).Ok? && (e.op.Part? || e.op.Weigh? || e.op.Charge?)
    requires k < |After(a, e).furnace.crucibles| && (e.op.Charge? ==> k == |a.furnace.crucibles|)
    ensures F.Live(Run(After(a, e), more).furnace, k) ==>
      ReadsAsRecorded(e.op, k, F.At(Run(After(a, e), more).furnace, k))
  {
    EveryStep(a, e);
    RunIsLater(After(a, e), more);
    var f, g := After(a, e).furnace, Run(After(a, e), more).furnace;
    if F.Live(g, k) {
      assert F.Live(f, k) && H.Progressed(F.At(f, k), F.At(g, k));
      RecordedNow(a, e, k);
    }
  }

  /** No portion charged exceeds the weight received for its sample. */
  lemma PortionsWithinReceived(events: seq<Event>, k: nat)
    ensures var db := Run(EMPTY, events);
      F.Live(db.furnace, k) ==> CrucibleNamed(F.At(db.furnace, k), db.samples)
  {
    EveryRunKeepsInv(events);
  }

  // ----- Fire assay results ---------------------------------------------------------------------

  /** Each sample's results are one linear chain in id order, whose only head is the current result. */
  lemma ResultsFormOneChain(events: seq<Event>, sample: nat, i: nat)
    ensures var db := Run(EMPTY, events);
      var links := ResultLinks(db.results);
      && (i < |db.results| ==> db.results[i].supersedes == LastOf(links[..i], db.results[i].sample))
      && CurrentResult(db.results, sample) == LastOf(links, sample)
      && (IsHead(links, sample, i) <==> CurrentResult(db.results, sample) == Some(i))
      && (CurrentResult(db.results, sample).Some? && i < |db.results| ==>
            var head := CurrentResult(db.results, sample).value;
            head < |links| && (i in ChainOf(links, head) <==> db.results[i].sample == sample))
  {
    EveryRunKeepsInv(events);
    var db := Run(EMPTY, events);
    var links := ResultLinks(db.results);
    CurrentIsLast(links, sample);
    if i < |db.results| {
      LinksToPrevious(links, i);
      if CurrentResult(db.results, sample).Some? {
        CurrentChainIsWhole(links, sample, i);
      }
    }
  }

  /** Requests served one at a time lead only to tables whose chains are sound: where the race of two begins. */
  lemma TablesAreChained(events: seq<Event>)
    ensures var db := Run(EMPTY, events);
      && X.Chained(X.FIRE_ASSAY, ResultLinks(db.results))
      && X.Chained(X.MULTI_ELEMENT, ReadingLinks(db.readings))
      && X.Chained(X.CERTIFICATE, CertificateLinks(db.certificates))
  {
    EveryRunKeepsInv(events);
  }

  /** A stored result is reproducible and backed by its crucible, then and in every later state. */
  lemma ResultsStayReproducible(events: seq<Event>, more: seq<Event>, i: nat)
    ensures var a, b := Run(EMPTY, events), Run(EMPTY, events + more);
      i < |a.results| ==>
        i < |b.results| && b.results[i] == a.results[i] && Recomputes(b.results[i]) && Backed(b.results[i], b.furnace)
  {
    EveryRunKeepsInv(events);
    EveryRunKeepsInv(events + more);
    RunStep(EMPTY, events, more);
    RunIsLater(Run(EMPTY, events), more);
  }

  /** Computing the silver grade again from the row's own stored beads and portion gives the stored one. */
  predicate SilverRepeats(r: FireAssay) {
    r.finish.Gravimetric? && r.silverBead.Some? && r.silver.Some?
    && SilverAgain(r.finish.bead, r.silverBead.value, r.weight) == Ok(r.silver.value)
  }

  /** The two silver weights that decide it: the difference at 34 digits, and as stored. */
  predicate SilverWeightsAgree(dore: real, bead: real, weight: real)
    requires weight > 0.0
  {
    var s := Round(dore - bead);
    FitsIn(Default, s) || Merges(s, SilverBead(dore, bead), weight)
  }

  lemma SilverOfEntry(a: Db, e: Event)
    requires Apply(a, e).Ok? && e.op.EnterWeighed? && e.op.weighed.dore.Some?
    ensures var n, b := |a.results|, After(a, e);
      && n < |b.results| && b.results[n].finish.Gravimetric?
      && SilverFrom(b.results[n], b.results[n].finish.bead, e.op.weighed.dore.value)
  {
    WeighedGranted(a, e.ref, e.op.entry, e.op.weighed, e.op.role);
  }

  /**
   A row repeats its silver grade exactly when the two silver weights agree, and a difference
   of at most 28 digits is enough.
   */
  predicate SilverVerdict(r: FireAssay, dore: real) {
    && r.finish.Gravimetric? && r.weight > 0.0
    && (SilverRepeats(r) <==> SilverWeightsAgree(dore, r.finish.bead, r.weight))
    && (FitsIn(Default, dore - r.finish.bead) ==> SilverRepeats(r))
  }

  lemma SilverRowRepeatsIff(r: FireAssay, dore: real)
    requires r.finish.Gravimetric? && SilverFrom(r, r.finish.bead, dore)
    ensures SilverVerdict(r, dore)
  {
    SilverRepeatsIff(dore, r.finish.bead, r.weight);
    if FitsIn(Default, dore - r.finish.bead) {
      ShortDifferenceRepeats(dore, r.finish.bead, r.weight);
    }
  }

  lemma ResultStays(a: Db, more: seq<Event>, n: nat)
    requires Inv(a) && n < |a.results|
    ensures n < |Run(a, more).results| && Run(a, more).results[n] == a.results[n]
  {
    RunIsLater(a, more);
  }

  lemma SilverOfNewRow(a: Db, e: Event)
    requires Inv(a) && Apply(a, e).Ok? && e.op.EnterWeighed? && e.op.weighed.dore.Some?
    ensures |a.results| < |After(a, e).results|
    ensures SilverVerdict(After(a, e).results[|a.results|], e.op.weighed.dore.value)
  {
    SilverOfEntry(a, e);
    SilverRowRepeatsIff(After(a, e).results[|a.results|], e.op.weighed.dore.value);
  }

  /** In every later state the silver grade of an entry is the one its own row gives back under that verdict. */
  lemma SilverRepeatsForeverIff(a: Db, e: Event, more: seq<Event>)
    requires Inv(a) && Apply(a, e).Ok? && e.op.EnterWeighed? && e.op.weighed.dore.Some?
    ensures var n, b := |a.results|, Run(After(a, e), more);
      n < |b.results| && SilverVerdict(b.results[n], e.op.weighed.dore.value)
  {
    SilverOfNewRow(a, e);
    EveryStep(a, e);
    ResultStays(After(a, e), more, |a.results|);
  }

  /** In any case the two are never more than three parts in 10^27 apart, in any reachable state. */
  lemma SilverStaysClose(events: seq<Event>, i: nat)
    ensures var rows := Run(EMPTY, events).results;
      i < |rows| && rows[i].silver.Some? ==>
        && rows[i].finish.Gravimetric? && rows[i].silverBead.Some? && rows[i].silver.value.value.Some?
        && var again := SilverAgain(rows[i].finish.bead, rows[i].silverBead.value, rows[i].weight);
           again.Ok? && again.value.value.Some?
           && Close(rows[i].silver.value.value.value, again.value.value.value)
  {
    EveryRunKeepsInv(events);
    var rows := Run(EMPTY, events).results;
    if i < |rows| && rows[i].silver.Some? {
      assert Recomputes(rows[i]);
      SilverRowClose(rows[i]);
    }
  }

  predicate Close(x: real, y: real) {
    -3.0 * y <= (x - y) * K28 <= 3.0 * y
  }

  lemma SilverRowClose(r: FireAssay)
    requires r.finish.Gravimetric? && r.silver.Some? && SilverSound(r, r.finish.bead)
    ensures r.silverBead.Some? && r.silver.value.value.Some?
    ensures var again := SilverAgain(r.finish.bead, r.silverBead.value, r.weight);
      again.Ok? && again.value.value.Some? && Close(r.silver.value.value.value, again.value.value.value)
  {
    var dore :| SilverFrom(r, r.finish.bead, dore);
    SilverNearlyRepeats(dore, r.finish.bead, r.weight);
    SignOfOver(1000.0 * (dore - r.finish.bead), r.weight);
  }

  /** Naming a weighed crucible stores that crucible's own bead and portion. */
  lemma BeadReadBack(a: Db, e: Event)
    requires Inv(a) && Apply(a, e).Ok? && e.op.EnterWeighed? && e.op.entry.crucible.Some?
    requires F.Live(a.furnace, e.op.entry.crucible.value)
    requires F.At(a.furnace, e.op.entry.crucible.value).status == Weighed
    ensures var n, c, b := |a.results|, F.At(a.furnace, e.op.entry.crucible.value), After(a, e);
      && n < |b.results| && b.results[n].finish.Gravimetric? && b.furnace == a.furnace
      && c.bead == Some(b.results[n].finish.bead) && c.weight == b.results[n].weight
  {
    assert F.RowOk(F.At(a.furnace, e.op.entry.crucible.value), a.furnace.batches);
    WeighedGranted(a, e.ref, e.op.entry, e.op.weighed, e.op.role);
  }

  /** A weighed crucible stays, with its bead and its charge. */
  lemma WeighedStays(f: F.Tables, g: F.Tables, k: nat)
    requires F.Inv(f) && H.Follows(f, g) && F.Live(f, k) && F.At(f, k).status == Weighed
    ensures F.Live(g, k) && F.At(g, k).bead == F.At(f, k).bead && F.At(g, k).weight == F.At(f, k).weight
  {
  }

  /** A bead read back from a weighed crucible equals that crucible's bead for good. */
  lemma BeadReadBackForever(a: Db, e: Event, more: seq<Event>)
    requires Inv(a) && Apply(a, e).Ok? && e.op.EnterWeighed? && e.op.entry.crucible.Some?
    requires F.Live(a.furnace, e.op.entry.crucible.value)
    requires F.At(a.furnace, e.op.entry.crucible.value).status == Weighed
    ensures var n, k, b := |a.results|, e.op.entry.crucible.value, Run(After(a, e), more);
      && n < |b.results| && b.results[n].finish.Gravimetric? && F.Live(b.furnace, k)
      && F.At(b.furnace, k).bead == Some(b.results[n].finish.bead)
      && F.At(b.furnace, k).weight == b.results[n].weight
  {
    BeadReadBack(a, e);
    EveryStep(a, e);
    RunIsLater(After(a, e), more);
    WeighedStays(After(a, e).furnace, Run(After(a, e), more).furnace, e.op.entry.crucible.value);
  }

  /** Once a sample has a fire assay result, no further fire assay entry moves its status. */
  lemma CorrectionsMoveNoSample(a: Db, e: Event, sample: nat)
    requires Inv(a) && sample < |a.samples| && CurrentResult(a.results, sample).Some?
    requires e.op.EnterWeighed? || e.op.EnterRead?
    ensures |After(a, e).samples| == |a.samples| && After(a, e).samples[sample] == a.samples[sample]
  {
    if Apply(a, e).Ok? {
      if e.op.EnterWeighed? {
        WeighedGranted(a, e.ref, e.op.entry, e.op.weighed, e.op.role);
      } else {
        ReadGranted(a, e.ref, e.op.entry, e.op.read, e.op.role);
      }
    }
  }

  // ----- Element readings --------------------------------------------------------------------------

  /** A granted import naming this element of this sample by this digest. */
  predicate Imports(db: Db, e: Event, t: Triple) {
    Apply(db, e).Ok? && e.op.Import? && e.op.sample == t.sample && e.op.digest == t.digest
    && exists i :: 0 <= i < |e.op.items| && e.op.items[i].element == t.element
  }

  function ImportCount(db: Db, events: seq<Event>, t: Triple): nat {
    if events == [] then 0
    else
      var n := |events| - 1;
      ImportCount(db, events[..n], t) + (if Imports(Run(db, events[..n]), events[n], t) then 1 else 0)
  }

  lemma {:induction false} RootsOfImported(
    rows: seq<Reading>, sample: nat, digest: Digest, items: seq<E.Item>, t: Triple)
    requires forall i, j :: 0 <= i < j < |items| ==> items[i].element != items[j].element
    ensures |Roots(ReadingLinks(rows + E.ImportedAll(sample, digest, items)), t)|
         == |Roots(ReadingLinks(rows), t)|
            + (if sample == t.sample && digest == t.digest
                  && (exists i :: 0 <= i < |items| && items[i].element == t.element)
               then 1 else 0)
    decreases |items|
  {
    var added := E.ImportedAll(sample, digest, items);
    if items == [] {
      assert rows + added == rows;
    } else {
      var n := |items| - 1;
      var before := items[..n];
      RootsOfImported(rows, sample, digest, before, t);
      var earlier := rows + E.ImportedAll(sample, digest, before);
      assert E.ImportedAll(sample, digest, before) == added[..n];
      assert rows + added == earlier + [added[n]];
      OneMoreRoot(earlier, added[n], t);
      NamesOneMore(items, t.element);
    }
  }

  lemma NamesOneMore(items: seq<E.Item>, element: string)
    requires items != []
    requires forall i, j :: 0 <= i < j < |items| ==> items[i].element != items[j].element
    ensures var n := |items| - 1;
      && (items[n].element == element ==> !exists i :: 0 <= i < n && items[..n][i].element == element)
      && ((exists i :: 0 <= i < |items| && items[i].element == element)
          <==> items[n].element == element || exists i :: 0 <= i < n && items[..n][i].element == element)
  {
    var n := |items| - 1;
    assert forall i :: 0 <= i < n ==> items[..n][i] == items[i];
  }

  lemma OneMoreRoot(rows: seq<Reading>, r: Reading, t: Triple)
    ensures |Roots(ReadingLinks(rows + [r]), t)|
         == |Roots(ReadingLinks(rows), t)| + (if r.triple == t && r.supersedes.None? then 1 else 0)
  {
    var links := ReadingLinks(rows);
    ReadingLinksAppend(rows, r);
    RootsAppend(links, Link(r.triple, r.supersedes), t);
    assert |rows| !in Roots(links, t);
  }

  lemma ItemsDistinct(items: seq<E.Item>)
    requires E.ImportProblems(items) == []
    ensures forall i, j :: 0 <= i < j < |items| ==> items[i].element != items[j].element
  {
    forall i, j | 0 <= i < j < |items| ensures items[i].element != items[j].element {
      NoProblemNoNegative(items, {}, j);
    }
  }

  lemma RootsPerStep(a: Db, e: Event, t: Triple)
    ensures |Roots(ReadingLinks(After(a, e).readings), t)|
         == |Roots(ReadingLinks(a.readings), t)| + (if Imports(a, e, t) then 1 else 0)
  {
    if Apply(a, e).Ok? && e.op.Import? {
      ItemsDistinct(e.op.items);
      RootsOfImported(a.readings, e.op.sample, e.op.digest, e.op.items, t);
    } else if Apply(a, e).Ok? && e.op.Correct? {
      OneMoreRoot(a.readings, After(a, e).readings[|a.readings|], t);
    } else {
      OnlyReadingOpsRead(a, e);
    }
  }

  lemma OnlyReadingOpsRead(a: Db, e: Event)
    requires Apply(a, e).Ok? ==> !e.op.Import? && !e.op.Correct?
    ensures After(a, e).readings == a.readings
  {
    if IsFurnaceOp(e.op) {
      FurnaceOpsReadNothing(a, e);
    }
  }

  lemma FurnaceOpsReadNothing(a: Db, e: Event)
    requires IsFurnaceOp(e.op)
    ensures After(a, e).readings == a.readings
  {
  }

  lemma {:induction false} RootsPerRun(events: seq<Event>, t: Triple)
    ensures |Roots(ReadingLinks(Run(EMPTY, events).readings), t)| == ImportCount(EMPTY, events, t)
  {
    if events == [] {
      assert Roots(ReadingLinks(EMPTY.readings), t) == {};
    } else {
      var n := |events| - 1;
      RootsPerRun(events[..n], t);
      RootsPerStep(Run(EMPTY, events[..n]), events[n], t);
    }
  }

  /** A triple has as many current readings as times it was imported; corrections change nothing. */
  lemma CurrentReadingsCountImports(events: seq<Event>, t: Triple)
    ensures |Heads(ReadingLinks(Run(EMPTY, events).readings), t)| == ImportCount(EMPTY, events, t)
  {
    EveryRunKeepsInv(events);
    HeadsEqualRoots(ReadingLinks(Run(EMPTY, events).readings), t);
    RootsPerRun(events, t);
  }

  /** Every reading and every certificate is on the chain of exactly one current row of its own kind. */
  lemma ReadingAndCertificateChains(events: seq<Event>, i: nat, c: nat)
    ensures var db := Run(EMPTY, events);
      var readings, certs := ReadingLinks(db.readings), CertificateLinks(db.certificates);
      && (i < |readings| ==> exists h :: IsHead(readings, readings[i].key, h) && i in ChainOf(readings, h))
      && (i < |readings| ==> forall g, h ::
            (IsHead(readings, readings[i].key, g) && IsHead(readings, readings[i].key, h)
             && i in ChainOf(readings, g) && i in ChainOf(readings, h)) ==> g == h)
      && (c < |certs| ==> exists h :: IsHead(certs, certs[c].key, h) && c in ChainOf(certs, h))
      && (c < |certs| ==> forall g, h ::
            (IsHead(certs, certs[c].key, g) && IsHead(certs, certs[c].key, h)
             && c in ChainOf(certs, g) && c in ChainOf(certs, h)) ==> g == h)
  {
    EveryRunKeepsInv(events);
    var db := Run(EMPTY, events);
    if i < |db.readings| {
      ChainsPartition(ReadingLinks(db.readings), i);
    }
    if c < |db.certificates| {
      ChainsPartition(CertificateLinks(db.certificates), c);
    }
  }

  // ----- Certificates ---------------------------------------------------------------------------------

  /** What a certificate froze never changes, and once stale it is stale in every later state. */
  lemma CertificatesAreHistory(events: seq<Event>, more: seq<Event>, c: nat)
    ensures var a, b := Run(EMPTY, events), Run(EMPTY, events + more);
      c < |a.certificates| ==>
        && c < |b.certificates| && b.certificates[c] == a.certificates[c]
        && (C.IsStale(a, c) ==> C.IsStale(b, c))
  {
    EveryRunKeepsInv(events);
    RunStep(EMPTY, events, more);
    RunIsLater(Run(EMPTY, events), more);
    if c < |Run(EMPTY, events).certificates| {
      StaleForever(Run(EMPTY, events), Run(EMPTY, events + more), c);
    }
  }

  /** Issuing reports the covered samples that are assayed and leaves every other status alone. */
  lemma IssueReportsOnlyAssayed(a: Db, e: Event, i: nat)
    requires Inv(a) && Apply(a, e).Ok? && e.op.Issue? && i < |a.samples|
    ensures |After(a, e).samples| == |a.samples|
    ensures After(a, e).samples[i].status ==
      if i in e.op.certificate.samples && a.samples[i].status == Assayed then Reported else a.samples[i].status
  {
    var q := e.op.certificate;
    IssueGranted(a, e.ref, q, e.op.role);
    CoversNamed(a, q.client, q.samples, i);
  }

  // ----- Samples ------------------------------------------------------------------------------------------

  /** Reported and rejected are final. */
  lemma FinalStatusesAreFinal(events: seq<Event>, more: seq<Event>, i: nat)
    ensures var a, b := Run(EMPTY, events), Run(EMPTY, events + more);
      i < |a.samples| ==>
        && i < |b.samples| && b.samples[i].kind == a.samples[i].kind && b.samples[i].client == a.samples[i].client
        && (a.samples[i].status in {Reported, Rejected} ==> b.samples[i].status == a.samples[i].status)
  {
    EveryRunKeepsInv(events);
    RunStep(EMPTY, events, more);
    RunIsLater(Run(EMPTY, events), more);
  }

  lemma CertifiedByItsChain(db: Db, i: nat) returns (c: nat, l: nat)
    requires Inv(db) && i < |db.samples| && db.samples[i].status == Reported
    ensures c < |db.certificates| && l < |db.certificates[c].lines| && db.certificates[c].lines[l].sample == i
    ensures db.certificates[c].client == db.samples[i].client
    ensures CurrentResult(db.results, i).Some? && CurrentResult(db.results, i).value < |db.results|
    ensures db.certificates[c].lines[l].result in ChainOf(ResultLinks(db.results), CurrentResult(db.results, i).value)
  {
    assert Certified(db.certificates, i);
    c :| c < |db.certificates| && OnCertificate(db.certificates[c], i);
    l :| l < |db.certificates[c].lines| && db.certificates[c].lines[l].sample == i;
    var line, links := db.certificates[c].lines[l], ResultLinks(db.results);
    assert CertificateSound(db.certificates[c], db.samples, db.results, db.readings);
    assert LineSound(line, db.certificates[c].client, db.samples, db.results, db.readings);
    assert links[line.result].key == i;
    CurrentIsLast(links, i);
    LastOfIs(links, i);
    CurrentChainIsWhole(links, i, line.result);
  }

  /** A reported sample is on a certificate that froze a result from the sample's own chain. */
  lemma ReportedSamplesAreCertified(events: seq<Event>, i: nat)
    ensures var db := Run(EMPTY, events);
      i < |db.samples| && db.samples[i].status == Reported ==>
        exists c, l :: 0 <= c < |db.certificates| && 0 <= l < |db.certificates[c].lines|
          && db.certificates[c].lines[l].sample == i
          && db.certificates[c].client == db.samples[i].client
          && CurrentResult(db.results, i).Some?
          && CurrentResult(db.results, i).value < |db.results|
          && db.certificates[c].lines[l].result in ChainOf(ResultLinks(db.results), CurrentResult(db.results, i).value)
  {
    EveryRunKeepsInv(events);
    var db := Run(EMPTY, events);
    if i < |db.samples| && db.samples[i].status == Reported {
      var c, l := CertifiedByItsChain(db, i);
    }
  }

  /** A sample in assay has a primary charge in some tray. */
  lemma InAssayIsInATray(events: seq<Event>, i: nat)
    ensures var db := Run(EMPTY, events);
      i < |db.samples| && db.samples[i].status == InAssay ==> HasPrimaryCharge(db.furnace, i)
  {
    EveryRunKeepsInv(events);
  }

  /** Whether the sample was in preparation at some point of the run. */
  predicate WasPrepared(events: seq<Event>, i: nat) {
    exists k :: 0 <= k <= |events| && InPrepAfter(events, k, i)
  }

  predicate InPrepAfter(events: seq<Event>, k: nat, i: nat)
    requires k <= |events|
  {
    i < |Run(EMPTY, events[..k]).samples| && Run(EMPTY, events[..k]).samples[i].status == InPrep
  }

  lemma WasPreparedGrows(events: seq<Event>, i: nat)
    requires events != [] && WasPrepared(events[..|events| - 1], i)
    ensures WasPrepared(events, i)
  {
    var n := |events| - 1;
    var k :| 0 <= k <= n && InPrepAfter(events[..n], k, i);
    assert events[..n][..k] == events[..k];
    assert InPrepAfter(events, k, i);
  }

  /** A sample that ever became ready for assay passed through preparation, or is a pulp. */
  lemma {:induction false} ReadyWasPreparedOrPulp(events: seq<Event>, i: nat)
    ensures var db := Run(EMPTY, events);
      i < |db.samples| && BeyondPreparation(db.samples[i].status) ==>
        db.samples[i].kind == Pulp || WasPrepared(events, i)
  {
    if events != [] {
      var n := |events| - 1;
      var a, b := Run(EMPTY, events[..n]), Run(EMPTY, events);
      ReadyWasPreparedOrPulp(events[..n], i);
      EveryRunKeepsInv(events[..n]);
      EveryStep(a, events[n]);
      if i < |a.samples| && BeyondPreparation(b.samples[i].status) {
        MoveFacts(a.samples[i].status, b.samples[i].status, a.samples[i].kind);
        assert SampleLater(a.samples[i], b.samples[i]);
        if a.samples[i].status == InPrep {
          assert InPrepAfter(events, n, i);
        } else if a.samples[i].kind != Pulp {
          WasPreparedGrows(events, i);
        }
      }
    }
  }
}
