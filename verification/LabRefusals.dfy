/** Every refusal names a fault the request has. */
module LabRefusals {
  import opened Wrappers
  import opened Lifecycle
  import opened BatchLifecycle
  import opened Units
  import opened Values
  import opened Assay
  import opened Chains
  import opened LabTables
  import opened LabInvariant
  import opened LabSteps
  import opened ResultSteps
  import opened LabRuns
  import opened BenchRules
  import opened BenchFaults
  import opened LabRules
  import F = Furnace
  import B = BatchService
  import R = ResultService
  import E = ReadingService
  import C = CertificateService
  import U = SampleService

  // ----- Samples -----------------------------------------------------------------------------------

  lemma MoveRefusal(a: Db, i: nat, target: Status, reason: Option<string>, role: Role)
    requires U.Move(a, i, target, reason, role).Err?
    ensures MoveFault(a, i, target, reason, role, U.Move(a, i, target, reason, role).error)
  {
    MoveRule(a, i, target, reason, role);
    MoveRule(a, i, target, Some("because"), role);
    MoveRule(a, i, target, Some("because"), LabManager);
    if i < |a.samples| && target in {InPrep, ReadyForAssay, Rejected} {
      MoveDecision(a.samples[i].status, target, a.samples[i].kind, role, reason);
    }
  }

  /** Which of its three refusals a sample move gets. */
  lemma MoveDecision(s: Status, t: Status, kind: SampleType, role: Role, reason: Option<string>)
    requires t in {InPrep, ReadyForAssay, Rejected}
    ensures var because := Some("because");
      var r, withReason := CheckTransition(s, t, kind, role, reason), CheckTransition(s, t, kind, role, because);
      var byManager := CheckTransition(s, t, kind, LabManager, because);
      && (r == Err(NotAllowed) ==> byManager.Err?)
      && (r == Err(InsufficientRole) ==> byManager.Ok? && withReason.Err?)
      && (r == Err(ReasonRequired) ==> withReason.Ok?)
  {
    var because := Some("because");
    assert because.value[0] == 'b' && StatesReason(because);
    MenuIsDecision(s, t, kind, role, reason);
    MenuIsDecision(s, t, kind, LabManager, because);
    if t in LegalTargets(s, kind) {
      ManagerMayMakeEveryOfferedMove(s, t, kind, because.value);
    }
  }

  // ----- Batches -------------------------------------------------------------------------------------

  lemma ChargeProblemsThere(a: Db, ref: Reference, q: B.ChargeRequest, i: nat)
    requires q.batch < |a.furnace.batches| && (q.material.Some? ==> q.material.value < |ref.activeMaterials|)
    requires i < |B.ChargeProblems(a, ref, q)|
    ensures ChargeProblem(a, ref, q, B.ChargeProblems(a, ref, q)[i])
  {
    SlotFreeIff(a, q.batch, q.row, q.col);
    assert B.ChargeProblems(a, ref, q)[i] in B.ChargeProblems(a, ref, q);
  }

  lemma ChargeDecision(s: Status, kind: SampleType, role: Role)
    requires Bench(role)
    ensures CheckTransition(s, InAssay, kind, role, None) == if s == ReadyForAssay then Ok(()) else Err(NotAllowed)
  {
    AllowedIff(s, InAssay, kind, role, None);
    MenuIsDecision(s, InAssay, kind, role, None);
    if InAssay in LegalTargets(s, kind) {
      OfferedIsListed(s, InAssay, kind);
    }
  }

  lemma ContentsRefusal(a: Db, ref: Reference, q: B.ChargeRequest, role: Role)
    requires q.sample.Some? != q.material.Some? && Bench(role) && B.CheckContents(a, ref, q, role).Err?
    ensures ChargeFault(a, ref, q, role, B.CheckContents(a, ref, q, role).error)
  {
    if q.sample.Some? && q.insertion.None? && q.sample.value < |a.samples| {
      ChargeDecision(a.samples[q.sample.value].status, a.samples[q.sample.value].kind, role);
    }
  }

  lemma ChargeRefusal(a: Db, ref: Reference, q: B.ChargeRequest, role: Role)
    requires B.Charge(a, ref, q, role).Err?
    ensures ChargeFault(a, ref, q, role, B.Charge(a, ref, q, role).error)
  {
    if q.sample.None? != q.material.None? && Bench(role) {
      if B.CheckContents(a, ref, q, role).Err? {
        ContentsRefusal(a, ref, q, role);
      } else if q.batch < |a.furnace.batches| {
        B.ContentsIff(a, ref, q, role);
        var problems := B.ChargeProblems(a, ref, q);
        forall i | 0 <= i < |problems| ensures ChargeProblem(a, ref, q, problems[i]) {
          ChargeProblemsThere(a, ref, q, i);
        }
        if q.sample.Some? {
          FirstChargeIff(a, q.batch, q.sample.value);
        }
      }
    }
  }

  lemma UnchargeRefusal(a: Db, batch: nat, k: nat, role: Role)
    requires Inv(a) && B.Uncharge(a, batch, k, role).Err?
    ensures UnchargeFault(a, batch, k, role, B.Uncharge(a, batch, k, role).error)
  {
    UnchargeMeetsNoResult(a, batch, k, role);
  }

  lemma PartRefusal(a: Db, batch: nat, k: nat, lead: real, prill: real, acid: real, role: Role)
    requires B.RecordParting(a, batch, k, lead, prill, acid, role).Err?
    ensures MeasureFault(a, batch, k, CrucibleCupelled, lead > 0.0 && prill > 0.0 && acid > 0.0, role,
                         B.RecordParting(a, batch, k, lead, prill, acid, role).error)
  {
  }

  lemma WeighRefusal(a: Db, batch: nat, k: nat, bead: real, role: Role)
    requires B.RecordWeighing(a, batch, k, bead, role).Err?
    ensures MeasureFault(a, batch, k, Parted, bead >= 0.0, role, B.RecordWeighing(a, batch, k, bead, role).error)
  {
  }

  lemma AdvanceRefusal(a: Db, batch: nat, target: BatchStatus, role: Role)
    requires B.AdvanceBatch(a, batch, target, role).Err?
    ensures AdvanceFault(a, batch, target, role, B.AdvanceBatch(a, batch, target, role).error)
  {
    LoadedIff(a, batch);
  }

  // ----- Fire assay results ------------------------------------------------------------------------------

  lemma EntryDecision(s: Status, kind: SampleType, role: Role)
    requires EntersResults(role)
    ensures CheckTransition(s, Assayed, kind, role, None) == if s == InAssay then Ok(()) else Err(NotAllowed)
  {
    AllowedIff(s, Assayed, kind, role, None);
    MenuIsDecision(s, Assayed, kind, role, None);
    if Assayed in LegalTargets(s, kind) {
      OfferedIsListed(s, Assayed, kind);
    }
  }

  lemma AdmitRefusal(a: Db, e: R.Entry, role: Role)
    requires R.Admit(a, e, role).Err?
    ensures EntryFault(a, e, role, R.Admit(a, e, role).error)
    ensures !R.Admit(a, e, role).error.Invalid? && !R.Admit(a, e, role).error.Calculation?
  {
    if e.sample < |a.samples| && EntersResults(role) {
      EntryDecision(a.samples[e.sample].status, a.samples[e.sample].kind, role);
    }
  }

  lemma SupersessionThere(a: Db, ref: Reference, e: R.Entry, i: nat)
    requires Inv(a) && i < |R.SupersessionProblems(e, CurrentResult(a.results, e.sample))|
    ensures EntryProblem(a, ref, e, R.SupersessionProblems(e, CurrentResult(a.results, e.sample))[i])
  {
    GivenIff(e.reason);
    var current := CurrentResult(a.results, e.sample);
    if current.Some? {
      UnsupersededIff(a.results, e.sample, current.value);
    }
    if e.supersedes.Some? {
      UnsupersededIff(a.results, e.sample, e.supersedes.value);
    }
  }

  lemma CrucibleThere(a: Db, ref: Reference, e: R.Entry, i: nat)
    requires e.crucible.Some? && F.Live(a.furnace, e.crucible.value)
    requires i < |R.CrucibleProblems(e, F.At(a.furnace, e.crucible.value))|
    ensures EntryProblem(a, ref, e, R.CrucibleProblems(e, F.At(a.furnace, e.crucible.value))[i])
  {
    var c := F.At(a.furnace, e.crucible.value);
    assert R.CrucibleProblems(e, c)[i] in R.CrucibleProblems(e, c);
  }

  lemma PortionThere(a: Db, ref: Reference, e: R.Entry, i: nat)
    requires R.ResolvePortion(a, e).Ok? && i < |R.ResolvePortion(a, e).value.problems|
    ensures EntryProblem(a, ref, e, R.ResolvePortion(a, e).value.problems[i])
  {
    if e.crucible.Some? {
      CrucibleThere(a, ref, e, i);
    }
  }

  lemma WeighingThere(a: Db, ref: Reference, e: R.Entry, bead: Option<real>, i: nat)
    requires Inv(a) && R.ResolveWeighing(a, e, bead).Ok? && i < |R.ResolveWeighing(a, e, bead).value.problems|
    ensures var p := R.ResolveWeighing(a, e, bead).value.problems[i];
      EntryProblem(a, ref, e, p) || BeadProblem(a, e, bead, p)
  {
    if e.crucible.Some? {
      WeighedHasBead(a, e.crucible.value);
      if i < |R.CrucibleProblems(e, F.At(a.furnace, e.crucible.value))| {
        CrucibleThere(a, ref, e, i);
      }
    }
  }

  lemma InThree(s: seq<Problem>, p: seq<Problem>, t: seq<Problem>, i: nat)
    requires i < |s + p + t|
    ensures (s + p + t)[i] ==
      if i < |s| then s[i] else if i < |s| + |p| then p[i - |s|] else t[i - |s| - |p|]
  {
  }

  lemma WeighedProblemThere(
    a: Db, ref: Reference, e: R.Entry, bead: Option<real>, s: seq<Problem>, p: seq<Problem>, t: seq<Problem>, i: nat)
    requires Inv(a) && R.ResolveWeighing(a, e, bead).Ok? && i < |s + p + t|
    requires s == R.SupersessionProblems(e, CurrentResult(a.results, e.sample))
    requires p == R.ResolveWeighing(a, e, bead).value.problems && t == R.InstrumentProblems(ref, e)
    ensures EntryProblem(a, ref, e, (s + p + t)[i]) || BeadProblem(a, e, bead, (s + p + t)[i])
  {
    InThree(s, p, t, i);
    if i < |s| {
      SupersessionThere(a, ref, e, i);
    } else if i < |s| + |p| {
      WeighingThere(a, ref, e, bead, i - |s|);
    }
  }

  lemma CheckWeighedRefusal(a: Db, ref: Reference, e: R.Entry, w: R.Weighed, role: Role)
    requires Inv(a) && R.CheckWeighed(a, ref, e, w, role).Err?
    ensures WeighedFault(a, ref, e, w, role, R.CheckWeighed(a, ref, e, w, role).error)
  {
    R.AdmitIff(a, e, role);
    if R.Admit(a, e, role).Err? {
      AdmitRefusal(a, e, role);
    } else if R.ResolveWeighing(a, e, w.bead).Ok? {
      var s := R.SupersessionProblems(e, CurrentResult(a.results, e.sample));
      var p, t := R.ResolveWeighing(a, e, w.bead).value.problems, R.InstrumentProblems(ref, e);
      forall i | 0 <= i < |s + p + t|
        ensures EntryProblem(a, ref, e, (s + p + t)[i]) || BeadProblem(a, e, w.bead, (s + p + t)[i])
      {
        WeighedProblemThere(a, ref, e, w.bead, s, p, t, i);
      }
    }
  }

  lemma RowIncalculable(e: R.Entry, dore: Option<real>, bead: real, portion: real, limit: Option<real>)
    requires R.WeighedRow(e, dore, bead, portion, limit).Err?
    ensures R.WeighedRow(e, dore, bead, portion, limit).error.Calculation?
    ensures var cause := R.WeighedRow(e, dore, bead, portion, limit).error.cause;
      || GravimetricGrade(bead, portion, limit) == Err(cause)
      || (dore.Some? && SilverByDifference(dore.value, bead, portion) == Err(cause))
  {
  }

  lemma WeighedRefusal(a: Db, ref: Reference, e: R.Entry, w: R.Weighed, role: Role)
    requires Inv(a) && R.EnterWeighed(a, ref, e, w, role).Err?
    ensures WeighedFault(a, ref, e, w, role, R.EnterWeighed(a, ref, e, w, role).error)
  {
    if R.CheckWeighed(a, ref, e, w, role).Err? {
      CheckWeighedRefusal(a, ref, e, w, role);
    } else {
      var m := R.CheckWeighed(a, ref, e, w, role).value;
      CheckWeighedIs(a, ref, e, w, role);
      RowIncalculable(e, w.dore, m.bead, m.portion, m.sensitivity);
    }
  }

  lemma CheckReadRefusal(a: Db, ref: Reference, e: R.Entry, m: R.Read, role: Role)
    requires Inv(a) && R.CheckRead(a, ref, e, m, role).Err?
    ensures ReadFault(a, ref, e, m, role, R.CheckRead(a, ref, e, m, role).error)
  {
    R.AdmitIff(a, e, role);
    if m.technique == FireAssayGravimetric {
    } else if R.Admit(a, e, role).Err? {
      AdmitRefusal(a, e, role);
    } else if R.ResolvePortion(a, e).Ok? {
      var s := R.SupersessionProblems(e, CurrentResult(a.results, e.sample));
      var p, t := R.ResolvePortion(a, e).value.problems, R.InstrumentProblems(ref, e);
      forall i | 0 <= i < |s + p + t| ensures EntryProblem(a, ref, e, (s + p + t)[i]) {
        InThree(s, p, t, i);
        if i < |s| {
          SupersessionThere(a, ref, e, i);
        } else if i < |s| + |p| {
          PortionThere(a, ref, e, i - |s|);
        }
      }
    }
  }

  lemma ReadRefusal(a: Db, ref: Reference, e: R.Entry, m: R.Read, role: Role)
    requires Inv(a) && R.EnterRead(a, ref, e, m, role).Err?
    ensures ReadFault(a, ref, e, m, role, R.EnterRead(a, ref, e, m, role).error)
  {
    if R.CheckRead(a, ref, e, m, role).Err? {
      CheckReadRefusal(a, ref, e, m, role);
    } else {
      CheckReadIs(a, ref, e, m, role);
      ReadRowIs(e, m, R.CheckRead(a, ref, e, m, role).value);
    }
  }

  // ----- Element readings --------------------------------------------------------------------------------

  lemma OneItemProblemThere(items: seq<E.Item>, from: nat, seen: set<string>, i: nat)
    requires from < |items| && i < |E.OneItemProblems(items[from], seen)|
    requires forall x :: x in seen ==> exists j :: 0 <= j < from && items[j].element == x
    ensures ItemProblem(items, E.OneItemProblems(items[from], seen)[i])
  {
    if items[from].element in seen {
      var j :| 0 <= j < from && items[j].element == items[from].element;
    }
  }

  lemma {:induction false} ItemProblemThere(items: seq<E.Item>, from: nat, seen: set<string>, i: nat)
    requires from <= |items| && i < |E.ItemProblems(items[from..], seen)|
    requires forall x :: x in seen ==> exists j :: 0 <= j < from && items[j].element == x
    ensures ItemProblem(items, E.ItemProblems(items[from..], seen)[i])
    decreases |items| - from
  {
    var rest := items[from..];
    if rest != [] {
      var first := E.OneItemProblems(rest[0], seen);
      assert rest[0] == items[from] && rest[1..] == items[from + 1..];
      if i < |first| {
        OneItemProblemThere(items, from, seen, i);
      } else {
        ItemProblemThere(items, from + 1, seen + {items[from].element}, i - |first|);
      }
    }
  }

  lemma ImportRefusal(a: Db, sample: nat, digest: Digest, items: seq<E.Item>, role: Role)
    requires E.Import(a, sample, digest, items, role).Err?
    ensures ImportFault(a, sample, items, role, E.Import(a, sample, digest, items, role).error)
  {
    var problems := E.ImportProblems(items);
    if sample < |a.samples| && EntersResults(role) {
      EntryDecision(a.samples[sample].status, a.samples[sample].kind, role);
    }
    forall i | 0 <= i < |problems| ensures ItemProblem(items, problems[i]) {
      if items != [] {
        assert items[0..] == items;
        ItemProblemThere(items, 0, {}, i);
      }
    }
  }

  lemma CorrectRefusal(a: Db, q: E.Correction, role: Role)
    requires E.Correct(a, q, role).Err?
    ensures CorrectFault(a, q, role, E.Correct(a, q, role).error)
  {
    ReturnedIff(a.readings, q.triple, q.pick);
  }

  // ----- Certificates ----------------------------------------------------------------------------------------

  lemma OneSampleProblem(a: Db, client: nat, ids: seq<nat>, from: nat, seen: set<nat>)
    requires Inv(a) && from < |ids| && C.ResolveOne(a, client, ids[from], seen).Err?
    requires forall x :: x in seen ==> exists j :: 0 <= j < from && ids[j] == x
    ensures SampleProblem(a, client, ids, C.ResolveOne(a, client, ids[from], seen).error)
  {
    if ids[from] in seen {
      var j :| 0 <= j < from && ids[j] == ids[from];
    } else if ids[from] < |a.samples| && a.samples[ids[from]].client == client {
      forall r: nat ensures !Unsuperseded(a.results, ids[from], r) {
        UnsupersededIff(a.results, ids[from], r);
      }
    }
  }

  lemma {:induction false} SampleProblemThere(a: Db, client: nat, ids: seq<nat>, from: nat, seen: set<nat>, i: nat)
    requires Inv(a) && from <= |ids| && i < |C.ResolveFrom(a, client, ids[from..], seen).problems|
    requires forall x :: x in seen ==> exists j :: 0 <= j < from && ids[j] == x
    ensures SampleProblem(a, client, ids, C.ResolveFrom(a, client, ids[from..], seen).problems[i])
    decreases |ids| - from
  {
    var rest := ids[from..];
    if rest != [] {
      assert rest[0] == ids[from] && rest[1..] == ids[from + 1..];
      if C.ResolveOne(a, client, rest[0], seen).Ok? {
        SampleProblemThere(a, client, ids, from + 1, seen + {ids[from]}, i);
      } else if i == 0 {
        OneSampleProblem(a, client, ids, from, seen);
      } else {
        SampleProblemThere(a, client, ids, from + 1, seen + {ids[from]}, i - 1);
      }
    }
  }

  lemma AmendmentProblemThere(a: Db, q: C.Request, i: nat)
    requires i < |C.SupersessionProblems(a, q)|
    ensures AmendmentProblem(a, q, C.SupersessionProblems(a, q)[i])
  {
    GivenIff(q.reason);
    if q.supersedes.Some? && Superseded(CertificateLinks(a.certificates), q.supersedes.value) {
      var links := CertificateLinks(a.certificates);
      var j :| 0 <= j < |links| && links[j].supersedes == Some(q.supersedes.value);
      assert a.certificates[j].supersedes == q.supersedes;
    }
  }

  lemma IssueRefusal(a: Db, ref: Reference, q: C.Request, role: Role)
    requires Inv(a) && C.Issue(a, ref, q, role).Err?
    ensures IssueFault(a, ref, q, role, C.Issue(a, ref, q, role).error)
  {
    var p, t := C.ResolveSamples(a, q.client, q.samples).problems, C.SupersessionProblems(a, q);
    forall i | 0 <= i < |p + t|
      ensures SampleProblem(a, q.client, q.samples, (p + t)[i]) || AmendmentProblem(a, q, (p + t)[i])
    {
      if i >= |p| {
        AmendmentProblemThere(a, q, i - |p|);
      } else if q.samples != [] {
        assert q.samples[0..] == q.samples;
        SampleProblemThere(a, q.client, q.samples, 0, {}, i);
      }
    }
  }

  // ----- Every request -----------------------------------------------------------------------------------------

  lemma FurnaceRefusal(a: Db, e: Event)
    requires Inv(a) && IsFurnaceOp(e.op) && Apply(a, e).Err?
    ensures Fault(a, e, Apply(a, e).error)
  {
    match e.op {
      case OpenBatch(_, _) =>
      case Charge(q, role) => ChargeRefusal(a, e.ref, q, role);
      case Uncharge(batch, k, role) => UnchargeRefusal(a, batch, k, role);
      case Part(batch, k, lead, prill, acid, role) => PartRefusal(a, batch, k, lead, prill, acid, role);
      case Weigh(batch, k, bead, role) => WeighRefusal(a, batch, k, bead, role);
      case Advance(batch, stage, role) => AdvanceRefusal(a, batch, stage, role);
    }
  }

  lemma PaperRefusal(a: Db, e: Event)
    requires Inv(a) && !IsFurnaceOp(e.op) && Apply(a, e).Err?
    ensures Fault(a, e, Apply(a, e).error)
  {
    match e.op {
      case Receive(_, _, _, _) =>
      case MoveSample(sample, target, reason, role) => MoveRefusal(a, sample, target, reason, role);
      case EnterWeighed(entry, w, role) => WeighedRefusal(a, e.ref, entry, w, role);
      case EnterRead(entry, m, role) => ReadRefusal(a, e.ref, entry, m, role);
      case Import(sample, digest, items, role) => ImportRefusal(a, sample, digest, items, role);
      case Correct(q, role) => CorrectRefusal(a, q, role);
      case Issue(q, role) => IssueRefusal(a, e.ref, q, role);
    }
  }

  /** In every reachable state a refusal names a fault the request has. */
  lemma EveryRefusalHasItsFault(events: seq<Event>, e: Event)
    ensures var a := Run(EMPTY, events); Apply(a, e).Err? ==> Fault(a, e, Apply(a, e).error)
  {
    EveryRunKeepsInv(events);
    var a := Run(EMPTY, events);
    if Apply(a, e).Err? {
      if IsFurnaceOp(e.op) {
        FurnaceRefusal(a, e);
      } else {
        PaperRefusal(a, e);
      }
    }
  }
}
