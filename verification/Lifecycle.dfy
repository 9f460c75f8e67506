/** The sample state machine: which status moves are legal, and for whom. */
module Lifecycle {
  import opened Wrappers
  import opened Digits

  datatype Role = PrepTech | Analyst | Supervisor | LabManager | ClientRole

  datatype SampleType = Core | RcChip | Soil | StreamSediment | RockChip | Pulp

  datatype Status = Received | InPrep | ReadyForAssay | InAssay | Assayed | Reported | Rejected

  datatype LifecycleError = NotAllowed | InsufficientRole | ReasonRequired

  const BENCH_ROLES: set<Role> := {PrepTech, Analyst, Supervisor, LabManager}
  const MAY_REJECT: set<Role> := {Supervisor, LabManager}
  const MAY_ENTER_RESULTS: set<Role> := {Analyst, Supervisor, LabManager}
  const MAY_SIGN_CERTIFICATE: set<Role> := {LabManager}

  /** Who may work at the bench, reject, enter results and sign. */
  lemma RoleTiers(role: Role)
    ensures role in BENCH_ROLES <==> role != ClientRole
    ensures role in MAY_REJECT <==> role == Supervisor || role == LabManager
    ensures role in MAY_ENTER_RESULTS <==> role == Analyst || role == Supervisor || role == LabManager
    ensures role in MAY_SIGN_CERTIFICATE <==> role == LabManager
  {
  }

  datatype Transition = Transition(source: Status, target: Status, roles: set<Role>, needsReason: bool, pulpOnly: bool)

  const TRANSITIONS: seq<Transition> := [
    Transition(Received, InPrep, BENCH_ROLES, false, false),
    Transition(Received, ReadyForAssay, BENCH_ROLES, false, true),
    Transition(InPrep, ReadyForAssay, BENCH_ROLES, false, false),
    Transition(ReadyForAssay, InAssay, BENCH_ROLES, false, false),
    Transition(InAssay, Assayed, BENCH_ROLES, false, false),
    Transition(Assayed, ReadyForAssay, {Supervisor, LabManager}, true, false),
    Transition(Assayed, Reported, {LabManager}, false, false)
  ]

  predicate Rejectable(s: Status) {
    s in {Received, InPrep, ReadyForAssay, InAssay}
  }

  /** Stripping leaves nothing: a string of nothing but ASCII whitespace. */
  predicate Blank(s: string) {
    forall i :: 0 <= i < |s| ==> IsSpace(s[i])
  }

  predicate StatesReason(reason: Option<string>) {
    reason.Some? && !Blank(reason.value)
  }

  predicate Matches(t: Transition, source: Status, target: Status, kind: SampleType) {
    t.source == source && t.target == target && (t.pulpOnly ==> kind == Pulp)
  }

  /** The first listed transition that matches, by position. */
  function Find(from: nat, source: Status, target: Status, kind: SampleType): Option<Transition>
    requires from <= |TRANSITIONS|
    decreases |TRANSITIONS| - from
  {
    if from == |TRANSITIONS| then None
    else if Matches(TRANSITIONS[from], source, target, kind) then Some(TRANSITIONS[from])
    else Find(from + 1, source, target, kind)
  }

  function CheckTransition(source: Status, target: Status, kind: SampleType, role: Role, reason: Option<string>)
    : Result<(), LifecycleError>
  {
    if source == target then Err(NotAllowed)
    else if target == Rejected then
      if !Rejectable(source) then Err(NotAllowed)
      else if role !in MAY_REJECT then Err(InsufficientRole)
      else Require(StatesReason(reason), ReasonRequired)
    else
      var found := Find(0, source, target, kind);
      if found.None? then Err(NotAllowed)
      else if role !in found.value.roles then Err(InsufficientRole)
      else Require(!found.value.needsReason || StatesReason(reason), ReasonRequired)
  }

  function LegalTargets(status: Status, kind: SampleType): set<Status> {
    (set i | 0 <= i < |TRANSITIONS| && TRANSITIONS[i].source == status
             && (TRANSITIONS[i].pulpOnly ==> kind == Pulp) :: TRANSITIONS[i].target)
    + (if Rejectable(status) then {Rejected} else {})
  }

  // ----- The menu and the decision -----------------------------------------------------

  lemma {:induction false} FindSomeIff(from: nat, source: Status, target: Status, kind: SampleType)
    requires from <= |TRANSITIONS|
    ensures Find(from, source, target, kind).Some?
        <==> exists i :: from <= i < |TRANSITIONS| && Matches(TRANSITIONS[i], source, target, kind)
    ensures Find(from, source, target, kind).Some? ==>
      && Find(from, source, target, kind).value in TRANSITIONS
      && Matches(Find(from, source, target, kind).value, source, target, kind)
    decreases |TRANSITIONS| - from
  {
    if from < |TRANSITIONS| && !Matches(TRANSITIONS[from], source, target, kind) {
      FindSomeIff(from + 1, source, target, kind);
    }
  }

  lemma OfferedIff(source: Status, target: Status, kind: SampleType)
    ensures target in LegalTargets(source, kind) <==>
      (target == Rejected && Rejectable(source))
      || (exists i :: 0 <= i < |TRANSITIONS| && Matches(TRANSITIONS[i], source, target, kind))
  {
    if target in LegalTargets(source, kind) && !(target == Rejected && Rejectable(source)) {
      var i :| 0 <= i < |TRANSITIONS| && TRANSITIONS[i].source == source
        && (TRANSITIONS[i].pulpOnly ==> kind == Pulp) && TRANSITIONS[i].target == target;
      assert Matches(TRANSITIONS[i], source, target, kind);
    }
  }

  lemma NothingLeadsToRejected(i: nat, source: Status, kind: SampleType)
    requires i < |TRANSITIONS|
    ensures !Matches(TRANSITIONS[i], source, Rejected, kind) && !Matches(TRANSITIONS[i], source, source, kind)
  {
  }

  /** A move is refused outright exactly when the menu does not offer it, whoever asks and why. */
  lemma MenuIsDecision(source: Status, target: Status, kind: SampleType, role: Role, reason: Option<string>)
    ensures CheckTransition(source, target, kind, role, reason) == Err(NotAllowed)
        <==> target !in LegalTargets(source, kind)
  {
    OfferedIff(source, target, kind);
    FindSomeIff(0, source, target, kind);
    forall i | 0 <= i < |TRANSITIONS|
      ensures !Matches(TRANSITIONS[i], source, Rejected, kind) && !Matches(TRANSITIONS[i], source, source, kind)
    {
      NothingLeadsToRejected(i, source, kind);
    }
  }

  /** Every offered move is open to a lab manager who states a reason. */
  lemma ManagerMayMakeEveryOfferedMove(source: Status, target: Status, kind: SampleType, reason: string)
    requires !Blank(reason) && target in LegalTargets(source, kind)
    ensures CheckTransition(source, target, kind, LabManager, Some(reason)).Ok?
  {
    MenuIsDecision(source, target, kind, LabManager, Some(reason));
    FindSomeIff(0, source, target, kind);
  }

  // ----- What one move can do to a status --------------------------------------------------

  /** The moves the services make: listed, a rejection, or the reversal of a charge. */
  predicate StatusMove(before: Status, after: Status, kind: SampleType) {
    || before == after
    || after in LegalTargets(before, kind)
    || (before == InAssay && after == ReadyForAssay)
  }

  lemma AllowedIsMove(source: Status, target: Status, kind: SampleType, role: Role, reason: Option<string>)
    requires CheckTransition(source, target, kind, role, reason).Ok?
    ensures StatusMove(source, target, kind)
  {
    MenuIsDecision(source, target, kind, role, reason);
  }

  /** The statuses a sample can only have after preparation, or as a pulp. */
  predicate BeyondPreparation(s: Status) {
    s in {ReadyForAssay, InAssay, Assayed, Reported}
  }

  /** The listed moves, spelled out. */
  predicate Listed(source: Status, target: Status, kind: SampleType) {
    match source
    case Received => target == InPrep || (target == ReadyForAssay && kind == Pulp)
    case InPrep => target == ReadyForAssay
    case ReadyForAssay => target == InAssay
    case InAssay => target == Assayed
    case Assayed => target in {ReadyForAssay, Reported}
    case Reported => false
    case Rejected => false
  }

  lemma MatchIsListed(i: nat, source: Status, target: Status, kind: SampleType)
    requires i < |TRANSITIONS| && Matches(TRANSITIONS[i], source, target, kind)
    ensures Listed(source, target, kind)
  {
  }

  lemma OfferedIsListed(source: Status, target: Status, kind: SampleType)
    requires target in LegalTargets(source, kind)
    ensures (target == Rejected && Rejectable(source)) || Listed(source, target, kind)
  {
    OfferedIff(source, target, kind);
    if !(target == Rejected && Rejectable(source)) {
      var i :| 0 <= i < |TRANSITIONS| && Matches(TRANSITIONS[i], source, target, kind);
      MatchIsListed(i, source, target, kind);
    }
  }

  /** Where a listed move stands in the table. */
  function ListedAt(source: Status, target: Status): (i: nat)
    ensures i < |TRANSITIONS|
  {
    match source
    case Received => if target == InPrep then 0 else 1
    case InPrep => 2
    case ReadyForAssay => 3
    case InAssay => 4
    case _ => if target == ReadyForAssay then 5 else 6
  }

  lemma ListedIsOffered(source: Status, target: Status, kind: SampleType)
    requires Listed(source, target, kind)
    ensures Matches(TRANSITIONS[ListedAt(source, target)], source, target, kind)
  {
  }

  /** Who may make a listed move. */
  function RolesFor(source: Status, target: Status): set<Role> {
    if source != Assayed then {PrepTech, Analyst, Supervisor, LabManager}
    else if target == Reported then {LabManager}
    else {Supervisor, LabManager}
  }

  lemma MatchNeeds(t: Transition, source: Status, target: Status, kind: SampleType)
    requires t in TRANSITIONS && Matches(t, source, target, kind)
    ensures t.roles == RolesFor(source, target) && (t.needsReason <==> source == Assayed && target == ReadyForAssay)
  {
  }

  /** The whole decision in closed form: who may make which move, and when a reason is needed. */
  lemma AllowedIff(source: Status, target: Status, kind: SampleType, role: Role, reason: Option<string>)
    ensures CheckTransition(source, target, kind, role, reason).Ok? <==>
      if target == Rejected then Rejectable(source) && role in {Supervisor, LabManager} && StatesReason(reason)
      else
        Listed(source, target, kind) && role in RolesFor(source, target)
        && (source == Assayed && target == ReadyForAssay ==> StatesReason(reason))
  {
    if target != Rejected {
      FindSomeIff(0, source, target, kind);
      if Listed(source, target, kind) {
        ListedIsOffered(source, target, kind);
      } else {
        MenuIsDecision(source, target, kind, role, reason);
        if target in LegalTargets(source, kind) {
          OfferedIsListed(source, target, kind);
        }
      }
      if Find(0, source, target, kind).Some? {
        MatchNeeds(Find(0, source, target, kind).value, source, target, kind);
      }
    }
  }

  /** Reported and Rejected are final, and preparation can only be skipped by a pulp. */
  lemma MoveFacts(before: Status, after: Status, kind: SampleType)
    requires StatusMove(before, after, kind)
    ensures before in {Reported, Rejected} ==> after == before
    ensures BeyondPreparation(after) ==> BeyondPreparation(before) || before == InPrep || kind == Pulp
    ensures after == Reported ==> before in {Assayed, Reported}
    ensures after == Received ==> before == Received
  {
    if after in LegalTargets(before, kind) {
      OfferedIsListed(before, after, kind);
    }
  }
}
