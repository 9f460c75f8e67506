/**
 Sequential document numbers for one yearly prefix: count the committed rows, step past by
 the attempt, insert under a savepoint, retry on a unique violation, at most five times.
 */
module Numbering {
  import opened Wrappers
  import opened Digits

  const MAX_ATTEMPTS: nat := 5

  /** f"{prefix}{count + 1 + attempt:04d}" */
  function FormatNumber(prefix: string, n: nat): string {
    prefix + Padded(n, 4)
  }

  /** The prefix, then the number in decimal: four digits, or more when it needs them. */
  lemma FormatShows(prefix: string, n: nat)
    ensures prefix <= FormatNumber(prefix, n)
    ensures var digits := FormatNumber(prefix, n)[|prefix|..];
      && AllDigits(digits) && ValueOf(digits) == n
      && (n < 10000 ==> |digits| == 4) && (n >= 10000 ==> |digits| > 4 && digits == Decimal(n))
  {
    ValueOfPadded(n, 4);
    DecimalWidth(n);
    assert FormatNumber(prefix, n)[|prefix|..] == Padded(n, 4);
  }

  /** Padding to four digits never makes two numbers look alike. */
  lemma FormatInjective(prefix: string, m: nat, n: nat)
    ensures FormatNumber(prefix, m) == FormatNumber(prefix, n) <==> m == n
  {
    ValueOfPadded(m, 4);
    ValueOfPadded(n, 4);
    assert FormatNumber(prefix, m)[|prefix|..] == Padded(m, 4);
    assert FormatNumber(prefix, n)[|prefix|..] == Padded(n, 4);
  }

  // ----- The gap between the highest number and the count ------------------------------------

  /** Numbers start at one and run at most four past the count of rows. */
  predicate GapOk(taken: set<nat>) {
    forall n :: n in taken ==> 1 <= n <= |taken| + 4
  }

  lemma GapKept(taken: set<nat>, counted: nat, attempt: nat)
    requires GapOk(taken) && counted <= |taken| && attempt < MAX_ATTEMPTS
    requires counted + 1 + attempt !in taken
    ensures GapOk(taken + {counted + 1 + attempt})
    ensures |taken + {counted + 1 + attempt}| == |taken| + 1
  {
  }

  /** At most `slack` numbers above the count: every number is at most |taken| + slack. */
  predicate Bounded(taken: set<nat>, slack: nat) {
    forall n :: n in taken ==> n <= |taken| + slack
  }

  // ----- One request, with nobody else writing ----------------------------------------------------

  /** The first attempt whose candidate is free, if within the bound. */
  function FirstFree(taken: set<nat>, attempt: nat): Option<nat>
    requires attempt <= MAX_ATTEMPTS
    decreases MAX_ATTEMPTS - attempt
  {
    if attempt == MAX_ATTEMPTS then None
    else if |taken| + 1 + attempt !in taken then Some(|taken| + 1 + attempt)
    else FirstFree(taken, attempt + 1)
  }

  /** With the gap at most `slack`, an undisturbed request succeeds within slack + 1 attempts. */
  lemma {:induction false} UndisturbedSucceeds(taken: set<nat>, slack: nat, attempt: nat)
    requires Bounded(taken, slack) && attempt <= slack < 5
    ensures var r := FirstFree(taken, attempt);
      r.Some? && r.value !in taken && |taken| + 1 + attempt <= r.value <= |taken| + 1 + slack
    decreases MAX_ATTEMPTS - attempt
  {
    if |taken| + 1 + attempt in taken {
      UndisturbedSucceeds(taken, slack, attempt + 1);
    }
  }

  /** ... and leaves the gap no wider than it was. */
  lemma UndisturbedKeepsSlack(taken: set<nat>, slack: nat)
    requires Bounded(taken, slack) && slack < 5
    ensures FirstFree(taken, 0).Some? && Bounded(taken + {FirstFree(taken, 0).value}, slack)
  {
  }

  function OneTo(n: nat): set<nat> {
    if n == 0 then {} else OneTo(n - 1) + {n}
  }

  lemma {:induction false} OneToMembers(n: nat)
    ensures forall k :: k in OneTo(n) <==> 1 <= k <= n
    ensures |OneTo(n)| == n
  {
    if n > 0 {
      OneToMembers(n - 1);
    }
  }

  /** The numbers taken after n requests one after another. */
  function Sequential(n: nat): set<nat> {
    if n == 0 then {}
    else
      AfterOne(Sequential(n - 1))
  }

  function AfterOne(taken: set<nat>): set<nat> {
    match FirstFree(taken, 0) case Some(k) => taken + {k} case None => taken
  }

  lemma FirstFreeIsNext(taken: set<nat>, n: nat)
    requires |taken| + 1 == n && n !in taken
    ensures AfterOne(taken) == taken + {n}
  {
  }

  /** A purely sequential history uses exactly 1..n. */
  lemma {:induction false} SequentialUsesOneToN(n: nat)
    ensures Sequential(n) == OneTo(n)
  {
    if n > 0 {
      SequentialUsesOneToN(n - 1);
      OneToMembers(n - 1);
      FirstFreeIsNext(OneTo(n - 1), n);
    }
  }

  // ----- The table and the retry loop -----------------------------------------------------------------

  datatype Failure = OtherIntegrity | Exhausted

  /**
   What the retry loop comes to from attempt i on. Between the count and the insert of
   attempt i other requests commit the numbers arrivals[i]; healthy says whether the row
   meets every constraint other than uniqueness.
   */
  function Allocate(taken: set<nat>, arrivals: seq<set<nat>>, healthy: bool, attempt: nat)
    : (Result<nat, Failure>, set<nat>)
    requires |arrivals| == 5 && attempt <= MAX_ATTEMPTS
    decreases |arrivals| - attempt
  {
    if attempt == MAX_ATTEMPTS then (Err(Exhausted), taken)
    else
      var number := |taken| + 1 + attempt;
      var now := taken + arrivals[attempt];
      if !healthy then (Err(OtherIntegrity), now)
      else if number !in now then (Ok(number), now + {number})
      else Allocate(now, arrivals, healthy, attempt + 1)
  }

  /** Other requests keep the gap too, as the interleaving theorem below shows they do. */
  predicate ArrivalsOk(taken: set<nat>, arrivals: seq<set<nat>>, attempt: nat)
    requires |arrivals| == 5 && attempt <= MAX_ATTEMPTS
    decreases MAX_ATTEMPTS - attempt
  {
    attempt < MAX_ATTEMPTS ==>
      GapOk(taken + arrivals[attempt]) && ArrivalsOk(taken + arrivals[attempt], arrivals, attempt + 1)
  }

  lemma CountGrows(s: set<nat>, more: set<nat>)
    ensures |s| <= |s + more|
  {
    assert s + more == s + (more - s);
  }

  /** A request gets a number nobody had, keeps every other, and keeps the gap. */
  lemma {:induction false} AllocateFreshAndBounded(
    taken: set<nat>, arrivals: seq<set<nat>>, healthy: bool, attempt: nat)
    requires |arrivals| == 5 && attempt <= MAX_ATTEMPTS
    requires GapOk(taken) && ArrivalsOk(taken, arrivals, attempt)
    ensures var (r, after) := Allocate(taken, arrivals, healthy, attempt);
      GapOk(after) && taken <= after && (r.Ok? ==> r.value in after && r.value !in taken)
    decreases MAX_ATTEMPTS - attempt
  {
    if attempt < MAX_ATTEMPTS {
      var now := taken + arrivals[attempt];
      CountGrows(taken, arrivals[attempt]);
      if healthy && |taken| + 1 + attempt !in now {
        GapKept(now, |taken|, attempt);
      } else {
        AllocateFreshAndBounded(now, arrivals, healthy, attempt + 1);
      }
    }
  }

  /** Undisturbed, the loop takes the first free number and cannot be exhausted. */
  lemma {:induction false} AllocateUndisturbed(taken: set<nat>, arrivals: seq<set<nat>>, attempt: nat)
    requires |arrivals| == 5 && attempt <= MAX_ATTEMPTS
    requires forall i :: 0 <= i < |arrivals| ==> arrivals[i] == {}
    ensures Allocate(taken, arrivals, true, attempt)
         == match FirstFree(taken, attempt)
            case Some(n) => (Ok(n), taken + {n})
            case None => (Err(Exhausted), taken)
    decreases MAX_ATTEMPTS - attempt
  {
    if attempt < MAX_ATTEMPTS {
      assert taken + arrivals[attempt] == taken;
      AllocateUndisturbed(taken, arrivals, attempt + 1);
    }
  }

  lemma AllocateStep(taken: set<nat>, arrivals: seq<set<nat>>, healthy: bool, attempt: nat)
    requires |arrivals| == 5 && attempt < MAX_ATTEMPTS
    ensures var number, now := |taken| + 1 + attempt, taken + arrivals[attempt];
      Allocate(taken, arrivals, healthy, attempt)
      == if !healthy then (Err(OtherIntegrity), now)
         else if number !in now then (Ok(number), now + {number})
         else Allocate(now, arrivals, healthy, attempt + 1)
  {
  }

  /** A row that breaks another constraint is never retried; only five taken numbers in a row exhaust the loop. */
  lemma {:induction false} WhyAllocateFails(taken: set<nat>, arrivals: seq<set<nat>>, healthy: bool, attempt: nat)
    requires |arrivals| == 5 && attempt < 5
    ensures var r := Allocate(taken, arrivals, healthy, attempt).0;
      && (r == Err(OtherIntegrity) <==> !healthy)
      && (r == Err(Exhausted) <==> healthy && CandidatesTaken(taken, arrivals, attempt))
    decreases 5 - attempt
  {
    AllocateStep(taken, arrivals, healthy, attempt);
    if attempt < 4 && healthy {
      WhyAllocateFails(taken + arrivals[attempt], arrivals, healthy, attempt + 1);
    }
  }

  /** Each remaining candidate, one past the count and the attempt, is taken by the time it is inserted. */
  predicate CandidatesTaken(taken: set<nat>, arrivals: seq<set<nat>>, attempt: nat)
    requires |arrivals| == 5 && attempt <= 5
    decreases 5 - attempt
  {
    attempt < 5 ==>
      |taken| + attempt + 1 in taken + arrivals[attempt]
      && CandidatesTaken(taken + arrivals[attempt], arrivals, attempt + 1)
  }

  class NumberTable {
    /** The numbers of the committed rows with this prefix. */
    var taken: set<nat>

    constructor ()
      ensures taken == {}
    {
      taken := {};
    }

    /** count_with_prefix */
    function CountWithPrefix(): nat
      reads this
    {
      |taken|
    }

    /** insert_with_unique_number */
    method InsertWithUniqueNumber(arrivals: seq<set<nat>>, healthy: bool) returns (r: Result<nat, Failure>)
      requires |arrivals| == 5
      modifies this
      ensures (r, taken) == Allocate(old(taken), arrivals, healthy, 0)
    {
      ghost var spec := Allocate(taken, arrivals, healthy, 0);
      var attempt := 0;
      while attempt < MAX_ATTEMPTS
        invariant attempt <= MAX_ATTEMPTS
        invariant spec == Allocate(taken, arrivals, healthy, attempt)
      {
        AllocateStep(taken, arrivals, healthy, attempt);
        var number := CountWithPrefix() + 1 + attempt;
        taken := taken + arrivals[attempt];
        if !healthy {
          assert spec == (Err(OtherIntegrity), taken);
          return Err(OtherIntegrity);
        }
        if number !in taken {
          taken := taken + {number};
          assert spec == (Ok(number), taken);
          return Ok(number);
        }
        attempt := attempt + 1;
      }
      return Err(Exhausted);
    }
  }

  // ----- Any number of requests, interleaved -------------------------------------------------------

  /**
   A request is between attempts, or has counted, or has inserted a row that is not yet
   committed. The unique index also sees uncommitted rows; the count sees committed ones.
   */
  datatype Request =
    | Ready(attempt: nat)
    | Counted(attempt: nat, counted: nat)
    | Inserted(number: nat, counted: nat, attempt: nat)

  datatype State = State(committed: set<nat>, requests: map<nat, Request>)

  datatype Action = Open(t: nat) | CountRows(t: nat) | TryInsert(t: nat) | Commit(t: nat) | Rollback(t: nat)

  predicate HeldByOther(s: State, n: nat) {
    exists t :: t in s.requests && s.requests[t].Inserted? && s.requests[t].number == n
  }

  /** None when the step cannot run now: an insert waits for another uncommitted row with its number. */
  ghost function Step(s: State, a: Action): Option<State> {
    if a.Open? then
      if a.t in s.requests then None else Some(s.(requests := s.requests[a.t := Ready(0)]))
    else if a.t !in s.requests then None
    else
      match (a, s.requests[a.t])
      case (CountRows(t), Ready(attempt)) => Some(s.(requests := s.requests[t := Counted(attempt, |s.committed|)]))
      case (TryInsert(t), Counted(attempt, counted)) =>
        var n := counted + 1 + attempt;
        if HeldByOther(s, n) then None
        else if n in s.committed then
          if attempt + 1 < MAX_ATTEMPTS then Some(s.(requests := s.requests[t := Ready(attempt + 1)]))
          else Some(s.(requests := s.requests - {t}))
        else Some(s.(requests := s.requests[t := Inserted(n, counted, attempt)]))
      case (Commit(t), Inserted(n, _, _)) =>
        Some(s.(committed := s.committed + {n}, requests := s.requests - {t}))
      case (Rollback(t), _) => Some(s.(requests := s.requests - {t}))
      case _ => None
  }

  ghost function Run(s: State, actions: seq<Action>): Option<State>
    decreases |actions|
  {
    if actions == [] then Some(s)
    else match Step(s, actions[0]) case None => None case Some(next) => Run(next, actions[1..])
  }

  lemma RunCons(s: State, a: Action, rest: seq<Action>)
    requires Step(s, a).Some?
    ensures Run(s, [a] + rest) == Run(Step(s, a).value, rest)
  {
    assert ([a] + rest)[1..] == rest;
  }

  /** A request whose next number is free and uncontested gets it: one more than the count of committed rows. */
  lemma UncontestedCommits(s: State, t: nat)
    requires t !in s.requests && |s.committed| + 1 !in s.committed && !HeldByOther(s, |s.committed| + 1)
    ensures Run(s, [Open(t)] + ([CountRows(t)] + ([TryInsert(t)] + ([Commit(t)] + []))))
         == Some(State(s.committed + {|s.committed| + 1}, s.requests))
  {
    var count := |s.committed|;
    var ready := s.(requests := s.requests[t := Ready(0)]);
    var counted := s.(requests := s.requests[t := Counted(0, count)]);
    var inserted := s.(requests := s.requests[t := Inserted(count + 1, count, 0)]);
    RunCons(s, Open(t), [CountRows(t)] + ([TryInsert(t)] + ([Commit(t)] + [])));
    assert ready.requests[t := Counted(0, count)] == counted.requests;
    RunCons(ready, CountRows(t), [TryInsert(t)] + ([Commit(t)] + []));
    assert counted.requests[t := Inserted(count + 1, count, 0)] == inserted.requests;
    assert !HeldByOther(counted, count + 1);
    RunCons(counted, TryInsert(t), [Commit(t)] + []);
    assert inserted.requests - {t} == s.requests;
    RunCons(inserted, Commit(t), []);
  }

  /** A committed number sends the request back to count again, the fifth time it is dropped. */
  lemma TakenNumberRetries(s: State, t: nat, attempt: nat, counted: nat)
    requires t in s.requests && s.requests[t] == Counted(attempt, counted)
    requires counted + 1 + attempt in s.committed && !HeldByOther(s, counted + 1 + attempt)
    ensures Step(s, TryInsert(t))
         == Some(State(s.committed, if attempt < 4 then s.requests[t := Ready(attempt + 1)] else s.requests - {t}))
  {
    assert s.requests[t].Counted?;
  }

  ghost predicate RequestOk(s: State, q: Request) {
    match q
    case Ready(attempt) => attempt < MAX_ATTEMPTS
    case Counted(attempt, counted) => attempt < MAX_ATTEMPTS && counted <= |s.committed|
    case Inserted(n, counted, attempt) =>
      attempt < MAX_ATTEMPTS && counted <= |s.committed| && n == counted + 1 + attempt && n !in s.committed
  }

  ghost predicate Inv(s: State) {
    GapOk(s.committed) &&
    (forall t :: t in s.requests ==> RequestOk(s, s.requests[t])) &&
    (forall t, u ::
      (t in s.requests && u in s.requests && t != u && s.requests[t].Inserted? && s.requests[u].Inserted?) ==>
      s.requests[t].number != s.requests[u].number)
  }

  lemma StepKeepsInv(s: State, a: Action)
    requires Inv(s) && Step(s, a).Some?
    ensures Inv(Step(s, a).value)
    ensures s.committed <= Step(s, a).value.committed
  {
    if a.Commit? {
      var q := s.requests[a.t];
      assert RequestOk(s, q);
      GapKept(s.committed, q.counted, q.attempt);
    }
  }

  lemma {:induction false} RunKeepsInv(s: State, actions: seq<Action>)
    requires Inv(s) && Run(s, actions).Some?
    ensures Inv(Run(s, actions).value)
    ensures s.committed <= Run(s, actions).value.committed
    decreases |actions|
  {
    if actions != [] {
      StepKeepsInv(s, actions[0]);
      RunKeepsInv(Step(s, actions[0]).value, actions[1..]);
    }
  }

  /**
   Under every interleaving the highest committed number is at most four past the count, so
   the next request, if left alone, gets a fresh number within five attempts.
   */
  lemma EveryInterleavingKeepsGap(actions: seq<Action>)
    requires Run(State({}, map[]), actions).Some?
    ensures var taken := Run(State({}, map[]), actions).value.committed;
      GapOk(taken) && FirstFree(taken, 0).Some? && FirstFree(taken, 0).value !in taken
  {
    RunKeepsInv(State({}, map[]), actions);
    var taken := Run(State({}, map[]), actions).value.committed;
    UndisturbedSucceeds(taken, MAX_ATTEMPTS - 1, 0);
  }
}
