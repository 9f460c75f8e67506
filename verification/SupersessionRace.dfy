/**
 Supersession under concurrency. A request reads the row it will supersede, inserts its own
 and commits, with the statements of other requests in between; it sees committed rows only.
 A row is known by its place in the order of commits.
 */
module SupersessionRace {
  import opened Wrappers
  import opened Chains

  /**
   What a table asks. Single: a row may be entered fresh only where the key has no current
   one. Indexed: supersedes_id is unique, among uncommitted rows too.
   */
  datatype Policy = Policy(single: bool, indexed: bool)

  const FIRE_ASSAY := Policy(true, false)
  const CERTIFICATE := Policy(false, false)
  const MULTI_ELEMENT := Policy(false, true)

  /** The row a request writes, and how many rows were committed when it chose what to supersede. */
  datatype Request<K> = Request(link: Link<K>, seen: nat, inserted: bool)

  datatype State<K> = State(rows: seq<Link<K>>, requests: map<nat, Request<K>>)

  datatype Action<K> = Read(t: nat, link: Link<K>) | Insert(t: nat) | Commit(t: nat) | Abort(t: nat)

  /** What a request may choose: any current row of the key, or to be fresh where the table allows it. */
  predicate MayChoose<K(==)>(policy: Policy, rows: seq<Link<K>>, l: Link<K>) {
    MayJoin(rows, l) && (policy.single && l.supersedes.None? ==> Current(rows, l.key).None?)
  }

  ghost predicate HeldByOther<K>(s: State<K>, l: Link<K>) {
    exists u :: u in s.requests && s.requests[u].inserted && s.requests[u].link.supersedes == l.supersedes
  }

  /** The unique index applies to rows that supersede something. */
  predicate Checked<K>(policy: Policy, l: Link<K>) {
    policy.indexed && l.supersedes.Some?
  }

  /** None when the statement cannot run now; a unique violation rolls the request back. */
  ghost function Step<K>(policy: Policy, s: State<K>, a: Action<K>): Option<State<K>> {
    if a.Read? then
      if a.t in s.requests || !MayChoose(policy, s.rows, a.link) then None
      else Some(s.(requests := s.requests[a.t := Request(a.link, |s.rows|, false)]))
    else if a.t !in s.requests then None
    else
      var q := s.requests[a.t];
      match a
      case Insert(t) =>
        if q.inserted || (Checked(policy, q.link) && HeldByOther(s, q.link)) then None
        else if Checked(policy, q.link) && Superseded(s.rows, q.link.supersedes.value) then
          Some(s.(requests := s.requests - {t}))
        else Some(s.(requests := s.requests[t := q.(inserted := true)]))
      case Commit(t) => if !q.inserted then None else Some(State(s.rows + [q.link], s.requests - {t}))
      case _ => Some(s.(requests := s.requests - {a.t}))
  }

  ghost function Run<K>(policy: Policy, s: State<K>, actions: seq<Action<K>>): Option<State<K>>
    decreases |actions|
  {
    if actions == [] then Some(s)
    else
      match Step(policy, s, actions[0])
      case None => None
      case Some(next) => Run(policy, next, actions[1..])
  }

  /** Since the request chose, another has committed a row of the same key that supersedes the same thing. */
  predicate Overtaken<K(==)>(rows: seq<Link<K>>, q: Request<K>) {
    exists j :: q.seen <= j < |rows| && rows[j] == q.link
  }

  /** This commit is overtaken, and the table meant it not to be. */
  ghost predicate Forks<K>(policy: Policy, s: State<K>, a: Action<K>, key: K) {
    a.Commit? && a.t in s.requests &&
    var q := s.requests[a.t];
    q.link.key == key && Overtaken(s.rows, q) && (policy.single || q.link.supersedes.Some?)
  }

  /** How many commits of a key are overtaken in an interleaving. */
  ghost function Overtakings<K>(policy: Policy, s: State<K>, actions: seq<Action<K>>, key: K): nat
    decreases |actions|
  {
    if actions == [] then 0
    else
      (if Forks(policy, s, actions[0], key) then 1 else 0) +
      match Step(policy, s, actions[0])
      case None => 0
      case Some(next) => Overtakings(policy, next, actions[1..], key)
  }

  // ----- Every statement keeps the requests' choices sound ------------------------------------

  /** The choice was right when it was made. */
  predicate RequestOk<K(==)>(policy: Policy, rows: seq<Link<K>>, q: Request<K>) {
    q.seen <= |rows| && MayChoose(policy, rows[..q.seen], q.link)
  }

  ghost predicate Inv<K>(policy: Policy, s: State<K>) {
    Named(s.rows) && forall t :: t in s.requests ==> RequestOk(policy, s.rows, s.requests[t])
  }

  lemma RequestStaysOk<K>(policy: Policy, rows: seq<Link<K>>, more: seq<Link<K>>, q: Request<K>)
    requires RequestOk(policy, rows, q)
    ensures RequestOk(policy, rows + more, q)
  {
    assert (rows + more)[..q.seen] == rows[..q.seen];
  }

  lemma ChoiceNames<K>(policy: Policy, rows: seq<Link<K>>, q: Request<K>)
    requires RequestOk(policy, rows, q)
    ensures Names(rows, q.link)
  {
  }

  /** Every statement of every request keeps the invariant, and only ever adds rows. */
  lemma StepKeepsInv<K>(policy: Policy, s: State<K>, a: Action<K>)
    requires Inv(policy, s) && Step(policy, s, a).Some?
    ensures Inv(policy, Step(policy, s, a).value) && s.rows <= Step(policy, s, a).value.rows
  {
    var next := Step(policy, s, a).value;
    if a.Commit? {
      var q := s.requests[a.t];
      ChoiceNames(policy, s.rows, q);
      NamesKeepsNamed(s.rows, q.link);
      forall t | t in next.requests ensures RequestOk(policy, next.rows, next.requests[t]) {
        RequestStaysOk(policy, s.rows, [q.link], s.requests[t]);
      }
    } else if a.Read? {
      assert s.rows[..|s.rows|] == s.rows;
    }
  }

  /** A request can be given up at any point, and leaves no row. */
  lemma AbortLeavesNothing<K>(policy: Policy, s: State<K>, t: nat)
    requires t in s.requests
    ensures Step(policy, s, Abort(t)) == Some(State(s.rows, s.requests - {t}))
  {
  }

  // ----- When a choice is still right at the commit ----------------------------------------------

  predicate HasKey<K(==)>(rows: seq<Link<K>>, key: K) {
    exists i :: 0 <= i < |rows| && rows[i].key == key
  }

  lemma {:induction false} NamedHasHead<K>(rows: seq<Link<K>>, key: K)
    requires Named(rows) && HasKey(rows, key)
    ensures Current(rows, key).Some?
  {
    LastOfIs(rows, key);
    HighestHeadIs(rows, key, |rows|);
    var c := LastOf(rows, key).value;
    forall j | 0 <= j < |rows| ensures rows[j].supersedes != Some(c) {
      assert Names(rows[..j], rows[j]);
    }
    assert IsHead(rows, key, c);
  }

  /** The first row of a key was entered fresh. */
  lemma {:induction false} FirstOfKey<K>(rows: seq<Link<K>>, key: K) returns (j: nat)
    requires Named(rows) && HasKey(rows, key)
    ensures j < |rows| && rows[j] == Link(key, None)
    decreases |rows|
  {
    j :| j < |rows| && rows[j].key == key;
    assert Names(rows[..j], rows[j]);
    if rows[j].supersedes.Some? {
      var before := rows[..j];
      assert before[rows[j].supersedes.value].key == key;
      PrefixNamed(rows, j);
      j := FirstOfKey(before, key);
    }
  }

  lemma PrefixNamed<K>(rows: seq<Link<K>>, n: nat)
    requires Named(rows) && n <= |rows|
    ensures Named(rows[..n])
  {
    forall i | 0 <= i < n ensures Names(rows[..n][..i], rows[..n][i]) {
      assert rows[..n][..i] == rows[..i];
    }
  }

  lemma OvertakenSupersession<K>(policy: Policy, rows: seq<Link<K>>, q: Request<K>)
    requires Named(rows) && RequestOk(policy, rows, q) && q.link.supersedes.Some?
    ensures Overtaken(rows, q) <==> Superseded(rows, q.link.supersedes.value)
  {
    var v := q.link.supersedes.value;
    assert forall i :: 0 <= i < q.seen ==> rows[..q.seen][i] == rows[i];
    if Superseded(rows, v) {
      var j :| 0 <= j < |rows| && rows[j].supersedes == Some(v);
      assert Names(rows[..j], rows[j]);
      assert rows[j] == q.link;
    }
  }

  lemma OvertakenFresh<K>(policy: Policy, rows: seq<Link<K>>, q: Request<K>)
    requires Named(rows) && RequestOk(policy, rows, q) && q.link.supersedes.None? && policy.single
    ensures Overtaken(rows, q) <==> HasKey(rows, q.link.key)
  {
    PrefixNamed(rows, q.seen);
    if HasKey(rows[..q.seen], q.link.key) {
      NamedHasHead(rows[..q.seen], q.link.key);
    }
    assert forall i :: 0 <= i < q.seen ==> rows[..q.seen][i] == rows[i];
    if HasKey(rows, q.link.key) {
      var j := FirstOfKey(rows, q.link.key);
      assert rows[j] == q.link;
    }
  }

  // ----- One extra current row for every overtaken commit ------------------------------------------

  /** How many current rows of a key there should be: one if any, or one for each entered fresh. */
  function Entitled<K(==)>(policy: Policy, rows: seq<Link<K>>, key: K): nat {
    if policy.single then (if HasKey(rows, key) then 1 else 0) else |Roots(rows, key)|
  }

  function Surplus<K(==)>(policy: Policy, rows: seq<Link<K>>, key: K): int {
    |Heads(rows, key)| - Entitled(policy, rows, key)
  }

  lemma HasKeyAppend<K>(rows: seq<Link<K>>, l: Link<K>, key: K)
    ensures HasKey(rows + [l], key) <==> HasKey(rows, key) || l.key == key
  {
    if HasKey(rows, key) {
      var i :| 0 <= i < |rows| && rows[i].key == key;
      assert (rows + [l])[i].key == key;
    }
    assert (rows + [l])[|rows|] == l;
  }

  lemma SurplusAppend<K>(policy: Policy, rows: seq<Link<K>>, q: Request<K>, key: K)
    requires Named(rows) && RequestOk(policy, rows, q)
    ensures Surplus(policy, rows + [q.link], key) == Surplus(policy, rows, key)
      + (if q.link.key == key && Overtaken(rows, q) && (policy.single || q.link.supersedes.Some?) then 1 else 0)
  {
    ChoiceNames(policy, rows, q);
    HeadCount(rows, q.link, key);
    RootCount(rows, q.link, key);
    HasKeyAppend(rows, q.link, key);
    if q.link.supersedes.Some? {
      OvertakenSupersession(policy, rows, q);
      assert q.link.key == key ==> HasKey(rows, key);
    } else if policy.single {
      OvertakenFresh(policy, rows, q);
    }
  }

  /**
   Under every interleaving, each overtaken commit leaves exactly one current row more than
   the key should have, and nothing that happens later takes it away.
   */
  lemma {:induction false} HeadsCountOvertakings<K>(policy: Policy, s: State<K>, actions: seq<Action<K>>, key: K)
    requires Inv(policy, s) && Run(policy, s, actions).Some?
    ensures Surplus(policy, Run(policy, s, actions).value.rows, key)
         == Surplus(policy, s.rows, key) + Overtakings(policy, s, actions, key)
    decreases |actions|
  {
    if actions != [] {
      StepKeepsInv(policy, s, actions[0]);
      if actions[0].Commit? {
        SurplusAppend(policy, s.rows, s.requests[actions[0].t], key);
      }
      HeadsCountOvertakings(policy, Step(policy, s, actions[0]).value, actions[1..], key);
    }
  }

  // ----- Exactly when the chains hold -------------------------------------------------------------

  /** The tables of this kind that every theorem of Chains is about. */
  ghost predicate Chained<K>(policy: Policy, rows: seq<Link<K>>) {
    WellLinked(rows) && (policy.single ==> OneRoot(rows))
  }

  ghost predicate NeverOvertaken<K(!new)>(policy: Policy, s: State<K>, actions: seq<Action<K>>) {
    forall key: K :: Overtakings(policy, s, actions, key) == 0
  }

  lemma CommitKeepsChains<K>(policy: Policy, s: State<K>, a: Action<K>)
    requires Inv(policy, s) && Chained(policy, s.rows) && a.Commit? && Step(policy, s, a).Some?
    requires !Forks(policy, s, a, s.requests[a.t].link.key)
    ensures Chained(policy, Step(policy, s, a).value.rows)
  {
    var q := s.requests[a.t];
    ChoiceNames(policy, s.rows, q);
    if q.link.supersedes.Some? {
      OvertakenSupersession(policy, s.rows, q);
    } else if policy.single {
      OvertakenFresh(policy, s.rows, q);
    }
    JoinKeepsLinked(s.rows, q.link);
  }

  lemma {:induction false} UnovertakenKeepsChains<K(!new)>(policy: Policy, s: State<K>, actions: seq<Action<K>>)
    requires Inv(policy, s) && Chained(policy, s.rows) && Run(policy, s, actions).Some?
    requires NeverOvertaken(policy, s, actions)
    ensures Chained(policy, Run(policy, s, actions).value.rows)
    decreases |actions|
  {
    if actions != [] {
      var a := actions[0];
      var next := Step(policy, s, a).value;
      StepKeepsInv(policy, s, a);
      if a.Commit? {
        assert Overtakings(policy, s, actions, s.requests[a.t].link.key) == 0;
        CommitKeepsChains(policy, s, a);
      }
      forall key: K ensures Overtakings(policy, next, actions[1..], key) == 0 {
        assert Overtakings(policy, s, actions, key) == 0;
      }
      UnovertakenKeepsChains(policy, next, actions[1..]);
    }
  }

  lemma ChainedHasNoSurplus<K>(policy: Policy, rows: seq<Link<K>>, key: K)
    requires Chained(policy, rows)
    ensures Surplus(policy, rows, key) == 0
  {
    HeadsEqualRoots(rows, key);
    LinkedIsNamed(rows);
    if policy.single {
      AtMostOneRoot(rows, key);
      if HasKey(rows, key) {
        var j := FirstOfKey(rows, key);
        assert j in Roots(rows, key);
      } else {
        assert Roots(rows, key) == {};
      }
    }
  }

  /** From a sound table, an interleaving leaves a sound one exactly when none of its commits is overtaken. */
  lemma ChainsHoldIff<K(!new)>(policy: Policy, s: State<K>, actions: seq<Action<K>>)
    requires Inv(policy, s) && Chained(policy, s.rows) && Run(policy, s, actions).Some?
    ensures Chained(policy, Run(policy, s, actions).value.rows) <==> NeverOvertaken(policy, s, actions)
  {
    if Chained(policy, Run(policy, s, actions).value.rows) {
      forall key: K ensures Overtakings(policy, s, actions, key) == 0 {
        ChainedHasNoSurplus(policy, s.rows, key);
        ChainedHasNoSurplus(policy, Run(policy, s, actions).value.rows, key);
        HeadsCountOvertakings(policy, s, actions, key);
      }
    } else if NeverOvertaken(policy, s, actions) {
      UnovertakenKeepsChains(policy, s, actions);
    }
  }

  // ----- Two requests that read the same row ------------------------------------------------------

  lemma RunCons<K>(policy: Policy, s: State<K>, a: Action<K>, rest: seq<Action<K>>)
    requires Step(policy, s, a).Some?
    ensures Run(policy, s, [a] + rest) == Run(policy, Step(policy, s, a).value, rest)
  {
    assert ([a] + rest)[1..] == rest;
  }

  /** Both read; the first inserts and commits; then the other goes on. */
  function BothRead<K>(l: Link<K>, rest: seq<Action<K>>): seq<Action<K>> {
    [Read(0, l)] + ([Read(1, l)] + ([Insert(0)] + ([Commit(0)] + rest)))
  }

  lemma FirstCommits<K>(policy: Policy, rows: seq<Link<K>>, l: Link<K>, rest: seq<Action<K>>)
    requires MayChoose(policy, rows, l)
    ensures Run(policy, State(rows, map[]), BothRead(l, rest))
         == Run(policy, State(rows + [l], map[1 := Request(l, |rows|, false)]), rest)
  {
    var q := Request(l, |rows|, false);
    var one, both := State(rows, map[0 := q]), State(rows, map[0 := q, 1 := q]);
    var inserted := State(rows, map[0 := q.(inserted := true), 1 := q]);
    RunCons(policy, State(rows, map[]), Read(0, l), [Read(1, l)] + ([Insert(0)] + ([Commit(0)] + rest)));
    RunCons(policy, one, Read(1, l), [Insert(0)] + ([Commit(0)] + rest));
    assert both.requests[0 := q.(inserted := true)] == inserted.requests;
    RunCons(policy, both, Insert(0), [Commit(0)] + rest);
    assert inserted.requests - {0} == map[1 := q];
    RunCons(policy, inserted, Commit(0), rest);
  }

  /** Without the index both commit, and the key has one current row too many. */
  lemma BothReadBothCommit<K>(policy: Policy, rows: seq<Link<K>>, l: Link<K>)
    requires Chained(policy, rows) && MayChoose(policy, rows, l)
    requires !policy.indexed && (policy.single || l.supersedes.Some?)
    ensures Run(policy, State(rows, map[]), BothRead(l, [Insert(1), Commit(1)]))
         == Some(State(rows + [l] + [l], map[]))
    ensures Surplus(policy, rows + [l] + [l], l.key) == 1
  {
    FirstCommits(policy, rows, l, [Insert(1), Commit(1)]);
    SecondCommits(policy, rows + [l], l, |rows|);
    BothLeaveSurplus(policy, rows, l);
  }

  lemma SecondCommits<K>(policy: Policy, rows: seq<Link<K>>, l: Link<K>, seen: nat)
    requires !policy.indexed
    ensures Run(policy, State(rows, map[1 := Request(l, seen, false)]), [Insert(1), Commit(1)])
         == Some(State(rows + [l], map[]))
  {
    var q := Request(l, seen, false);
    var inserted := State(rows, map[1 := q.(inserted := true)]);
    assert map[1 := q][1 := q.(inserted := true)] == inserted.requests;
    var insert, commit: seq<Action<K>> := [Insert(1)], [Commit(1)];
    RunCons(policy, State(rows, map[1 := q]), Insert(1), commit);
    RunCons(policy, inserted, Commit(1), []);
    assert insert + commit == [Insert(1), Commit(1)] && commit + [] == commit;
    assert inserted.requests - {1} == map[];
  }

  lemma BothLeaveSurplus<K>(policy: Policy, rows: seq<Link<K>>, l: Link<K>)
    requires Chained(policy, rows) && MayChoose(policy, rows, l) && (policy.single || l.supersedes.Some?)
    ensures Surplus(policy, rows + [l] + [l], l.key) == 1
  {
    var q := Request(l, |rows|, true);
    LinkedIsNamed(rows);
    assert rows[..|rows|] == rows;
    SurplusAppend(policy, rows, q, l.key);
    ChainedHasNoSurplus(policy, rows, l.key);
    NamesKeepsNamed(rows, l);
    RequestStaysOk(policy, rows, [l], q);
    assert (rows + [l])[|rows|] == l;
    SurplusAppend(policy, rows + [l], q, l.key);
  }

  // ----- What the unique index buys ---------------------------------------------------------------

  /** Rows inserted and not yet committed supersede different rows, none of them superseded. */
  ghost predicate IndexInv<K>(s: State<K>) {
    (forall t :: t in s.requests && s.requests[t].inserted && s.requests[t].link.supersedes.Some? ==>
      !Superseded(s.rows, s.requests[t].link.supersedes.value)) &&
    (forall t, u ::
      t in s.requests && u in s.requests && t != u && s.requests[t].inserted && s.requests[u].inserted &&
      s.requests[t].link.supersedes.Some? ==>
      s.requests[t].link.supersedes != s.requests[u].link.supersedes)
  }

  lemma IndexedStep<K>(policy: Policy, s: State<K>, a: Action<K>)
    requires policy.indexed && Inv(policy, s) && IndexInv(s) && Step(policy, s, a).Some?
    ensures IndexInv(Step(policy, s, a).value)
  {
    var next := Step(policy, s, a).value;
    if a.Commit? {
      forall t | t in next.requests && next.requests[t].inserted && next.requests[t].link.supersedes.Some?
        ensures !Superseded(next.rows, next.requests[t].link.supersedes.value)
      {
        SupersededAppend(s.rows, s.requests[a.t].link, next.requests[t].link.supersedes.value);
      }
    }
  }

  lemma IndexedCommitIsFirst<K>(policy: Policy, s: State<K>, a: Action<K>)
    requires !policy.single && Inv(policy, s) && IndexInv(s) && a.Commit? && Step(policy, s, a).Some?
    ensures !Forks(policy, s, a, s.requests[a.t].link.key)
  {
    var q := s.requests[a.t];
    if q.link.supersedes.Some? {
      OvertakenSupersession(policy, s.rows, q);
    }
  }

  /** With the unique index the chains hold under every interleaving. */
  lemma {:induction false} IndexKeepsChains<K>(policy: Policy, s: State<K>, actions: seq<Action<K>>)
    requires policy.indexed && !policy.single
    requires Inv(policy, s) && IndexInv(s) && Chained(policy, s.rows) && Run(policy, s, actions).Some?
    ensures Chained(policy, Run(policy, s, actions).value.rows)
    decreases |actions|
  {
    if actions != [] {
      var a := actions[0];
      StepKeepsInv(policy, s, a);
      IndexedStep(policy, s, a);
      if a.Commit? {
        IndexedCommitIsFirst(policy, s, a);
        CommitKeepsChains(policy, s, a);
      }
      IndexKeepsChains(policy, Step(policy, s, a).value, actions[1..]);
    }
  }

  /** With it the second insert is a unique violation, and its request is rolled back. */
  lemma BothReadOneCommits<K>(policy: Policy, rows: seq<Link<K>>, l: Link<K>)
    requires policy.indexed && MayChoose(policy, rows, l) && l.supersedes.Some?
    ensures Run(policy, State(rows, map[]), BothRead(l, [Insert(1)])) == Some(State(rows + [l], map[]))
  {
    var mid := State(rows + [l], map[1 := Request(l, |rows|, false)]);
    FirstCommits(policy, rows, l, [Insert(1)]);
    SupersededAppend(rows, l, l.supersedes.value);
    assert mid.requests - {1} == map[];
    var insert: seq<Action<K>> := [Insert(1)];
    RunCons(policy, mid, Insert(1), []);
    assert insert + [] == insert;
  }
}
