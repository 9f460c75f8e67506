/**
 record_audit_event under concurrency: any number of transactions, each statement of each
 interleaved with the others', reading committed rows and its own. The advisory lock is
 held to the end of the transaction that took it; ids come from a sequence that is not
 rolled back.
 */
module AuditProtocol {
  import opened Wrappers
  import opened HashChain
  import opened AuditChain

  /** Where a transaction stands inside record_audit_event. */
  datatype Phase = Outside | Locked | TipRead(tip: Option<string>)

  datatype Tx = Tx(pending: seq<Event>, phase: Phase)

  datatype Db = Db(committed: seq<Event>, nextId: nat, holder: Option<nat>, txs: map<nat, Tx>)

  datatype Action =
    | Begin(t: nat)
    | Lock(t: nat)
    | ReadTip(t: nat)
    | Append(t: nat, content: Content)
    | Commit(t: nat)
    | Abort(t: nat)

  /** SELECT entry_hash ... ORDER BY id DESC LIMIT 1 over the visible rows. */
  function NewestEntry(rows: seq<Event>): Option<string> {
    if rows == [] then None else Some(rows[NewestIndex(rows)].entry)
  }

  function NewestIndex(rows: seq<Event>): (k: nat)
    requires rows != []
    ensures k < |rows| && forall i :: 0 <= i < |rows| ==> rows[i].id <= rows[k].id
  {
    var last := |rows| - 1;
    if last == 0 then 0
    else
      var k := NewestIndex(rows[..last]);
      assert forall i :: 0 <= i < last ==> rows[..last][i] == rows[i];
      if rows[last].id >= rows[k].id then last else k
  }

  function Release(db: Db, t: nat): Db {
    db.(txs := db.txs - {t}, holder := if db.holder == Some(t) then None else db.holder)
  }

  /** One statement of one transaction; None when it cannot run now. */
  function Step(h: Hash, db: Db, a: Action): Option<Db> {
    if a.Begin? then
      if a.t in db.txs then None else Some(db.(txs := db.txs[a.t := Tx([], Outside)]))
    else if a.t !in db.txs then None
    else
      var tx := db.txs[a.t];
      match a
      case Begin(_) => None
      case Lock(t) =>
        if !tx.phase.Outside? || (db.holder.Some? && db.holder != Some(t)) then None
        else Some(db.(holder := Some(t), txs := db.txs[t := tx.(phase := Locked)]))
      case ReadTip(t) =>
        if !tx.phase.Locked? then None
        else Some(db.(txs := db.txs[t := tx.(phase := TipRead(NewestEntry(db.committed + tx.pending)))]))
      case Append(t, c) =>
        if !tx.phase.TipRead? || !Storable(c) then None
        else
          var row := NextRow(EntryDigest(h), db.nextId, tx.phase.tip, c);
          Some(db.(nextId := db.nextId + 1, txs := db.txs[t := Tx(tx.pending + [row], Outside)]))
      case Commit(t) =>
        if !tx.phase.Outside? then None
        else Some(Release(db.(committed := db.committed + tx.pending), t))
      case Abort(t) => Some(Release(db, t))
  }

  function Run(h: Hash, db: Db, actions: seq<Action>): Option<Db>
    decreases |actions|
  {
    if actions == [] then Some(db)
    else
      match Step(h, db, actions[0])
      case None => None
      case Some(next) => Run(h, next, actions[1..])
  }

  /** A good chain with ids below the sequence. */
  predicate Good(h: Hash, rows: seq<Event>, nextId: nat) {
    Linked(EntryDigest(h), rows) && AllStorable(rows) && Ascending(rows) &&
    forall i :: 0 <= i < |rows| ==> rows[i].id < nextId
  }

  predicate Involved(tx: Tx) {
    tx.pending != [] || !tx.phase.Outside?
  }

  predicate Inv(h: Hash, db: Db) {
    Good(h, db.committed, db.nextId) &&
    (forall t :: t in db.txs && Involved(db.txs[t]) ==> db.holder == Some(t)) &&
    (db.holder.Some? ==>
      db.holder.value in db.txs &&
      var tx := db.txs[db.holder.value];
      Good(h, db.committed + tx.pending, db.nextId) &&
      (tx.phase.TipRead? ==> tx.phase.tip == Head(db.committed + tx.pending)))
  }

  lemma NewestIsHead(rows: seq<Event>)
    requires Ascending(rows)
    ensures NewestEntry(rows) == Head(rows)
  {
    if rows != [] {
      var k := NewestIndex(rows);
      assert rows[|rows| - 1].id <= rows[k].id;
    }
  }

  lemma GoodExtend(h: Hash, rows: seq<Event>, nextId: nat, c: Content)
    requires Good(h, rows, nextId) && Storable(c)
    ensures Good(h, rows + [NextRow(EntryDigest(h), nextId, Head(rows), c)], nextId + 1)
  {
    LinkedExtend(EntryDigest(h), rows, NextRow(EntryDigest(h), nextId, Head(rows), c));
  }

  lemma StepKeepsInv(h: Hash, db: Db, a: Action)
    requires Inv(h, db) && Step(h, db, a).Some?
    ensures Inv(h, Step(h, db, a).value)
    ensures db.committed <= Step(h, db, a).value.committed
  {
    var next := Step(h, db, a).value;
    match a {
      case Begin(t) =>
      case Lock(t) =>
        var tx := db.txs[t];
        if db.holder == None {
          assert !Involved(tx);
          assert db.committed + tx.pending == db.committed;
        }
      case ReadTip(t) =>
        NewestIsHead(db.committed + db.txs[t].pending);
      case Append(t, c) => AppendKeepsInv(h, db, t, c);
      case Commit(t) => CommitKeepsInv(h, db, t);
      case Abort(t) =>
    }
  }

  lemma AppendKeepsInv(h: Hash, db: Db, t: nat, c: Content)
    requires Inv(h, db) && Step(h, db, Append(t, c)).Some?
    ensures Inv(h, Step(h, db, Append(t, c)).value)
  {
    var tx := db.txs[t];
    assert Involved(tx);
    GoodExtend(h, db.committed + tx.pending, db.nextId, c);
    var row := NextRow(EntryDigest(h), db.nextId, tx.phase.tip, c);
    assert db.committed + (tx.pending + [row]) == db.committed + tx.pending + [row];
  }

  lemma CommitKeepsInv(h: Hash, db: Db, t: nat)
    requires Inv(h, db) && t in db.txs
    ensures Inv(h, Release(db.(committed := db.committed + db.txs[t].pending), t))
  {
    var tx := db.txs[t];
    if !Involved(tx) {
      assert db.committed + tx.pending == db.committed;
    }
  }

  lemma {:induction false} RunKeepsInv(h: Hash, db: Db, actions: seq<Action>)
    requires Inv(h, db) && Run(h, db, actions).Some?
    ensures Inv(h, Run(h, db, actions).value)
    ensures db.committed <= Run(h, db, actions).value.committed
    decreases |actions|
  {
    if actions != [] {
      StepKeepsInv(h, db, actions[0]);
      RunKeepsInv(h, Step(h, db, actions[0]).value, actions[1..]);
    }
  }

  lemma LockStep(h: Hash, db: Db, t: nat)
    requires t in db.txs && db.txs[t].phase.Outside? && db.holder.None?
    ensures Step(h, db, Lock(t)) == Some(db.(holder := Some(t), txs := db.txs[t := Tx(db.txs[t].pending, Locked)]))
  {
  }

  lemma ReadStep(h: Hash, db: Db, t: nat)
    requires t in db.txs && db.txs[t] == Tx([], Locked) && Ascending(db.committed)
    ensures Step(h, db, ReadTip(t)) == Some(db.(txs := db.txs[t := Tx([], TipRead(Head(db.committed)))]))
  {
    NewestIsHead(db.committed);
    assert db.committed + [] == db.committed;
  }

  lemma AppendStep(h: Hash, db: Db, t: nat, tip: Option<string>, c: Content)
    requires t in db.txs && db.txs[t] == Tx([], TipRead(tip)) && Storable(c)
    ensures var row := NextRow(EntryDigest(h), db.nextId, tip, c);
      Step(h, db, Append(t, c)) == Some(db.(nextId := db.nextId + 1, txs := db.txs[t := Tx([row], Outside)]))
  {
    var row := NextRow(EntryDigest(h), db.nextId, tip, c);
    assert [] + [row] == [row];
  }

  lemma CommitStep(h: Hash, db: Db, t: nat)
    requires t in db.txs && db.txs[t].phase.Outside? && db.holder == Some(t)
    ensures Step(h, db, Commit(t)) == Some(Db(db.committed + db.txs[t].pending, db.nextId, None, db.txs - {t}))
  {
  }

  lemma RunCons(h: Hash, db: Db, a: Action, next: Db, rest: seq<Action>)
    requires Step(h, db, a) == Some(next)
    ensures Run(h, db, [a] + rest) == Run(h, next, rest)
  {
    assert ([a] + rest)[1..] == rest;
  }

  lemma BeginAndLock(h: Hash, db: Db, t: nat, rest: seq<Action>)
    requires db.holder.None? && t !in db.txs
    ensures Run(h, db, [Begin(t)] + ([Lock(t)] + rest))
         == Run(h, db.(holder := Some(t), txs := db.txs[t := Tx([], Locked)]), rest)
  {
    var begun := db.(txs := db.txs[t := Tx([], Outside)]);
    RunCons(h, db, Begin(t), begun, [Lock(t)] + rest);
    LockStep(h, begun, t);
    assert begun.txs[t := Tx([], Locked)] == db.txs[t := Tx([], Locked)];
    RunCons(h, begun, Lock(t), db.(holder := Some(t), txs := db.txs[t := Tx([], Locked)]), rest);
  }

  lemma ReadAndAppend(h: Hash, db: Db, t: nat, c: Content, rest: seq<Action>)
    requires t in db.txs && db.txs[t] == Tx([], Locked) && Ascending(db.committed) && Storable(c)
    ensures var row := NextRow(EntryDigest(h), db.nextId, Head(db.committed), c);
      Run(h, db, [ReadTip(t)] + ([Append(t, c)] + rest))
      == Run(h, db.(nextId := db.nextId + 1, txs := db.txs[t := Tx([row], Outside)]), rest)
  {
    var row := NextRow(EntryDigest(h), db.nextId, Head(db.committed), c);
    var read := db.(txs := db.txs[t := Tx([], TipRead(Head(db.committed)))]);
    ReadStep(h, db, t);
    RunCons(h, db, ReadTip(t), read, [Append(t, c)] + rest);
    AppendStep(h, read, t, Head(db.committed), c);
    assert read.txs[t := Tx([row], Outside)] == db.txs[t := Tx([row], Outside)];
    RunCons(h, read, Append(t, c), db.(nextId := db.nextId + 1, txs := db.txs[t := Tx([row], Outside)]), rest);
  }

  lemma CommitLast(h: Hash, db: Db, t: nat)
    requires t in db.txs && db.txs[t].phase.Outside? && db.holder == Some(t)
    ensures Run(h, db, [Commit(t)]) == Some(Db(db.committed + db.txs[t].pending, db.nextId, None, db.txs - {t}))
  {
    CommitStep(h, db, t);
    var after := Db(db.committed + db.txs[t].pending, db.nextId, None, db.txs - {t});
    assert [Commit(t)] + [] == [Commit(t)];
    RunCons(h, db, Commit(t), after, []);
  }

  /** Once its row is appended under the lock, the transaction commits it and is gone. */
  lemma AppendedCommits(h: Hash, db: Db, t: nat, row: Event)
    requires t !in db.txs && db.holder.None?
    ensures var locked := db.(holder := Some(t), txs := db.txs[t := Tx([], Locked)]);
      Run(h, locked.(nextId := db.nextId + 1, txs := locked.txs[t := Tx([row], Outside)]), [Commit(t)])
      == Some(Db(db.committed + [row], db.nextId + 1, None, db.txs))
  {
    var txs := db.txs[t := Tx([], Locked)][t := Tx([row], Outside)];
    assert txs - {t} == db.txs;
    CommitLast(h, Db(db.committed, db.nextId + 1, Some(t), txs), t);
  }

  /** A transaction that finds the lock free can record its event: it is linked to the newest committed row. */
  lemma FreeLockRecords(h: Hash, db: Db, t: nat, c: Content)
    requires Ascending(db.committed) && db.holder.None? && t !in db.txs && Storable(c)
    ensures Run(h, db, [Begin(t)] + ([Lock(t)] + ([ReadTip(t)] + ([Append(t, c)] + [Commit(t)]))))
         == Some(Db(db.committed + [NextRow(EntryDigest(h), db.nextId, Head(db.committed), c)], db.nextId + 1, None,
                    db.txs))
  {
    BeginAndLock(h, db, t, [ReadTip(t)] + ([Append(t, c)] + [Commit(t)]));
    ReadAndAppend(h, db.(holder := Some(t), txs := db.txs[t := Tx([], Locked)]), t, c, [Commit(t)]);
    AppendedCommits(h, db, t, NextRow(EntryDigest(h), db.nextId, Head(db.committed), c));
  }

  predicate OwnStep(a: Action, t: nat) {
    a.t == t && (a.Lock? || a.ReadTip? || a.Append?)
  }

  lemma {:induction false} OwnStepsTouchNothing(h: Hash, db: Db, t: nat, actions: seq<Action>)
    requires t in db.txs && Run(h, db, actions).Some?
    requires forall i :: 0 <= i < |actions| ==> OwnStep(actions[i], t)
    ensures var s := Run(h, db, actions).value;
      && s.committed == db.committed && t in s.txs && s.txs - {t} == db.txs - {t} && s.nextId >= db.nextId
      && (s.holder == db.holder || (db.holder.None? && s.holder == Some(t)))
    decreases |actions|
  {
    if actions != [] {
      OwnStepsTouchNothing(h, Step(h, db, actions[0]).value, t, actions[1..]);
    }
  }

  lemma AbortReleases(h: Hash, s: Db, t: nat)
    requires t in s.txs
    ensures Step(h, s, Abort(t))
         == Some(Db(s.committed, s.nextId, if s.holder == Some(t) then None else s.holder, s.txs - {t}))
  {
  }

  lemma BeginIsEmpty(h: Hash, db: Db, t: nat)
    requires Inv(h, db) && t !in db.txs
    ensures Step(h, db, Begin(t)) == Some(db.(txs := db.txs[t := Tx([], Outside)])) && db.holder != Some(t)
  {
  }

  /** A transaction rolled back, at whatever point, leaves everything as it found it; only its ids are spent. */
  lemma AbortLeavesNothing(h: Hash, db: Db, t: nat, begun: Db, actions: seq<Action>, s: Db)
    requires Inv(h, db) && t !in db.txs && Step(h, db, Begin(t)) == Some(begun)
    requires (forall i :: 0 <= i < |actions| ==> OwnStep(actions[i], t)) && Run(h, begun, actions) == Some(s)
    ensures s.nextId >= db.nextId && Step(h, s, Abort(t)) == Some(Db(db.committed, s.nextId, db.holder, db.txs))
  {
    BeginIsEmpty(h, db, t);
    OwnStepsTouchNothing(h, begun, t, actions);
    AbortReleases(h, s, t);
    assert begun.txs - {t} == db.txs;
  }

  /**
   Under every interleaving, whatever commits or aborts: the committed rows, in id order,
   verify; nothing committed earlier is touched; and no two rows share a predecessor.
   */
  lemma EveryInterleavingVerifies(h: Hash, actions: seq<Action>)
    requires Run(h, Db([], 1, None, map[]), actions).Some?
    ensures var rows := Run(h, Db([], 1, None, map[]), actions).value.committed;
      Ascending(rows) && Verification(EntryDigest(h), rows).valid &&
      (Digests(h) && Trusted(h, Inputs(rows)) ==>
        forall i, j :: 0 <= i < j < |rows| ==> rows[i].prev != rows[j].prev)
  {
    var start := Db([], 1, None, map[]);
    RunKeepsInv(h, start, actions);
    var rows := Run(h, start, actions).value.committed;
    ValidIffLinked(EntryDigest(h), rows);
    if Digests(h) && Trusted(h, Inputs(rows)) {
      ShaBinds(h, rows, rows);
      forall i, j | 0 <= i < j < |rows| ensures rows[i].prev != rows[j].prev {
        PredecessorsDistinct(EntryDigest(h), SameContent, rows, i, j);
      }
    }
  }
}
