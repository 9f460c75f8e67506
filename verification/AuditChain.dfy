/**
 The audit trail's hash chain: what one entry's hash commits to, and what that makes of
 the chain. SHA-256 is a parameter h; what is assumed of it is always stated about the
 finite set of strings actually hashed, never about all strings.
 */
module AuditChain {
  import Digits
  import opened Wrappers
  import opened Canonical
  import opened JsonReader
  import opened JsonEquality
  import opened HashChain

  type Hash = string -> string

  const GENESIS_PREV_HASH: string := Digits.Zeros(64)

  /** The columns an entry hash commits to, apart from the predecessor's hash. */
  datatype Content = Content(
    tableName: PyString,
    recordId: int,
    action: PyString,
    before: Option<seq<Field>>,
    after: Option<seq<Field>>,
    reason: Option<PyString>,
    actorId: Option<int>,
    actorIp: Option<PyString>)

  /** One audit_event row. The id is not hashed. */
  type Event = Row<Content>

  function DictJson(d: Option<seq<Field>>): Json {
    match d case None => Null case Some(fields) => Obj(fields)
  }

  function TextJson(t: Option<PyString>): Json {
    match t case None => Null case Some(s) => Str(s)
  }

  function IntJson(i: Option<int>): Json {
    match i case None => Null case Some(n) => Int(n)
  }

  /** The keys of the hashed dict, in the order the source writes them. */
  const COLUMNS: seq<string> := [
    "prev_entry_hash", "table_name", "record_id", "action", "before", "after", "reason", "actor_id", "actor_ip"]

  function Column(prev: string, c: Content, i: nat): Json
    requires i < 9
  {
    match i
    case 0 => Str(Text(prev))
    case 1 => Str(c.tableName)
    case 2 => Int(c.recordId)
    case 3 => Str(c.action)
    case 4 => DictJson(c.before)
    case 5 => DictJson(c.after)
    case 6 => TextJson(c.reason)
    case 7 => IntJson(c.actorId)
    case _ => TextJson(c.actorIp)
  }

  function EntryFields(prev: string, c: Content): seq<Field> {
    seq(9, i requires 0 <= i < 9 => Field(Text(COLUMNS[i]), Column(prev, c, i)))
  }

  function EntryJson(prev: string, c: Content): Json {
    Obj(EntryFields(prev, c))
  }

  function CanonicalEntry(prev: string, c: Content): string {
    CanonicalJson(EntryJson(prev, c))
  }

  /** The string compute_entry_hash feeds to SHA-256. */
  function HashInput(prev: Option<string>, c: Content): string {
    var p := if prev.Some? then prev.value else GENESIS_PREV_HASH;
    p + CanonicalEntry(p, c)
  }

  /** compute_entry_hash */
  function EntryDigest(h: Hash): Digest<Content> {
    (prev, c) => h(HashInput(prev, c))
  }

  // ----- What a hash input determines --------------------------------------------

  /** Content a UTF-8 database can hold: dicts have distinct keys, no split surrogate pair. */
  predicate Storable(c: Content) {
    PairFree(c.tableName) && PairFree(c.action) &&
    (c.reason.Some? ==> PairFree(c.reason.value)) &&
    (c.actorIp.Some? ==> PairFree(c.actorIp.value)) &&
    Clean(DictJson(c.before)) && DictKeysDistinct(DictJson(c.before)) &&
    Clean(DictJson(c.after)) && DictKeysDistinct(DictJson(c.after))
  }

  /** Agreement on every hashed column, snapshots compared up to the order of their keys. */
  predicate SameContent(c: Content, d: Content) {
    c.tableName == d.tableName && c.recordId == d.recordId && c.action == d.action &&
    Sorted(DictJson(c.before)) == Sorted(DictJson(d.before)) &&
    Sorted(DictJson(c.after)) == Sorted(DictJson(d.after)) &&
    c.reason == d.reason && c.actorId == d.actorId && c.actorIp == d.actorIp
  }

  /** For snapshots that are dicts, that is equality of the payloads as values. */
  lemma SameContentMeansSameSnapshots(c: Content, d: Content)
    requires Storable(c) && Storable(d) && SameContent(c, d)
    ensures SameValue(DictJson(c.before), DictJson(d.before)) && SameValue(DictJson(c.after), DictJson(d.after))
  {
    SortedEqualIffSame(DictJson(c.before), DictJson(d.before));
    SortedEqualIffSame(DictJson(c.after), DictJson(d.after));
  }

  lemma EntryKeysDistinct(prev: string, c: Content)
    ensures DistinctKeys(EntryFields(prev, c))
  {
    forall i, j | 0 <= i < j < 9 ensures Text(COLUMNS[i]) != Text(COLUMNS[j]) {
      TextInjective(COLUMNS[i], COLUMNS[j]);
      ColumnNamesDistinct(i, j);
    }
  }

  lemma ColumnNamesDistinct(i: nat, j: nat)
    requires i < j < 9
    ensures COLUMNS[i] != COLUMNS[j]
  {
  }

  lemma EntryWellFormed(prev: string, c: Content)
    requires Storable(c)
    ensures DictKeysDistinct(EntryJson(prev, c)) && Clean(EntryJson(prev, c))
  {
    EntryKeysDistinct(prev, c);
    AsciiIsPairFree(prev);
    forall i | 0 <= i < 9
      ensures PairFree(Text(COLUMNS[i])) && Clean(Column(prev, c, i)) && DictKeysDistinct(Column(prev, c, i))
    {
      AsciiIsPairFree(COLUMNS[i]);
    }
  }

  lemma AsciiIsPairFree(s: string)
    ensures PairFree(Text(s))
  {
  }

  lemma TextInjective(s: string, t: string)
    ensures Text(s) == Text(t) ==> s == t
  {
  }

  lemma SortedColumnwise(f: seq<Field>, g: seq<Field>, i: nat)
    requires |f| == |g| && DistinctKeys(f) && i < |f|
    requires forall i :: 0 <= i < |f| ==> f[i].key == g[i].key
    requires Sorted(Obj(f)) == Sorted(Obj(g))
    ensures Sorted(f[i].value) == Sorted(g[i].value)
  {
    SortedObj(f);
    SortedObj(g);
    var j := SortedTwin(f, g, i);
    assert f[j].key == g[j].key == f[i].key;
    assert j == i;
  }

  lemma SortedObj(f: seq<Field>)
    ensures Sorted(Obj(f)) == Obj(SortFields(SortedFields(f)))
  {
  }

  lemma SortedPositional(f: seq<Field>, g: seq<Field>)
    requires |f| == |g|
    requires forall i :: 0 <= i < |f| ==> f[i].key == g[i].key && Sorted(f[i].value) == Sorted(g[i].value)
    ensures Sorted(Obj(f)) == Sorted(Obj(g))
  {
    forall i | 0 <= i < |f| ensures SortedFields(f)[i] == SortedFields(g)[i] {
      SortedFieldsAt(f, i);
      SortedFieldsAt(g, i);
    }
    assert SortedFields(f) == SortedFields(g);
  }

  predicate SameAt(p: string, c: Content, q: string, d: Content, i: nat)
    requires i < 9
  {
    Sorted(Column(p, c, i)) == Sorted(Column(q, d, i))
  }

  lemma SameAtIff(p: string, c: Content, q: string, d: Content, i: nat)
    requires i < 9
    ensures SameAt(p, c, q, d, i) <==>
      match i
      case 0 => p == q
      case 1 => c.tableName == d.tableName
      case 2 => c.recordId == d.recordId
      case 3 => c.action == d.action
      case 4 => Sorted(DictJson(c.before)) == Sorted(DictJson(d.before))
      case 5 => Sorted(DictJson(c.after)) == Sorted(DictJson(d.after))
      case 6 => c.reason == d.reason
      case 7 => c.actorId == d.actorId
      case _ => c.actorIp == d.actorIp
  {
  }

  lemma EntryFieldAt(p: string, c: Content, i: nat)
    requires i < 9
    ensures |EntryFields(p, c)| == 9 && EntryFields(p, c)[i] == Field(Text(COLUMNS[i]), Column(p, c, i))
  {
  }

  lemma EntrySortedAt(p: string, c: Content, q: string, d: Content, i: nat)
    requires i < 9 && Sorted(EntryJson(p, c)) == Sorted(EntryJson(q, d))
    ensures SameAt(p, c, q, d, i)
  {
    EntryKeysDistinct(p, c);
    EntryFieldAt(p, c, i);
    EntryFieldAt(q, d, i);
    SortedColumnwise(EntryFields(p, c), EntryFields(q, d), i);
  }

  lemma SameColumnsSortAlike(p: string, c: Content, q: string, d: Content)
    requires forall i :: 0 <= i < 9 ==> SameAt(p, c, q, d, i)
    ensures Sorted(EntryJson(p, c)) == Sorted(EntryJson(q, d))
  {
    var f, g := EntryFields(p, c), EntryFields(q, d);
    forall i | 0 <= i < 9 ensures f[i].key == g[i].key && Sorted(f[i].value) == Sorted(g[i].value) {
      assert SameAt(p, c, q, d, i);
      EntryFieldAt(p, c, i);
      EntryFieldAt(q, d, i);
    }
    SortedPositional(f, g);
  }

  lemma EntrySortedIff(p: string, c: Content, q: string, d: Content)
    ensures Sorted(EntryJson(p, c)) == Sorted(EntryJson(q, d)) <==> p == q && SameContent(c, d)
  {
    if Sorted(EntryJson(p, c)) == Sorted(EntryJson(q, d)) {
      forall i | 0 <= i < 9 ensures SameAt(p, c, q, d, i) {
        EntrySortedAt(p, c, q, d, i);
      }
      SameAtEveryColumn(p, c, q, d);
    }
    if p == q && SameContent(c, d) {
      SameContentSameColumns(p, c, d);
      SameColumnsSortAlike(p, c, q, d);
    }
  }

  lemma SameContentSameColumns(p: string, c: Content, d: Content)
    requires SameContent(c, d)
    ensures forall i :: 0 <= i < 9 ==> SameAt(p, c, p, d, i)
  {
    forall i | 0 <= i < 9 ensures SameAt(p, c, p, d, i) {
      SameAtIff(p, c, p, d, i);
    }
  }

  lemma SameAtEveryColumn(p: string, c: Content, q: string, d: Content)
    requires forall i :: 0 <= i < 9 ==> SameAt(p, c, q, d, i)
    ensures p == q && SameContent(c, d)
  {
    SameAtIff(p, c, q, d, 0);
    SameAtIff(p, c, q, d, 1);
    SameAtIff(p, c, q, d, 2);
    SameAtIff(p, c, q, d, 3);
    SameAtIff(p, c, q, d, 4);
    SameAtIff(p, c, q, d, 5);
    SameAtIff(p, c, q, d, 6);
    SameAtIff(p, c, q, d, 7);
    SameAtIff(p, c, q, d, 8);
  }

  /** The concatenation prev + entry is unambiguous: it fixes the predecessor and every column. */
  lemma HashInputEqualIff(p: Option<string>, c: Content, q: Option<string>, d: Content)
    requires Storable(c) && Storable(d)
    requires p.Some? ==> |p.value| == 64
    requires q.Some? ==> |q.value| == 64
    requires p != Some(GENESIS_PREV_HASH) && q != Some(GENESIS_PREV_HASH)
    ensures HashInput(p, c) == HashInput(q, d) <==> p == q && SameContent(c, d)
  {
    var x := if p.Some? then p.value else GENESIS_PREV_HASH;
    var y := if q.Some? then q.value else GENESIS_PREV_HASH;
    EntryWellFormed(x, c);
    EntryWellFormed(y, d);
    EntrySortedIff(x, c, y, d);
    CleanBytesIffSorted(EntryJson(x, c), EntryJson(y, d));
    if HashInput(p, c) == HashInput(q, d) {
      assert HashInput(p, c)[..64] == x && HashInput(q, d)[..64] == y;
      assert HashInput(p, c)[64..] == CanonicalEntry(x, c) && HashInput(q, d)[64..] == CanonicalEntry(y, d);
    }
  }

  // ----- What is assumed of SHA-256 --------------------------------------------------

  predicate AllStorable(rows: seq<Event>) {
    forall i :: 0 <= i < |rows| ==> Storable(rows[i].content)
  }

  /** The strings hashed to write or check these rows. */
  function Inputs(rows: seq<Event>): set<string> {
    set i | 0 <= i < |rows| :: HashInput(rows[i].prev, rows[i].content)
  }

  ghost predicate Digests(h: Hash) {
    forall s: string :: |h(s)| == 64
  }

  /** No two of these strings collide and none hashes to the genesis sentinel. */
  predicate Trusted(h: Hash, inputs: set<string>) {
    (forall s, t :: s in inputs && t in inputs && h(s) == h(t) ==> s == t) &&
    (forall s :: s in inputs ==> h(s) != GENESIS_PREV_HASH)
  }

  /** A predecessor name that a linked row can carry. */
  predicate Predecessor(p: Option<string>) {
    p.Some? ==> |p.value| == 64 && p.value != GENESIS_PREV_HASH
  }

  lemma LinkedPredecessor(h: Hash, rows: seq<Event>, i: nat)
    requires Linked(EntryDigest(h), rows) && i < |rows| && Digests(h)
    requires forall s :: s in Inputs(rows) ==> h(s) != GENESIS_PREV_HASH
    ensures Predecessor(rows[i].prev)
  {
    assert LinkOk(EntryDigest(h), rows, i);
    if i > 0 {
      assert LinkOk(EntryDigest(h), rows, i - 1);
      assert rows[..i][i - 1] == rows[i - 1];
      assert HashInput(rows[i - 1].prev, rows[i - 1].content) in Inputs(rows);
    }
  }

  lemma PairBinds(h: Hash, p: Option<string>, c: Content, q: Option<string>, e: Content)
    requires Storable(c) && Storable(e) && Predecessor(p) && Predecessor(q)
    requires Trusted(h, {HashInput(p, c), HashInput(q, e)})
    ensures EntryDigest(h)(p, c) == EntryDigest(h)(q, e) <==> p == q && SameContent(c, e)
  {
    HashInputEqualIff(p, c, q, e);
  }

  /** Under the assumption on SHA-256, an entry hash binds its predecessor and its columns. */
  lemma ShaBinds(h: Hash, s: seq<Event>, t: seq<Event>)
    requires Linked(EntryDigest(h), s) && Linked(EntryDigest(h), t) && AllStorable(s) && AllStorable(t)
    requires Digests(h) && Trusted(h, Inputs(s) + Inputs(t))
    ensures Binds(EntryDigest(h), SameContent, s, t)
  {
    forall i, j | 0 <= i < |s| && 0 <= j < |t|
      ensures EntryDigest(h)(s[i].prev, s[i].content) == EntryDigest(h)(t[j].prev, t[j].content) ==>
        s[i].prev == t[j].prev && SameContent(s[i].content, t[j].content)
    {
      LinkedPredecessor(h, s, i);
      LinkedPredecessor(h, t, j);
      assert HashInput(s[i].prev, s[i].content) in Inputs(s) && HashInput(t[j].prev, t[j].content) in Inputs(t);
      PairBinds(h, s[i].prev, s[i].content, t[j].prev, t[j].content);
    }
  }

  // ----- The audit trail -----------------------------------------------------------------

  lemma InputsOfPrefix(rows: seq<Event>, n: nat)
    requires n <= |rows|
    ensures Inputs(rows[..n]) <= Inputs(rows)
  {
  }

  /**
   Two tables accepted up to some ids with the same head hash hold the same history there,
   row for row, in every hashed column.
   */
  lemma AcceptedTablesWithSameHeadAgree(h: Hash, s: seq<Event>, a: int, t: seq<Event>, b: int)
    requires Ascending(s) && Ascending(t) && AllStorable(s) && AllStorable(t)
    requires Digests(h) && Trusted(h, Inputs(s) + Inputs(t))
    requires Verification(EntryDigest(h), UpTo(s, a)).valid && Verification(EntryDigest(h), UpTo(t, b)).valid
    requires Verification(EntryDigest(h), UpTo(s, a)).headHash == Verification(EntryDigest(h), UpTo(t, b)).headHash
    ensures SameRows(SameContent, UpTo(s, a), UpTo(t, b))
  {
    var j := UpToIsPrefix(s, a);
    var k := UpToIsPrefix(t, b);
    if Linked(EntryDigest(h), s[..j]) && Linked(EntryDigest(h), t[..k]) {
      ShaBindsPrefixes(h, s, j, t, k);
    }
    AcceptedWithSameHeadAgree(EntryDigest(h), SameContent, s[..j], t[..k]);
  }

  lemma ShaBindsPrefixes(h: Hash, s: seq<Event>, j: nat, t: seq<Event>, k: nat)
    requires j <= |s| && k <= |t| && AllStorable(s) && AllStorable(t)
    requires Linked(EntryDigest(h), s[..j]) && Linked(EntryDigest(h), t[..k])
    requires Digests(h) && Trusted(h, Inputs(s) + Inputs(t))
    ensures Binds(EntryDigest(h), SameContent, s[..j], t[..k])
  {
    InputsOfPrefix(s, j);
    InputsOfPrefix(t, k);
    ShaBinds(h, s[..j], t[..k]);
  }

  /** Cutting rows off the tail leaves a table that still verifies, with another head. */
  lemma CutTailDetected(h: Hash, rows: seq<Event>, n: nat)
    requires Linked(EntryDigest(h), rows) && AllStorable(rows) && n < |rows|
    requires Digests(h) && Trusted(h, Inputs(rows))
    ensures Verification(EntryDigest(h), rows[..n]).valid
    ensures Verification(EntryDigest(h), rows[..n]).headHash != Verification(EntryDigest(h), rows).headHash
  {
    ShaBinds(h, rows, rows);
    CutTailChangesHead(EntryDigest(h), SameContent, rows, n);
    VerificationOfLinked(EntryDigest(h), rows[..n]);
    VerificationOfLinked(EntryDigest(h), rows);
  }

  lemma EditBinds(h: Hash, rows: seq<Event>, k: nat, c: Content)
    requires Linked(EntryDigest(h), rows) && AllStorable(rows) && Storable(c) && k < |rows|
    requires Digests(h) && Trusted(h, Inputs(rows) + {HashInput(rows[k].prev, c)})
    ensures EntryDigest(h)(rows[k].prev, c) == rows[k].entry <==> SameContent(c, rows[k].content)
  {
    assert LinkOk(EntryDigest(h), rows, k);
    LinkedPredecessor(h, rows, k);
    assert HashInput(rows[k].prev, rows[k].content) in Inputs(rows);
    PairBinds(h, rows[k].prev, c, rows[k].prev, rows[k].content);
  }

  /** An edit to stored content is reported at that very row, unless it changes nothing hashed. */
  lemma ContentEditReported(h: Hash, rows: seq<Event>, k: nat, c: Content)
    requires Linked(EntryDigest(h), rows) && AllStorable(rows) && Storable(c) && k < |rows|
    requires Digests(h) && Trusted(h, Inputs(rows) + {HashInput(rows[k].prev, c)})
    ensures var v := Verification(EntryDigest(h), rows[k := rows[k].(content := c)]);
      if SameContent(c, rows[k].content) then v.valid
      else v == ChainVerification(k, false, Head(rows[..k]), Some(ChainBreak(rows[k].id, EntryMismatch)))
  {
    EditBinds(h, rows, k, c);
    ContentEdit(EntryDigest(h), rows, k, c);
  }

  /**
   An edit whose own hash is recomputed in place is reported at the next row; on the last
   row the table still verifies, but to another head.
   */
  lemma RehashedEditReported(h: Hash, rows: seq<Event>, k: nat, c: Content)
    requires Linked(EntryDigest(h), rows) && AllStorable(rows) && Storable(c) && k < |rows|
    requires !SameContent(c, rows[k].content)
    requires Digests(h) && Trusted(h, Inputs(rows) + {HashInput(rows[k].prev, c)})
    ensures var t := rows[k := NextRow(EntryDigest(h), rows[k].id, rows[k].prev, c)];
      var v := Verification(EntryDigest(h), t);
      if k + 1 < |rows| then
        v == ChainVerification(k + 1, false, Some(t[k].entry), Some(ChainBreak(rows[k + 1].id, PrevMismatch)))
      else v.valid && v.headHash != Head(rows)
  {
    EditBinds(h, rows, k, c);
    RehashedEdit(EntryDigest(h), rows, k, c);
  }

  /** An anchor is accurate exactly when the chain verified and nothing was committed between its two queries. */
  lemma AnchorPinsChainIff(h: Hash, seen: seq<Event>, later: seq<Event>)
    requires seen <= later && Ascending(later) && AllStorable(later)
    requires Digests(h) && Trusted(h, Inputs(later))
    requires AnchorOf(EntryDigest(h), seen, later).Ok?
    ensures AnchorAccurate(EntryDigest(h), later, AnchorOf(EntryDigest(h), seen, later).value)
       <==> Verification(EntryDigest(h), seen).valid && seen == later
  {
    if Linked(EntryDigest(h), later) {
      ShaBinds(h, later, later);
    }
    ValidIffLinked(EntryDigest(h), seen);
    AnchorAccurateIff(EntryDigest(h), SameContent, seen, later);
  }

  /** One event committed between the two queries always makes the anchor wrong. */
  lemma AnchorRace(h: Hash, seen: seq<Event>, id: nat, c: Content)
    requires seen != [] && Linked(EntryDigest(h), seen)
    requires Ascending(seen + [NextRow(EntryDigest(h), id, Head(seen), c)])
    requires AllStorable(seen) && Storable(c)
    requires Digests(h) && Trusted(h, Inputs(seen + [NextRow(EntryDigest(h), id, Head(seen), c)]))
    ensures var later := seen + [NextRow(EntryDigest(h), id, Head(seen), c)];
      Verification(EntryDigest(h), later).valid && AnchorOf(EntryDigest(h), seen, later).Ok? &&
      !AnchorAccurate(EntryDigest(h), later, AnchorOf(EntryDigest(h), seen, later).value)
  {
    var later := seen + [NextRow(EntryDigest(h), id, Head(seen), c)];
    LinkedExtend(EntryDigest(h), seen, later[|seen|]);
    ShaBinds(h, later, later);
    AnchorRaceLoses(EntryDigest(h), SameContent, seen, id, c);
    VerificationOfLinked(EntryDigest(h), later);
  }
}
