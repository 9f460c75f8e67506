/**
 What the hashed string of one audit entry says to an independent reader: nine keys in
 ascending order, each with its own column, and nothing else.
 */
module AuditEntry {
  import Digits
  import opened Wrappers
  import opened Canonical
  import opened JsonReader
  import opened JsonEquality
  import opened AuditChain

  // ----- The order of keys --------------------------------------------------------------

  /** a comes before b: at the first place they differ its code point is smaller, or it ends there. */
  predicate Precedes(a: PyString, b: PyString, k: nat) {
    && k <= |a| && k < |b| && a[..k] == b[..k]
    && (k < |a| ==> a[k] < b[k])
  }

  lemma {:induction false} LessAt(a: PyString, b: PyString, k: nat)
    requires Precedes(a, b, k)
    ensures Less(a, b)
  {
    if k > 0 {
      assert a[..k][0] == b[..k][0];
      assert a[1..][..k - 1] == a[..k][1..] && b[1..][..k - 1] == b[..k][1..];
      LessAt(a[1..], b[1..], k - 1);
    }
  }

  lemma {:induction false} LessWhere(a: PyString, b: PyString) returns (k: nat)
    requires Less(a, b)
    ensures Precedes(a, b, k)
  {
    if a == [] || a[0] != b[0] {
      k := 0;
    } else {
      var j := LessWhere(a[1..], b[1..]);
      k := j + 1;
      assert a[..k] == [a[0]] + a[1..][..j] && b[..k] == [b[0]] + b[1..][..j];
    }
  }

  /** Keys are ordered by code point, at the first place where they differ. */
  lemma LessIff(a: PyString, b: PyString)
    ensures Less(a, b) <==> exists k: nat :: Precedes(a, b, k)
  {
    if Less(a, b) {
      var k := LessWhere(a, b);
    }
    forall k: nat | Precedes(a, b, k) ensures Less(a, b) {
      LessAt(a, b, k);
    }
  }

  /** A dict is rendered with its keys in that order. */
  lemma KeysAscend(fields: seq<Field>, i: nat, j: nat)
    requires DistinctKeys(fields) && i < j < |fields|
    ensures Sorted(Obj(fields)).Obj? && |Sorted(Obj(fields)).fields| == |fields|
    ensures exists k: nat :: Precedes(Sorted(Obj(fields)).fields[i].key, Sorted(Obj(fields)).fields[j].key, k)
  {
    var fs := SortFields(SortedFields(fields));
    SortKeepsLength(SortedFields(fields));
    SortFieldsSorts(SortedFields(fields));
    LessIff(fs[i].key, fs[j].key);
  }

  lemma {:induction false} AdjacentSorts(fs: seq<Field>)
    requires forall i :: 0 <= i < |fs| - 1 ==> Less(fs[i].key, fs[i + 1].key)
    ensures StrictlySorted(fs)
  {
    if |fs| > 1 {
      var rest := fs[1..];
      assert forall i :: 0 <= i < |rest| - 1 ==> Less(rest[i].key, rest[i + 1].key);
      AdjacentSorts(rest);
      forall j | 0 <= j < |rest| ensures Less(fs[0].key, rest[j].key) {
        if j > 0 {
          LessTransitive(fs[0].key, rest[0].key, rest[j].key);
        }
      }
      ConsSorts(fs[0], rest);
      assert [fs[0]] + rest == fs;
    }
  }

  // ----- The entry a reader sees -----------------------------------------------------------

  function SeenText(t: Option<PyString>): Json {
    if t.None? then Null else Str(Decode(Units(t.value)))
  }

  function SeenDict(d: Option<seq<Field>>): Json {
    if d.None? then Null else Seen(Sorted(Obj(d.value)))
  }

  /** The nine items of a hashed entry, as they are read back. */
  function SeenEntry(prev: string, c: Content): seq<Field> {
    [Field(Text("action"), Str(Decode(Units(c.action)))),
     Field(Text("actor_id"), if c.actorId.None? then Null else Int(c.actorId.value)),
     Field(Text("actor_ip"), SeenText(c.actorIp)),
     Field(Text("after"), SeenDict(c.after)),
     Field(Text("before"), SeenDict(c.before)),
     Field(Text("prev_entry_hash"), Str(Text(prev))),
     Field(Text("reason"), SeenText(c.reason)),
     Field(Text("record_id"), Int(c.recordId)),
     Field(Text("table_name"), Str(Decode(Units(c.tableName))))]
  }

  /** Where each item of that list stands among the columns as they are listed. */
  function Place(i: nat): (k: nat)
    requires i < 9
    ensures k < 9
  {
    [3, 7, 8, 5, 4, 0, 6, 2, 1][i]
  }

  /** The same nine items before they are read: the columns, permuted. */
  function Arranged(prev: string, c: Content): seq<Field> {
    seq(9, i requires 0 <= i < 9 => SortedFields(EntryFields(prev, c))[Place(i)])
  }

  lemma KeysInOrder()
    ensures Less(Text("action"), Text("actor_id")) && Less(Text("actor_id"), Text("actor_ip"))
    ensures Less(Text("actor_ip"), Text("after")) && Less(Text("after"), Text("before"))
    ensures Less(Text("before"), Text("prev_entry_hash")) && Less(Text("prev_entry_hash"), Text("reason"))
    ensures Less(Text("reason"), Text("record_id")) && Less(Text("record_id"), Text("table_name"))
  {
    LessAt(Text("action"), Text("actor_id"), 3);
    LessAt(Text("actor_id"), Text("actor_ip"), 7);
    LessAt(Text("actor_ip"), Text("after"), 1);
    LessAt(Text("after"), Text("before"), 0);
    LessAt(Text("before"), Text("prev_entry_hash"), 0);
    LessAt(Text("prev_entry_hash"), Text("reason"), 0);
    LessAt(Text("reason"), Text("record_id"), 2);
    LessAt(Text("record_id"), Text("table_name"), 0);
  }

  lemma ArrangedAt(prev: string, c: Content, i: nat)
    requires i < 9
    ensures var k := Place(i);
      Arranged(prev, c)[i] == Field(Text(COLUMNS[k]), Sorted(Column(prev, c, k)))
  {
    var k := Place(i);
    EntryFieldAt(prev, c, k);
    SortedFieldsAt(EntryFields(prev, c), k);
  }

  lemma SeenColumn(prev: string, c: Content, k: nat)
    requires k < 9
    ensures Seen(Sorted(Column(prev, c, k))) ==
      match k
      case 0 => Str(Text(prev))
      case 1 => Str(Decode(Units(c.tableName)))
      case 2 => Int(c.recordId)
      case 3 => Str(Decode(Units(c.action)))
      case 4 => SeenDict(c.before)
      case 5 => SeenDict(c.after)
      case 6 => SeenText(c.reason)
      case 7 => if c.actorId.None? then Null else Int(c.actorId.value)
      case _ => SeenText(c.actorIp)
  {
    AsciiIsPairFree(prev);
    TextSurvivesIff(Text(prev));
  }

  lemma SeenKey(i: nat)
    requires i < 9
    ensures Decode(Units(Text(COLUMNS[Place(i)]))) == Text(COLUMNS[Place(i)])
  {
    AsciiIsPairFree(COLUMNS[Place(i)]);
    TextSurvivesIff(Text(COLUMNS[Place(i)]));
  }

  /** The only place where the keys as they are listed meet the keys as they are read. */
  lemma EntryAt(prev: string, c: Content, i: nat)
    requires i < 9
    ensures SeenEntry(prev, c)[i] == Field(Text(COLUMNS[Place(i)]), Seen(Sorted(Column(prev, c, Place(i)))))
  {
    SeenColumn(prev, c, Place(i));
  }

  lemma ArrangedSeen(prev: string, c: Content, i: nat)
    requires i < 9
    ensures var f := Arranged(prev, c)[i];
      f.key == SeenEntry(prev, c)[i].key && Field(Decode(Units(f.key)), Seen(f.value)) == SeenEntry(prev, c)[i]
  {
    ArrangedAt(prev, c, i);
    EntryAt(prev, c, i);
    SeenKey(i);
  }

  lemma ArrangedSorts(prev: string, c: Content)
    ensures StrictlySorted(Arranged(prev, c))
  {
    var fs := Arranged(prev, c);
    forall i | 0 <= i < 8 ensures Less(fs[i].key, fs[i + 1].key) {
      ArrangedSeen(prev, c, i);
      ArrangedSeen(prev, c, i + 1);
      EntryKeysInOrder(prev, c, i);
    }
    AdjacentSorts(fs);
  }

  lemma EntryKeysInOrder(prev: string, c: Content, i: nat)
    requires i < 8
    ensures Less(SeenEntry(prev, c)[i].key, SeenEntry(prev, c)[i + 1].key)
  {
    KeysInOrder();
  }

  lemma SortedEntryIs(prev: string, c: Content)
    ensures Sorted(EntryJson(prev, c)) == Obj(Arranged(prev, c))
  {
    var fs, a := SortedFields(EntryFields(prev, c)), Arranged(prev, c);
    EntryKeysDistinct(prev, c);
    SortFieldsSorts(fs);
    SortKeepsLength(fs);
    ArrangedSorts(prev, c);
    forall i | 0 <= i < 9 ensures a[i] in SortFields(fs) {
      assert fs[Place(i)] in multiset(fs) && multiset(fs) == multiset(SortFields(fs));
    }
    SortedSubset(a, SortFields(fs));
    SortedObj(EntryFields(prev, c));
  }

  /**
   The rendered entry reads back as exactly these nine items, in ascending order of their keys
   and with nothing after them: each column is hashed under its own name.
   */
  lemma EntryReadsBack(prev: string, c: Content)
    ensures Read(CanonicalEntry(prev, c)) == Some((Obj(SeenEntry(prev, c)), ""))
  {
    var a := Arranged(prev, c);
    RenderingReadsBack(EntryJson(prev, c), "");
    assert CanonicalEntry(prev, c) + "" == CanonicalEntry(prev, c);
    SortedEntryIs(prev, c);
    forall i | 0 <= i < 9 ensures SeenFields(a)[i] == SeenEntry(prev, c)[i] {
      SeenFieldsAt(a, i);
      ArrangedSeen(prev, c, i);
    }
    assert SeenFields(a) == SeenEntry(prev, c);
  }

  /** What is hashed: the predecessor's hash, or sixty-four zeros, and then that entry. */
  lemma HashInputReadsBack(prev: Option<string>, c: Content)
    requires prev.Some? ==> |prev.value| == 64
    ensures var t := HashInput(prev, c);
      && |t| > 64 && (if prev.Some? then t[..64] == prev.value else forall i :: 0 <= i < 64 ==> t[i] == '0')
      && Read(t[64..]) == Some((Obj(SeenEntry(t[..64], c)), ""))
  {
    var p := if prev.Some? then prev.value else GENESIS_PREV_HASH;
    EntryReadsBack(p, c);
    ZerosAre(64);
    assert HashInput(prev, c)[..64] == p && HashInput(prev, c)[64..] == CanonicalEntry(p, c);
  }

  lemma {:induction false} ZerosAre(k: nat)
    ensures forall i :: 0 <= i < k ==> Digits.Zeros(k)[i] == '0'
  {
    if k > 0 {
      ZerosAre(k - 1);
    }
  }
}
