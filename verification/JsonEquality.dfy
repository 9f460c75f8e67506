/**
 What "the same value" means for a payload, independently of how it is rendered, and the
 two conditions under which equal bytes mean exactly that: dict keys are distinct (a
 Python dict always satisfies this) and no text holds a split surrogate pair.
 */
module JsonEquality {
  import opened Wrappers
  import opened Canonical
  import opened JsonReader

  /** Every dict inside the value has distinct keys. */
  predicate DictKeysDistinct(v: Json) {
    match v
    case Arr(items) => forall i :: 0 <= i < |items| ==> DictKeysDistinct(items[i])
    case Obj(fields) => DistinctKeys(fields) && forall i :: 0 <= i < |fields| ==> DictKeysDistinct(fields[i].value)
    case _ => true
  }

  predicate DistinctKeys(fields: seq<Field>) {
    forall i, j :: 0 <= i < j < |fields| ==> fields[i].key != fields[j].key
  }

  /** Every text inside the value survives UTF-16: none holds a split surrogate pair. */
  predicate Clean(v: Json) {
    match v
    case Str(s) => PairFree(s)
    case Arr(items) => forall i :: 0 <= i < |items| ==> Clean(items[i])
    case Obj(fields) => forall i :: 0 <= i < |fields| ==> PairFree(fields[i].key) && Clean(fields[i].value)
    case _ => true
  }

  /** Equality of payloads: dicts are compared by key, whatever their insertion order. */
  predicate SameValue(a: Json, b: Json)
    decreases a
  {
    match (a, b)
    case (Arr(x), Arr(y)) => |x| == |y| && forall i :: 0 <= i < |x| ==> SameValue(x[i], y[i])
    case (Obj(f), Obj(g)) =>
      |f| == |g| && forall i :: 0 <= i < |f| ==> HasTwin(f[i], g)
    case _ => a == b
  }

  /** Some item of the dict has the same key and the same value. */
  predicate HasTwin(x: Field, g: seq<Field>)
    decreases x
  {
    exists j :: 0 <= j < |g| && x.key == g[j].key && SameValue(x.value, g[j].value)
  }

  // ----- Reading back is the identity exactly on clean values ------------------

  lemma {:induction false} SeenItemsAt(items: seq<Json>, i: nat)
    requires i < |items|
    ensures SeenItems(items)[i] == Seen(items[i])
  {
    if i > 0 {
      SeenItemsAt(items[1..], i - 1);
    }
  }

  lemma {:induction false} SeenFieldsAt(fields: seq<Field>, i: nat)
    requires i < |fields|
    ensures SeenFields(fields)[i] == Field(Decode(Units(fields[i].key)), Seen(fields[i].value))
  {
    if i > 0 {
      SeenFieldsAt(fields[1..], i - 1);
    }
  }

  lemma {:induction false} SeenIsIdentityIffClean(v: Json)
    ensures Seen(v) == v <==> Clean(v)
  {
    match v {
      case Str(s) => TextSurvivesIff(s);
      case Arr(items) =>
        forall i | 0 <= i < |items| ensures SeenItems(items)[i] == items[i] <==> Clean(items[i]) {
          SeenItemsAt(items, i);
          SeenIsIdentityIffClean(items[i]);
        }
        assert SeenItems(items) == items <==> forall i :: 0 <= i < |items| ==> SeenItems(items)[i] == items[i];
      case Obj(fields) =>
        forall i | 0 <= i < |fields|
          ensures SeenFields(fields)[i] == fields[i] <==> PairFree(fields[i].key) && Clean(fields[i].value)
        {
          SeenFieldsAt(fields, i);
          TextSurvivesIff(fields[i].key);
          SeenIsIdentityIffClean(fields[i].value);
        }
        assert SeenFields(fields) == fields <==>
          forall i :: 0 <= i < |fields| ==> SeenFields(fields)[i] == fields[i];
      case _ =>
    }
  }

  // ----- Sorting keeps the contents ---------------------------------------------

  lemma {:induction false} SortedItemsAt(items: seq<Json>, i: nat)
    requires i < |items|
    ensures SortedItems(items)[i] == Sorted(items[i])
  {
    if i > 0 {
      SortedItemsAt(items[1..], i - 1);
    }
  }

  lemma {:induction false} SortedFieldsAt(fields: seq<Field>, i: nat)
    requires i < |fields|
    ensures SortedFields(fields)[i] == Field(fields[i].key, Sorted(fields[i].value))
  {
    if i > 0 {
      SortedFieldsAt(fields[1..], i - 1);
    }
  }

  lemma SameElements(a: seq<Field>, b: seq<Field>, i: nat) returns (j: nat)
    requires multiset(a) == multiset(b) && i < |a|
    ensures j < |b| && b[j] == a[i]
  {
    assert a[i] in multiset(a);
    assert a[i] in b;
    j :| 0 <= j < |b| && b[j] == a[i];
  }

  lemma {:induction false} SortedKeepsClean(v: Json)
    ensures Clean(Sorted(v)) <==> Clean(v)
    decreases v, 1
  {
    match v {
      case Arr(items) =>
        forall i | 0 <= i < |items| ensures Clean(SortedItems(items)[i]) <==> Clean(items[i]) {
          SortedItemsAt(items, i);
          SortedKeepsClean(items[i]);
        }
      case Obj(fields) =>
        SortedFieldsKeepClean(fields);
        FieldsCleanPermutes(SortedFields(fields), SortFields(SortedFields(fields)));
        FieldsCleanPermutes(SortFields(SortedFields(fields)), SortedFields(fields));
      case _ =>
    }
  }

  lemma {:induction false} SortedFieldsKeepClean(fields: seq<Field>)
    ensures Clean(Obj(SortedFields(fields))) <==> Clean(Obj(fields))
    decreases fields, 0
  {
    var inner := SortedFields(fields);
    forall i | 0 <= i < |inner|
      ensures PairFree(inner[i].key) && Clean(inner[i].value) <==> PairFree(fields[i].key) && Clean(fields[i].value)
    {
      SortedFieldsAt(fields, i);
      SortedKeepsClean(fields[i].value);
    }
  }

  lemma FieldsCleanPermutes(a: seq<Field>, b: seq<Field>)
    requires multiset(a) == multiset(b)
    ensures Clean(Obj(a)) ==> Clean(Obj(b))
  {
    if Clean(Obj(a)) {
      forall i | 0 <= i < |b| ensures PairFree(b[i].key) && Clean(b[i].value) {
        var j := SameElements(b, a, i);
      }
    }
  }

  // ----- Strictly sorted sequences are determined by their elements ----------------

  lemma {:induction false} LessTotal(a: PyString, b: PyString)
    ensures !(Less(a, b) && Less(b, a))
    ensures Less(a, b) || Less(b, a) || a == b
    ensures !Less(a, a)
  {
    if a != [] && b != [] && a[0] == b[0] {
      LessTotal(a[1..], b[1..]);
      assert a == [a[0]] + a[1..] && b == [b[0]] + b[1..];
    }
    LessIrreflexive(a);
  }

  lemma {:induction false} LessIrreflexive(a: PyString)
    ensures !Less(a, a)
  {
    if a != [] {
      LessIrreflexive(a[1..]);
    }
  }

  lemma {:induction false} LessTransitive(a: PyString, b: PyString, c: PyString)
    requires Less(a, b) && Less(b, c)
    ensures Less(a, c)
  {
    if a != [] && a[0] == b[0] && b[0] == c[0] {
      LessTransitive(a[1..], b[1..], c[1..]);
    }
  }

  predicate StrictlySorted(fs: seq<Field>) {
    forall i, j :: 0 <= i < j < |fs| ==> Less(fs[i].key, fs[j].key)
  }

  lemma {:induction false} InsertSorts(f: Field, fs: seq<Field>)
    requires StrictlySorted(fs)
    requires forall i :: 0 <= i < |fs| ==> fs[i].key != f.key
    ensures StrictlySorted(Insert(f, fs))
  {
    if fs == [] {
    } else if Less(fs[0].key, f.key) {
      var tail := Insert(f, fs[1..]);
      InsertSorts(f, fs[1..]);
      forall j | 0 <= j < |tail| ensures Less(fs[0].key, tail[j].key) {
        InsertedFrom(f, fs[1..], j);
      }
      ConsSorts(fs[0], tail);
    } else {
      LessTotal(fs[0].key, f.key);
      forall j | 0 <= j < |fs| ensures Less(f.key, fs[j].key) {
        if j > 0 {
          LessTransitive(f.key, fs[0].key, fs[j].key);
        }
      }
      ConsSorts(f, fs);
    }
  }

  lemma InsertedFrom(f: Field, fs: seq<Field>, j: nat)
    requires j < |Insert(f, fs)|
    ensures Insert(f, fs)[j] == f || Insert(f, fs)[j] in fs
  {
    assert multiset(Insert(f, fs)) == multiset([f] + fs);
    var k := SameElements(Insert(f, fs), [f] + fs, j);
  }

  lemma ConsSorts(f: Field, fs: seq<Field>)
    requires StrictlySorted(fs)
    requires forall j :: 0 <= j < |fs| ==> Less(f.key, fs[j].key)
    ensures StrictlySorted([f] + fs)
  {
  }

  lemma {:induction false} SortFieldsSorts(fs: seq<Field>)
    requires DistinctKeys(fs)
    ensures StrictlySorted(SortFields(fs))
  {
    if fs != [] {
      var tail := SortFields(fs[1..]);
      SortFieldsSorts(fs[1..]);
      forall i | 0 <= i < |tail| ensures tail[i].key != fs[0].key {
        var j := SameElements(tail, fs[1..], i);
      }
      InsertSorts(fs[0], tail);
    }
  }

  lemma SmallerComesFirst(b: seq<Field>, p: nat, f: Field)
    requires StrictlySorted(b) && p < |b| && f in b && Less(f.key, b[p].key)
    ensures f in b[..p]
  {
    var q :| 0 <= q < |b| && b[q] == f;
    LessTotal(f.key, b[p].key);
    assert b[..p][q] == f;
  }

  /** A strictly sorted sequence drawn from another is no longer, and equal if as long. */
  lemma {:induction false} SortedSubset(a: seq<Field>, b: seq<Field>)
    requires StrictlySorted(a) && StrictlySorted(b)
    requires forall i :: 0 <= i < |a| ==> a[i] in b
    ensures |a| <= |b|
    ensures |a| == |b| ==> a == b
  {
    if a != [] {
      var n := |a| - 1;
      var p :| 0 <= p < |b| && b[p] == a[n];
      forall i | 0 <= i < n ensures a[i] in b[..p] {
        SmallerComesFirst(b, p, a[i]);
      }
      SortedSubset(a[..n], b[..p]);
      if |a| == |b| {
        assert a == a[..n] + [a[n]] && b == b[..p] + [b[p]];
      }
    }
  }

  // ----- Sorted forms coincide exactly for the same value ---------------------------

  lemma {:induction false} SortedEqualIffSame(a: Json, b: Json)
    requires DictKeysDistinct(a) && DictKeysDistinct(b)
    ensures Sorted(a) == Sorted(b) <==> SameValue(a, b)
    decreases a
  {
    match (a, b) {
      case (Arr(x), Arr(y)) => ItemsEqualIffSame(x, y);
      case (Obj(f), Obj(g)) => FieldsEqualIffSame(f, g);
      case _ => OtherEqualIffSame(a, b);
    }
  }

  lemma OtherEqualIffSame(a: Json, b: Json)
    requires !(a.Arr? && b.Arr?) && !(a.Obj? && b.Obj?)
    ensures Sorted(a) == Sorted(b) <==> SameValue(a, b)
  {
  }

  lemma {:induction false} ItemsEqualIffSame(x: seq<Json>, y: seq<Json>)
    requires DictKeysDistinct(Arr(x)) && DictKeysDistinct(Arr(y))
    ensures Sorted(Arr(x)) == Sorted(Arr(y)) <==> SameValue(Arr(x), Arr(y))
    decreases x
  {
    if |x| == |y| {
      forall i | 0 <= i < |x| ensures SortedItems(x)[i] == SortedItems(y)[i] <==> SameValue(x[i], y[i]) {
        SortedItemsAt(x, i);
        SortedItemsAt(y, i);
        SortedEqualIffSame(x[i], y[i]);
      }
      assert SortedItems(x) == SortedItems(y) <==>
        forall i :: 0 <= i < |x| ==> SortedItems(x)[i] == SortedItems(y)[i];
    }
  }

  lemma {:induction false} FieldsEqualIffSame(f: seq<Field>, g: seq<Field>)
    requires DictKeysDistinct(Obj(f)) && DictKeysDistinct(Obj(g))
    ensures Sorted(Obj(f)) == Sorted(Obj(g)) <==> SameValue(Obj(f), Obj(g))
    decreases f, 2
  {
    if Sorted(Obj(f)) == Sorted(Obj(g)) {
      SortedEqualMeansSame(f, g);
    }
    if SameValue(Obj(f), Obj(g)) {
      SameMeansSortedEqual(f, g);
    }
  }

  /** Equal sorted dicts: every item has a twin, with the same key and the same sorted value. */
  lemma SortedTwin(f: seq<Field>, g: seq<Field>, i: nat) returns (j: nat)
    requires SortFields(SortedFields(f)) == SortFields(SortedFields(g)) && i < |f|
    ensures j < |g| && f[i].key == g[j].key && Sorted(f[i].value) == Sorted(g[j].value)
  {
    var sf, sg := SortedFields(f), SortedFields(g);
    assert multiset(sf) == multiset(SortFields(sf)) == multiset(sg);
    j := SameElements(sf, sg, i);
    SortedFieldsAt(f, i);
    SortedFieldsAt(g, j);
  }

  lemma SortKeepsLength(fs: seq<Field>)
    ensures |SortFields(fs)| == |fs|
  {
    assert |SortFields(fs)| == |multiset(SortFields(fs))| == |multiset(fs)|;
  }

  lemma ValueKeysDistinct(f: seq<Field>, i: nat)
    requires DictKeysDistinct(Obj(f)) && i < |f|
    ensures DictKeysDistinct(f[i].value)
  {
  }

  lemma {:induction false} FieldHasTwin(f: seq<Field>, g: seq<Field>, i: nat)
    requires DictKeysDistinct(Obj(f)) && DictKeysDistinct(Obj(g))
    requires SortFields(SortedFields(f)) == SortFields(SortedFields(g)) && i < |f|
    ensures HasTwin(f[i], g)
    decreases f, 0
  {
    var j := SortedTwin(f, g, i);
    ValueKeysDistinct(f, i);
    ValueKeysDistinct(g, j);
    SortedEqualIffSame(f[i].value, g[j].value);
  }

  lemma {:induction false} SortedEqualMeansSame(f: seq<Field>, g: seq<Field>)
    requires DictKeysDistinct(Obj(f)) && DictKeysDistinct(Obj(g))
    requires SortFields(SortedFields(f)) == SortFields(SortedFields(g))
    ensures SameValue(Obj(f), Obj(g))
    decreases f, 1
  {
    SortKeepsLength(SortedFields(f));
    SortKeepsLength(SortedFields(g));
    forall i | 0 <= i < |f| ensures HasTwin(f[i], g) {
      FieldHasTwin(f, g, i);
    }
  }

  /** Items with twins sort to the same sequence. */
  lemma TwinsSortAlike(f: seq<Field>, g: seq<Field>)
    requires DistinctKeys(f) && DistinctKeys(g) && |f| == |g|
    requires forall i :: 0 <= i < |f| ==> Field(f[i].key, Sorted(f[i].value)) in SortedFields(g)
    ensures SortFields(SortedFields(f)) == SortFields(SortedFields(g))
  {
    var sf, sg := SortedFields(f), SortedFields(g);
    var a, b := SortFields(sf), SortFields(sg);
    forall i | 0 <= i < |a| ensures a[i] in b {
      var j := SameElements(a, sf, i);
      SortedFieldsAt(f, j);
      assert sf[j] in sg;
      assert sf[j] in multiset(sg) && multiset(sg) == multiset(b);
    }
    SortKeepsLength(sf);
    SortKeepsLength(sg);
    SortFieldsSorts(sf);
    SortFieldsSorts(sg);
    SortedSubset(a, b);
  }

  lemma {:induction false} SameMeansSortedEqual(f: seq<Field>, g: seq<Field>)
    requires DictKeysDistinct(Obj(f)) && DictKeysDistinct(Obj(g))
    requires SameValue(Obj(f), Obj(g))
    ensures Sorted(Obj(f)) == Sorted(Obj(g))
    decreases f, 0
  {
    forall i | 0 <= i < |f| ensures Field(f[i].key, Sorted(f[i].value)) in SortedFields(g) {
      assert HasTwin(f[i], g);
      var j :| 0 <= j < |g| && f[i].key == g[j].key && SameValue(f[i].value, g[j].value);
      SortedFieldsAt(g, j);
      SortedEqualIffSame(f[i].value, g[j].value);
    }
    TwinsSortAlike(f, g);
  }

  // ----- The main statements -----------------------------------------------------------

  /** The rendering is a faithful copy of the sorted value exactly when the value is clean. */
  lemma RenderingFaithfulIff(v: Json)
    ensures Read(CanonicalJson(v)) == Some((Sorted(v), "")) <==> Clean(v)
  {
    RenderingReadsBack(v, "");
    assert CanonicalJson(v) + "" == CanonicalJson(v);
    SeenIsIdentityIffClean(Sorted(v));
    SortedKeepsClean(v);
  }

  lemma CleanBytesIffSorted(a: Json, b: Json)
    requires Clean(a) && Clean(b)
    ensures CanonicalJson(a) == CanonicalJson(b) <==> Sorted(a) == Sorted(b)
  {
    RenderingEqualIff(a, b);
    SeenIsIdentityIffClean(Sorted(a));
    SeenIsIdentityIffClean(Sorted(b));
    SortedKeepsClean(a);
    SortedKeepsClean(b);
  }

  /** For clean payloads, equal bytes mean the same value and nothing less. */
  lemma SameBytesIffSameValue(a: Json, b: Json)
    requires DictKeysDistinct(a) && DictKeysDistinct(b)
    requires Clean(a) && Clean(b)
    ensures CanonicalJson(a) == CanonicalJson(b) <==> SameValue(a, b)
  {
    CleanBytesIffSorted(a, b);
    SortedEqualIffSame(a, b);
  }
}
