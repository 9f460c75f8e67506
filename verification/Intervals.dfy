/** Downhole intervals and the sort-and-sweep that finds every pair claiming the same rock. */
module Intervals {
  import opened Wrappers

  datatype Interval = Interval(from: real, to: real)
  {
    /** Half-open and advancing down the hole. */
    predicate Valid() {
      0.0 <= from < to
    }

    function Length(): real {
      to - from
    }

    predicate Overlaps(other: Interval) {
      from < other.to && other.from < to
    }

    /** Field-by-field order. */
    predicate AtMost(other: Interval) {
      from < other.from || (from == other.from && to <= other.to)
    }
  }

  predicate Holds(i: Interval, depth: real) {
    i.from <= depth < i.to
  }

  /** Two intervals overlap exactly when some depth lies in both. */
  lemma OverlapIsSharedRock(a: Interval, b: Interval)
    requires a.Valid() && b.Valid()
    ensures a.Overlaps(b) <==> exists depth :: Holds(a, depth) && Holds(b, depth)
  {
    if a.Overlaps(b) {
      var depth := if a.from >= b.from then a.from else b.from;
      assert Holds(a, depth) && Holds(b, depth);
    }
  }

  datatype Entry = Entry(name: string, interval: Interval)

  predicate AllValid(s: seq<Entry>) {
    forall i :: 0 <= i < |s| ==> s[i].interval.Valid()
  }

  // ----- sorted(intervals, key=interval) -------------------------------------------------

  function Insert(x: Entry, s: seq<Entry>): (r: seq<Entry>)
    ensures multiset(r) == multiset([x]) + multiset(s)
  {
    if s == [] || x.interval.AtMost(s[0].interval) then [x] + s
    else
      assert s == [s[0]] + s[1..];
      [s[0]] + Insert(x, s[1..])
  }

  function Sorted(s: seq<Entry>): (r: seq<Entry>)
    ensures multiset(r) == multiset(s)
  {
    if s == [] then []
    else
      assert s == [s[0]] + s[1..];
      Insert(s[0], Sorted(s[1..]))
  }

  predicate InOrder(s: seq<Entry>) {
    forall i, j :: 0 <= i < j < |s| ==> s[i].interval.AtMost(s[j].interval)
  }

  lemma InsertMembers(x: Entry, s: seq<Entry>, i: nat)
    requires i < |Insert(x, s)|
    ensures Insert(x, s)[i] == x || Insert(x, s)[i] in s
  {
    assert Insert(x, s)[i] in multiset(Insert(x, s));
  }

  lemma {:induction false} InsertInOrder(x: Entry, s: seq<Entry>)
    requires InOrder(s)
    ensures InOrder(Insert(x, s))
  {
    if s != [] && !x.interval.AtMost(s[0].interval) {
      var tail := Insert(x, s[1..]);
      InsertInOrder(x, s[1..]);
      forall j | 0 <= j < |tail| ensures s[0].interval.AtMost(tail[j].interval) {
        InsertMembers(x, s[1..], j);
      }
    }
  }

  lemma {:induction false} SortedInOrder(s: seq<Entry>)
    ensures InOrder(Sorted(s))
  {
    if s != [] {
      SortedInOrder(s[1..]);
      InsertInOrder(s[0], Sorted(s[1..]));
    }
  }

  /** Shallower starts come first, then shallower ends. */
  lemma SortedByDepth(s: seq<Entry>, i: nat, j: nat)
    requires i < j < |Sorted(s)|
    ensures var a, b := Sorted(s)[i].interval, Sorted(s)[j].interval;
      a.from < b.from || (a.from == b.from && a.to <= b.to)
  {
    SortedInOrder(s);
  }

  /** The entries of one interval, in order. */
  function Among(s: seq<Entry>, interval: Interval): seq<Entry> {
    if s == [] then [] else OwnAmong(s[0], interval) + Among(s[1..], interval)
  }

  lemma {:induction false} InsertKeepsOrder(x: Entry, s: seq<Entry>, interval: Interval)
    ensures Among(Insert(x, s), interval) == OwnAmong(x, interval) + Among(s, interval)
  {
    if s == [] || x.interval.AtMost(s[0].interval) {
      AmongCons(x, s, interval);
    } else {
      var rest := s[1..];
      InsertKeepsOrder(x, rest, interval);
      AmongCons(s[0], Insert(x, rest), interval);
      assert x.interval != s[0].interval;
      OneOrOther(OwnAmong(x, interval), OwnAmong(s[0], interval), Among(rest, interval));
    }
  }

  lemma OneOrOther(a: seq<Entry>, b: seq<Entry>, c: seq<Entry>)
    requires a == [] || b == []
    ensures b + (a + c) == a + (b + c)
  {
    assert a == [] ==> b + (a + c) == b + c == a + (b + c);
    assert b == [] ==> b + (a + c) == a + c == a + (b + c);
  }

  function OwnAmong(x: Entry, interval: Interval): seq<Entry> {
    if x.interval == interval then [x] else []
  }

  lemma AmongCons(x: Entry, s: seq<Entry>, interval: Interval)
    ensures Among([x] + s, interval) == OwnAmong(x, interval) + Among(s, interval)
  {
    assert ([x] + s)[1..] == s;
  }

  /** Equal intervals keep the order they came in. */
  lemma {:induction false} SortIsStable(s: seq<Entry>, interval: Interval)
    ensures Among(Sorted(s), interval) == Among(s, interval)
  {
    if s != [] {
      SortIsStable(s[1..], interval);
      InsertKeepsOrder(s[0], Sorted(s[1..]), interval);
    }
  }

  lemma SortedKeepsValid(s: seq<Entry>)
    requires AllValid(s)
    ensures AllValid(Sorted(s))
  {
    forall i | 0 <= i < |Sorted(s)| ensures Sorted(s)[i].interval.Valid() {
      assert Sorted(s)[i] in multiset(Sorted(s));
      assert Sorted(s)[i] in s;
    }
  }

  // ----- The all-pairs definition -----------------------------------------------------------

  function PairsWith(x: Entry, s: seq<Entry>): seq<(string, string)> {
    if s == [] then []
    else (if x.interval.Overlaps(s[0].interval) then [(x.name, s[0].name)] else []) + PairsWith(x, s[1..])
  }

  /** Every overlapping pair of positions, earlier position first. */
  function AllPairs(s: seq<Entry>): seq<(string, string)> {
    if s == [] then [] else PairsWith(s[0], s[1..]) + AllPairs(s[1..])
  }

  /** How often a and b are reported as a pair, whichever comes first. */
  function Count(pairs: seq<(string, string)>, a: string, b: string): nat {
    if pairs == [] then 0
    else (if pairs[0] == (a, b) || pairs[0] == (b, a) then 1 else 0) + Count(pairs[1..], a, b)
  }

  lemma {:induction false} CountConcat(p: seq<(string, string)>, q: seq<(string, string)>, a: string, b: string)
    ensures Count(p + q, a, b) == Count(p, a, b) + Count(q, a, b)
  {
    if p == [] {
      assert p + q == q;
    } else {
      CountConcat(p[1..], q, a, b);
      assert (p + q)[1..] == p[1..] + q;
    }
  }

  /** How often a and b are a pair between x and the entries of s. */
  function CountWith(x: Entry, s: seq<Entry>, a: string, b: string): nat {
    Count(PairsWith(x, s), a, b)
  }

  /** The pair of two entries, if they overlap. */
  function OnePair(x: Entry, y: Entry): seq<(string, string)> {
    if x.interval.Overlaps(y.interval) then [(x.name, y.name)] else []
  }

  lemma PairsWithCons(x: Entry, y: Entry, s: seq<Entry>)
    ensures PairsWith(x, [y] + s) == OnePair(x, y) + PairsWith(x, s)
  {
    assert ([y] + s)[1..] == s;
  }

  lemma {:induction false} PairsWithConcat(x: Entry, s: seq<Entry>, t: seq<Entry>)
    ensures PairsWith(x, s + t) == PairsWith(x, s) + PairsWith(x, t)
  {
    if s == [] {
      assert s + t == t;
    } else {
      PairsWithConcat(x, s[1..], t);
      PairsWithCons(x, s[0], s[1..] + t);
      PairsWithCons(x, s[0], s[1..]);
      Regroup([s[0]], s[1..], t);
      assert [s[0]] + s[1..] == s;
      Regroup(OnePair(x, s[0]), PairsWith(x, s[1..]), PairsWith(x, t));
    }
  }

  lemma Regroup<T>(a: seq<T>, b: seq<T>, c: seq<T>)
    ensures a + b + c == a + (b + c)
  {
  }

  lemma CountWithStep(x: Entry, s: seq<Entry>, a: string, b: string)
    requires s != []
    ensures CountWith(x, s, a, b) == CountWith(x, [s[0]], a, b) + CountWith(x, s[1..], a, b)
  {
    PairsWithConcat(x, [s[0]], s[1..]);
    assert [s[0]] + s[1..] == s;
    CountConcat(PairsWith(x, [s[0]]), PairsWith(x, s[1..]), a, b);
  }

  /** How the pairs of one entry change when another is inserted into the rest. */
  lemma {:induction false} CountWithInsert(x: Entry, y: Entry, s: seq<Entry>, a: string, b: string)
    ensures CountWith(x, Insert(y, s), a, b) == CountWith(x, [y], a, b) + CountWith(x, s, a, b)
  {
    CountWithStep(x, Insert(y, s), a, b);
    if s == [] || y.interval.AtMost(s[0].interval) {
      assert ([y] + s)[1..] == s;
    } else {
      CountWithInsert(x, y, s[1..], a, b);
      CountWithStep(x, s, a, b);
      assert Insert(y, s)[1..] == Insert(y, s[1..]);
    }
  }

  lemma {:induction false} CountWithSorted(x: Entry, s: seq<Entry>, a: string, b: string)
    ensures CountWith(x, Sorted(s), a, b) == CountWith(x, s, a, b)
  {
    if s != [] {
      CountWithSorted(x, s[1..], a, b);
      CountWithInsert(x, s[0], Sorted(s[1..]), a, b);
      CountWithStep(x, s, a, b);
    }
  }

  lemma CountWithSymmetric(x: Entry, y: Entry, a: string, b: string)
    ensures CountWith(x, [y], a, b) == CountWith(y, [x], a, b)
  {
    assert PairsWith(x, [y]) == if x.interval.Overlaps(y.interval) then [(x.name, y.name)] else [];
    assert PairsWith(y, [x]) == if y.interval.Overlaps(x.interval) then [(y.name, x.name)] else [];
  }

  lemma CountAllStep(s: seq<Entry>, a: string, b: string)
    requires s != []
    ensures Count(AllPairs(s), a, b) == CountWith(s[0], s[1..], a, b) + Count(AllPairs(s[1..]), a, b)
  {
    CountConcat(PairsWith(s[0], s[1..]), AllPairs(s[1..]), a, b);
  }

  lemma {:induction false} CountAllInsert(y: Entry, s: seq<Entry>, a: string, b: string)
    ensures Count(AllPairs(Insert(y, s)), a, b) == CountWith(y, s, a, b) + Count(AllPairs(s), a, b)
  {
    CountAllStep(Insert(y, s), a, b);
    if s == [] || y.interval.AtMost(s[0].interval) {
      assert ([y] + s)[1..] == s;
    } else {
      var x, rest := s[0], s[1..];
      assert Insert(y, s)[1..] == Insert(y, rest);
      CountAllInsert(y, rest, a, b);
      CountWithInsert(x, y, rest, a, b);
      CountWithSymmetric(x, y, a, b);
      CountWithStep(y, s, a, b);
      CountAllStep(s, a, b);
    }
  }

  /** Sorting neither loses, invents nor repeats an overlapping pair. */
  lemma {:induction false} SortingKeepsPairs(s: seq<Entry>, a: string, b: string)
    ensures Count(AllPairs(Sorted(s)), a, b) == Count(AllPairs(s), a, b)
  {
    if s != [] {
      SortingKeepsPairs(s[1..], a, b);
      CountAllInsert(s[0], Sorted(s[1..]), a, b);
      CountWithSorted(s[0], s[1..], a, b);
      CountAllStep(s, a, b);
    }
  }

  // ----- The sweep ------------------------------------------------------------------------------

  /** Past an entry that starts at or after this one ends, nothing overlaps it. */
  lemma {:induction false} NothingPastTheEnd(x: Entry, s: seq<Entry>)
    requires InOrder(s)
    requires s != [] ==> s[0].interval.from >= x.interval.to
    ensures PairsWith(x, s) == []
  {
    if s != [] {
      assert |s| > 1 ==> s[0].interval.AtMost(s[1].interval);
      NothingPastTheEnd(x, s[1..]);
    }
  }

  /** The pairs whose first entry is among the first n. */
  function PairsFrom(s: seq<Entry>, n: nat): seq<(string, string)>
    requires n <= |s|
  {
    if n == 0 then [] else PairsFrom(s, n - 1) + PairsWith(s[n - 1], s[n..])
  }

  lemma PairsFromNext(s: seq<Entry>, n: nat)
    requires n < |s|
    ensures PairsFrom(s, n + 1) == PairsFrom(s, n) + PairsWith(s[n], s[n + 1..])
  {
  }

  lemma {:induction false} PairsFromIsAll(s: seq<Entry>, n: nat)
    requires n <= |s|
    ensures PairsFrom(s, n) + AllPairs(s[n..]) == AllPairs(s)
  {
    if n > 0 {
      PairsFromIsAll(s, n - 1);
      assert s[n - 1..][1..] == s[n..];
    } else {
      assert s[0..] == s;
    }
  }

  lemma PairsWithSplit(x: Entry, s: seq<Entry>, j: nat)
    requires j <= |s|
    ensures PairsWith(x, s) == PairsWith(x, s[..j]) + PairsWith(x, s[j..])
    ensures j < |s| ==> PairsWith(x, s[..j + 1]) == PairsWith(x, s[..j]) + PairsWith(x, [s[j]])
  {
    assert s == s[..j] + s[j..];
    PairsWithConcat(x, s[..j], s[j..]);
    if j < |s| {
      assert s[..j + 1] == s[..j] + [s[j]];
      PairsWithConcat(x, s[..j], [s[j]]);
    }
  }

  lemma SweepStep(before: seq<(string, string)>, x: Entry, s: seq<Entry>, j: nat)
    requires j < |s|
    ensures before + PairsWith(x, s[..j + 1])
         == before + PairsWith(x, s[..j]) + (if x.interval.Overlaps(s[j].interval) then [(x.name, s[j].name)] else [])
  {
    PairsWithSplit(x, s, j);
    assert PairsWith(x, [s[j]]) == if x.interval.Overlaps(s[j].interval) then [(x.name, s[j].name)] else [];
  }

  /** Breaking off the inner loop skips nothing. */
  lemma BreakSkipsNothing(ordered: seq<Entry>, index: nat, j: nat)
    requires InOrder(ordered) && index < |ordered| && j < |ordered[index + 1..]|
    requires ordered[index + 1..][j].interval.from >= ordered[index].interval.to
    ensures PairsWith(ordered[index], ordered[index + 1..]) == PairsWith(ordered[index], ordered[index + 1..][..j])
  {
    var rest := ordered[index + 1..];
    PairsWithSplit(ordered[index], rest, j);
    NothingPastTheEnd(ordered[index], rest[j..]);
  }

  /** Every pair of entries claiming the same rock, in the order of the sorted list. */
  method FindOverlaps(intervals: seq<Entry>) returns (conflicts: seq<(string, string)>)
    ensures conflicts == AllPairs(Sorted(intervals))
  {
    var ordered := Sorted(intervals);
    SortedInOrder(intervals);
    conflicts := [];
    var index := 0;
    while index < |ordered|
      invariant index <= |ordered|
      invariant conflicts == PairsFrom(ordered, index)
    {
      ghost var before := conflicts;
      var entry := ordered[index];
      var rest := ordered[index + 1..];
      var j := 0;
      assert PairsWith(entry, rest[..0]) == [];
      while j < |rest|
        invariant j <= |rest|
        invariant conflicts == before + PairsWith(entry, rest[..j])
      {
        var other := rest[j];
        if other.interval.from >= entry.interval.to {
          BreakSkipsNothing(ordered, index, j);
          assert conflicts == before + PairsWith(entry, rest);
          break;
        }
        SweepStep(before, entry, rest, j);
        if entry.interval.Overlaps(other.interval) {
          conflicts := conflicts + [(entry.name, other.name)];
        }
        j := j + 1;
      }
      assert j == |rest| ==> rest[..j] == rest;
      assert conflicts == before + PairsWith(entry, rest);
      PairsFromNext(ordered, index);
      index := index + 1;
    }
    PairsFromIsAll(ordered, |ordered|);
    assert ordered[|ordered|..] == [];
  }

  // ----- No overlap means the rock is covered at most once -----------------------------------------

  function TotalLength(s: seq<Entry>): real {
    if s == [] then 0.0 else s[0].interval.Length() + TotalLength(s[1..])
  }

  lemma {:induction false} TotalLengthInsert(x: Entry, s: seq<Entry>)
    ensures TotalLength(Insert(x, s)) == x.interval.Length() + TotalLength(s)
  {
    if s == [] || x.interval.AtMost(s[0].interval) {
      assert ([x] + s)[1..] == s;
    } else {
      TotalLengthInsert(x, s[1..]);
    }
  }

  lemma {:induction false} TotalLengthSorted(s: seq<Entry>)
    ensures TotalLength(Sorted(s)) == TotalLength(s)
  {
    if s != [] {
      TotalLengthSorted(s[1..]);
      TotalLengthInsert(s[0], Sorted(s[1..]));
    }
  }

  predicate Within(s: seq<Entry>, lo: real, hi: real) {
    forall i :: 0 <= i < |s| ==> lo <= s[i].interval.from && s[i].interval.to <= hi
  }

  lemma {:induction false} OrderedCoverage(s: seq<Entry>, lo: real, hi: real)
    requires AllValid(s) && InOrder(s) && AllPairs(s) == [] && lo <= hi
    requires Within(s, lo, hi)
    ensures TotalLength(s) <= hi - lo
  {
    if s != [] {
      var x, rest := s[0], s[1..];
      forall i | 0 <= i < |rest| ensures x.interval.to <= rest[i].interval.from {
        assert s[0].interval.AtMost(s[i + 1].interval);
        NoPairAt(x, rest, i);
      }
      OrderedCoverage(rest, x.interval.to, hi);
    }
  }

  lemma {:induction false} NoPairAt(x: Entry, s: seq<Entry>, i: nat)
    requires PairsWith(x, s) == [] && i < |s|
    ensures !x.interval.Overlaps(s[i].interval)
  {
    if i > 0 {
      NoPairAt(x, s[1..], i - 1);
    }
  }

  /** Intervals laid end to end sum to the depth from the first top to the last bottom. */
  lemma {:induction false} EndToEndLengths(s: seq<Entry>)
    requires s != [] && (forall i :: 0 < i < |s| ==> s[i].interval.from == s[i - 1].interval.to)
    ensures TotalLength(s) == s[|s| - 1].interval.to - s[0].interval.from
  {
    if |s| > 1 {
      forall i | 0 < i < |s[1..]| ensures s[1..][i].interval.from == s[1..][i - 1].interval.to {
        assert s[i + 1].interval.from == s[i].interval.to;
      }
      EndToEndLengths(s[1..]);
      assert s[1].interval.from == s[0].interval.to;
    }
  }

  /** When nothing overlaps, the lengths sum to at most any span that holds all the intervals. */
  lemma NoOverlapCoversOnce(s: seq<Entry>, lo: real, hi: real)
    requires AllValid(s) && AllPairs(s) == [] && lo <= hi && Within(s, lo, hi)
    ensures TotalLength(s) <= hi - lo
  {
    var t := Sorted(s);
    SortedInOrder(s);
    SortedKeepsValid(s);
    if AllPairs(t) != [] {
      SortingKeepsPairs(s, AllPairs(t)[0].0, AllPairs(t)[0].1);
    }
    forall i | 0 <= i < |t| ensures lo <= t[i].interval.from && t[i].interval.to <= hi {
      assert t[i] in multiset(t);
      assert t[i] in s;
    }
    OrderedCoverage(t, lo, hi);
    TotalLengthSorted(s);
  }
}
