/**
 Append-only tables corrected by supersession: a correction is a new row naming the row
 it replaces. Row ids are positions. Three tables have this shape: fire assay results
 (keyed by sample), element readings (by sample, element and digest) and certificates
 (by client).
 */
module Chains {
  import opened Wrappers

  datatype Link<K> = Link(key: K, supersedes: Option<nat>)

  /** Some row names row i as the one it replaces. */
  predicate Superseded<K>(t: seq<Link<K>>, i: nat) {
    exists j :: 0 <= j < |t| && t[j].supersedes == Some(i)
  }

  predicate IsHead<K(==)>(t: seq<Link<K>>, key: K, i: nat) {
    i < |t| && t[i].key == key && !Superseded(t, i)
  }

  function Heads<K(==)>(t: seq<Link<K>>, key: K): set<nat> {
    set i: nat | 0 <= i < |t| && IsHead(t, key, i)
  }

  function Roots<K(==)>(t: seq<Link<K>>, key: K): set<nat> {
    set i: nat | 0 <= i < |t| && t[i].key == key && t[i].supersedes.None?
  }

  /** The anti-join query: of the rows nothing supersedes, the one with the highest id below n. */
  function HighestHead<K(==)>(t: seq<Link<K>>, key: K, n: nat): Option<nat>
    requires n <= |t|
  {
    if n == 0 then None
    else if IsHead(t, key, n - 1) then Some(n - 1)
    else HighestHead(t, key, n - 1)
  }

  function Current<K(==)>(t: seq<Link<K>>, key: K): Option<nat> {
    HighestHead(t, key, |t|)
  }

  /** A row may join when it supersedes nothing, or a row of its own key that is still a head. */
  predicate MayJoin<K(==)>(t: seq<Link<K>>, l: Link<K>) {
    l.supersedes.Some? ==> IsHead(t, l.key, l.supersedes.value)
  }

  ghost predicate WellLinked<K>(t: seq<Link<K>>) {
    forall i :: 0 <= i < |t| ==> MayJoin(t[..i], t[i])
  }

  /** The row supersedes nothing, or a row of its own key, whether or not that one is still a head. */
  predicate Names<K(==)>(t: seq<Link<K>>, l: Link<K>) {
    l.supersedes.Some? ==> l.supersedes.value < |t| && t[l.supersedes.value].key == l.key
  }

  ghost predicate Named<K>(t: seq<Link<K>>) {
    forall i :: 0 <= i < |t| ==> Names(t[..i], t[i])
  }

  lemma LinkedIsNamed<K>(t: seq<Link<K>>)
    requires WellLinked(t)
    ensures Named(t)
  {
  }

  lemma NamesKeepsNamed<K>(t: seq<Link<K>>, l: Link<K>)
    requires Named(t) && Names(t, l)
    ensures Named(t + [l])
  {
  }

  lemma JoinKeepsLinked<K>(t: seq<Link<K>>, l: Link<K>)
    requires WellLinked(t) && MayJoin(t, l)
    ensures WellLinked(t + [l])
  {
  }

  lemma PrefixLinked<K>(t: seq<Link<K>>, n: nat)
    requires WellLinked(t) && n <= |t|
    ensures WellLinked(t[..n])
  {
    forall i | 0 <= i < n ensures MayJoin(t[..n][..i], t[..n][i]) {
      assert t[..n][..i] == t[..i];
    }
  }

  // ----- Heads and roots -------------------------------------------------------------------

  lemma SupersededAppend<K>(t: seq<Link<K>>, l: Link<K>, i: nat)
    ensures Superseded(t + [l], i) <==> Superseded(t, i) || l.supersedes == Some(i)
  {
    if Superseded(t, i) {
      var j :| 0 <= j < |t| && t[j].supersedes == Some(i);
      assert (t + [l])[j] == t[j];
    }
    if l.supersedes == Some(i) {
      assert (t + [l])[|t|] == l;
    }
  }

  /** Nothing supersedes a row that is not there yet. */
  lemma NoneAhead<K>(t: seq<Link<K>>, i: nat)
    requires Named(t) && i >= |t|
    ensures !Superseded(t, i)
  {
  }

  lemma HeadsAppend<K>(t: seq<Link<K>>, l: Link<K>, key: K)
    requires Named(t) && Names(t, l)
    ensures Heads(t + [l], key)
         == Heads(t, key) - (if l.supersedes.Some? then {l.supersedes.value} else {})
            + (if l.key == key then {|t|} else {})
  {
    var u := t + [l];
    NoneAhead(t, |t|);
    forall i: nat | i < |u|
      ensures IsHead(u, key, i) <==>
        if i == |t| then l.key == key else IsHead(t, key, i) && l.supersedes != Some(i)
    {
      SupersededAppend(t, l, i);
    }
  }

  lemma RootsAppend<K>(t: seq<Link<K>>, l: Link<K>, key: K)
    ensures Roots(t + [l], key) == Roots(t, key) + (if l.key == key && l.supersedes.None? then {|t|} else {})
  {
  }

  /** One more current row for each row appended, and one less where it supersedes one. */
  lemma HeadCount<K>(t: seq<Link<K>>, l: Link<K>, key: K)
    requires Named(t) && Names(t, l)
    ensures |Heads(t + [l], key)| == |Heads(t, key)|
      + (if l.key == key && (l.supersedes.None? || Superseded(t, l.supersedes.value)) then 1 else 0)
  {
    HeadsAppend(t, l, key);
    assert |t| !in Heads(t, key);
    if l.supersedes.Some? {
      var v := l.supersedes.value;
      assert v in Heads(t, key) <==> l.key == key && !Superseded(t, v);
    }
  }

  lemma RootCount<K>(t: seq<Link<K>>, l: Link<K>, key: K)
    ensures |Roots(t + [l], key)| == |Roots(t, key)| + (if l.key == key && l.supersedes.None? then 1 else 0)
  {
    RootsAppend(t, l, key);
    assert |t| !in Roots(t, key);
  }

  /** As many current rows as rows that were entered fresh: a correction never adds or loses one. */
  lemma {:induction false} HeadsEqualRoots<K>(t: seq<Link<K>>, key: K)
    requires WellLinked(t)
    ensures |Heads(t, key)| == |Roots(t, key)|
  {
    if t == [] {
      assert Heads(t, key) == {} && Roots(t, key) == {};
    } else {
      var n := |t| - 1;
      var before, l := t[..n], t[n];
      assert t == before + [l];
      assert MayJoin(before, l);
      PrefixLinked(t, n);
      HeadsEqualRoots(before, key);
      LinkedIsNamed(before);
      HeadCount(before, l, key);
      RootCount(before, l, key);
    }
  }

  // ----- Chains -------------------------------------------------------------------------------

  /** The rows from the first version of a row up to it. */
  function ChainOf<K>(t: seq<Link<K>>, i: nat): seq<nat>
    requires i < |t|
    decreases i
  {
    if t[i].supersedes.Some? && t[i].supersedes.value < i then ChainOf(t, t[i].supersedes.value) + [i] else [i]
  }

  lemma {:induction false} ChainFacts<K>(t: seq<Link<K>>, i: nat)
    requires WellLinked(t) && i < |t|
    ensures forall x :: x in ChainOf(t, i) ==> x <= i && t[x].key == t[i].key
    ensures forall a, b :: 0 <= a < b < |ChainOf(t, i)| ==> ChainOf(t, i)[a] < ChainOf(t, i)[b]
    ensures i in ChainOf(t, i) && ChainOf(t, i)[|ChainOf(t, i)| - 1] == i
    ensures t[ChainOf(t, i)[0]].supersedes.None?
    ensures forall a :: 0 < a < |ChainOf(t, i)| ==> t[ChainOf(t, i)[a]].supersedes == Some(ChainOf(t, i)[a - 1])
    decreases i
  {
    assert MayJoin(t[..i], t[i]);
    if t[i].supersedes.Some? {
      ChainFacts(t, t[i].supersedes.value);
    }
  }

  /** A row is superseded at most once. */
  lemma OneSuccessor<K>(t: seq<Link<K>>, a: nat, b: nat)
    requires WellLinked(t) && a < |t| && b < |t|
    requires t[a].supersedes.Some? && t[a].supersedes == t[b].supersedes
    ensures a == b
  {
  }

  /** A row on a head's chain is the head, or its one successor is on the chain too. */
  lemma {:induction false} ChainClosedUpward<K>(t: seq<Link<K>>, h: nat, i: nat, j: nat)
    requires WellLinked(t) && h < |t| && j < |t| && i in ChainOf(t, h) && t[j].supersedes == Some(i)
    ensures i == h || j in ChainOf(t, h)
    decreases h
  {
    assert MayJoin(t[..h], t[h]);
    if i != h {
      var below := t[h].supersedes.value;
      if i == below {
        OneSuccessor(t, j, h);
      } else {
        ChainClosedUpward(t, below, i, j);
      }
    }
  }

  /** No two heads share a row of their chains. */
  lemma {:induction false} ChainsAreDisjoint<K>(t: seq<Link<K>>, key: K, g: nat, h: nat, i: nat)
    requires WellLinked(t) && IsHead(t, key, g) && IsHead(t, key, h)
    requires i in ChainOf(t, g) && i in ChainOf(t, h)
    ensures g == h
    decreases |t| - i
  {
    ChainFacts(t, g);
    ChainFacts(t, h);
    if Superseded(t, i) {
      var j :| 0 <= j < |t| && t[j].supersedes == Some(i);
      assert MayJoin(t[..j], t[j]);
      ChainClosedUpward(t, g, i, j);
      ChainClosedUpward(t, h, i, j);
      ChainsAreDisjoint(t, key, g, h, j);
    } else {
      OnlyHeadUnsuperseded(t, g, i);
      OnlyHeadUnsuperseded(t, h, i);
    }
  }

  lemma {:induction false} OnlyHeadUnsuperseded<K>(t: seq<Link<K>>, h: nat, i: nat)
    requires WellLinked(t) && h < |t| && i in ChainOf(t, h) && !Superseded(t, i)
    ensures i == h
    decreases h
  {
    assert MayJoin(t[..h], t[h]);
    if i != h {
      OnlyHeadUnsuperseded(t, t[h].supersedes.value, i);
    }
  }

  /** Every row is on the chain of some head: corrections lead on to a current row. */
  lemma {:induction false} EveryRowReachesAHead<K>(t: seq<Link<K>>, i: nat) returns (h: nat)
    requires WellLinked(t) && i < |t|
    ensures IsHead(t, t[i].key, h) && i in ChainOf(t, h)
    decreases |t| - i
  {
    if Superseded(t, i) {
      var j :| 0 <= j < |t| && t[j].supersedes == Some(i);
      assert MayJoin(t[..j], t[j]);
      h := EveryRowReachesAHead(t, j);
      ChainClosedDownward(t, h, j);
    } else {
      h := i;
      ChainFacts(t, i);
    }
  }

  lemma {:induction false} ChainClosedDownward<K>(t: seq<Link<K>>, h: nat, j: nat)
    requires WellLinked(t) && h < |t| && j in ChainOf(t, h) && j < |t| && t[j].supersedes.Some?
    ensures t[j].supersedes.value in ChainOf(t, h)
    decreases h
  {
    assert MayJoin(t[..h], t[h]);
    if j == h {
      ChainFacts(t, t[h].supersedes.value);
    } else {
      ChainClosedDownward(t, t[h].supersedes.value, j);
    }
  }

  /** So the chains partition the rows of a key: each row is on exactly one head's chain. */
  lemma ChainsPartition<K>(t: seq<Link<K>>, i: nat)
    requires WellLinked(t) && i < |t|
    ensures exists h :: IsHead(t, t[i].key, h) && i in ChainOf(t, h)
    ensures forall g, h ::
      (IsHead(t, t[i].key, g) && IsHead(t, t[i].key, h) && i in ChainOf(t, g) && i in ChainOf(t, h)) ==> g == h
  {
    var h := EveryRowReachesAHead(t, i);
    assert IsHead(t, t[i].key, h) && i in ChainOf(t, h);
    forall g, h | IsHead(t, t[i].key, g) && IsHead(t, t[i].key, h) && i in ChainOf(t, g) && i in ChainOf(t, h)
      ensures g == h
    {
      ChainsAreDisjoint(t, t[i].key, g, h, i);
    }
  }

  // ----- The query, and tables with one chain per key ---------------------------------------------

  lemma {:induction false} HighestHeadIs<K>(t: seq<Link<K>>, key: K, n: nat)
    requires n <= |t|
    ensures HighestHead(t, key, n).None? ==> forall i: nat :: i < n ==> !IsHead(t, key, i)
    ensures HighestHead(t, key, n).Some? ==>
      var c := HighestHead(t, key, n).value;
      c < n && IsHead(t, key, c) && forall i: nat :: c < i < n ==> !IsHead(t, key, i)
  {
    if n > 0 {
      HighestHeadIs(t, key, n - 1);
    }
  }

  /** Fresh rows are entered only where the key has no row yet. */
  ghost predicate OneRoot<K>(t: seq<Link<K>>) {
    forall i, j :: 0 <= i < j < |t| && t[i].key == t[j].key ==> t[j].supersedes.Some?
  }

  function LastOf<K(==)>(t: seq<Link<K>>, key: K): Option<nat> {
    if t == [] then None
    else if t[|t| - 1].key == key then Some(|t| - 1)
    else LastOf(t[..|t| - 1], key)
  }

  lemma {:induction false} LastOfIs<K>(t: seq<Link<K>>, key: K)
    ensures LastOf(t, key).None? ==> forall i :: 0 <= i < |t| ==> t[i].key != key
    ensures LastOf(t, key).Some? ==>
      var c := LastOf(t, key).value;
      c < |t| && t[c].key == key && forall i :: c < i < |t| ==> t[i].key != key
  {
    if t != [] && t[|t| - 1].key != key {
      var u := t[..|t| - 1];
      LastOfIs(u, key);
      assert forall i :: 0 <= i < |u| ==> t[i] == u[i];
    }
  }

  lemma LastIsHead<K>(t: seq<Link<K>>, key: K)
    requires WellLinked(t) && LastOf(t, key).Some?
    ensures IsHead(t, key, LastOf(t, key).value)
  {
    LastOfIs(t, key);
    var c := LastOf(t, key).value;
    forall j | 0 <= j < |t| ensures t[j].supersedes != Some(c) {
      assert MayJoin(t[..j], t[j]);
    }
  }

  lemma AtMostOneRoot<K>(t: seq<Link<K>>, key: K)
    requires OneRoot(t)
    ensures |Roots(t, key)| <= 1
  {
    if Roots(t, key) != {} {
      var r :| r in Roots(t, key);
      assert Roots(t, key) == {r};
    }
  }

  lemma PairSize(g: nat, h: nat, s: set<nat>)
    requires {g, h} <= s
    ensures g != h ==> |s| >= 2
  {
    if g != h {
      assert |s - {g, h}| == |s| - |{g, h}|;
    }
  }

  lemma AtMostOneHead<K>(t: seq<Link<K>>, key: K, g: nat, h: nat)
    requires WellLinked(t) && OneRoot(t) && IsHead(t, key, g) && IsHead(t, key, h)
    ensures g == h
  {
    HeadsEqualRoots(t, key);
    AtMostOneRoot(t, key);
    assert {g, h} <= Heads(t, key);
    PairSize(g, h, Heads(t, key));
  }

  /** With one root per key, the only current row is the last one entered, and the query returns it. */
  lemma CurrentIsLast<K>(t: seq<Link<K>>, key: K)
    requires WellLinked(t) && OneRoot(t)
    ensures Current(t, key) == LastOf(t, key)
    ensures forall i: nat :: IsHead(t, key, i) <==> Current(t, key) == Some(i)
  {
    HighestHeadIs(t, key, |t|);
    LastOfIs(t, key);
    if LastOf(t, key).Some? {
      LastIsHead(t, key);
      forall i: nat | IsHead(t, key, i) ensures i == LastOf(t, key).value {
        AtMostOneHead(t, key, i, LastOf(t, key).value);
      }
    }
  }

  /** Then each row supersedes exactly the row entered before it for its key: one linear chain. */
  lemma LinksToPrevious<K>(t: seq<Link<K>>, i: nat)
    requires WellLinked(t) && OneRoot(t) && i < |t|
    ensures t[i].supersedes == LastOf(t[..i], t[i].key)
  {
    var before := t[..i];
    PrefixLinked(t, i);
    assert MayJoin(before, t[i]);
    assert OneRoot(before);
    CurrentIsLast(before, t[i].key);
    LastOfIs(before, t[i].key);
    if t[i].supersedes.None? && LastOf(before, t[i].key).Some? {
      assert t[LastOf(before, t[i].key).value].key == t[i].key;
    }
  }

  /** The chain of the current row holds every row of the key. */
  lemma CurrentChainIsWhole<K>(t: seq<Link<K>>, key: K, i: nat)
    requires WellLinked(t) && OneRoot(t) && Current(t, key).Some? && i < |t|
    ensures Current(t, key).value < |t|
    ensures i in ChainOf(t, Current(t, key).value) <==> t[i].key == key
  {
    CurrentIsLast(t, key);
    var c := Current(t, key).value;
    assert IsHead(t, key, c);
    ChainFacts(t, c);
    if t[i].key == key {
      var h := EveryRowReachesAHead(t, i);
      assert h == c;
    }
  }

  lemma JoinKeepsOneRoot<K>(t: seq<Link<K>>, l: Link<K>)
    requires WellLinked(t) && OneRoot(t) && l.supersedes == Current(t, l.key)
    ensures MayJoin(t, l) && WellLinked(t + [l]) && OneRoot(t + [l])
  {
    CurrentIsLast(t, l.key);
    HighestHeadIs(t, l.key, |t|);
    LastOfIs(t, l.key);
    JoinKeepsLinked(t, l);
  }

  // ----- Growth ---------------------------------------------------------------------------------

  /** Once superseded, always superseded. */
  lemma SupersededForever<K>(t: seq<Link<K>>, u: seq<Link<K>>, i: nat)
    requires t <= u && Superseded(t, i)
    ensures Superseded(u, i)
  {
    var j :| 0 <= j < |t| && t[j].supersedes == Some(i);
    assert u[j] == t[j];
  }

  /** A chain, once formed, is never rewritten. */
  lemma {:induction false} ChainsNeverChange<K>(t: seq<Link<K>>, u: seq<Link<K>>, i: nat)
    requires t <= u && i < |t|
    ensures ChainOf(u, i) == ChainOf(t, i)
    decreases i
  {
    assert u[i] == t[i];
    if t[i].supersedes.Some? && t[i].supersedes.value < i {
      ChainsNeverChange(t, u, t[i].supersedes.value);
    }
  }
}
