/**
 Hash-chained rows, whatever they hold: a row names its predecessor's hash, and its own
 hash is a digest of that name and its content. The digest is a parameter; what a digest
 has to distinguish is stated about the rows at hand only.
 */
module HashChain {
  import opened Wrappers

  datatype Row<C> = Row(id: nat, content: C, prev: Option<string>, entry: string)

  type Digest<!C> = (Option<string>, C) -> string

  function Head<C>(rows: seq<Row<C>>): Option<string> {
    if rows == [] then None else Some(rows[|rows| - 1].entry)
  }

  function NextRow<C>(d: Digest<C>, id: nat, tip: Option<string>, c: C): Row<C> {
    Row(id, c, tip, d(tip, c))
  }

  /** The two checks made of one row. */
  predicate LinkOk<C>(d: Digest<C>, rows: seq<Row<C>>, i: nat)
    requires i < |rows|
  {
    rows[i].prev == Head(rows[..i]) && rows[i].entry == d(rows[i].prev, rows[i].content)
  }

  predicate Linked<C>(d: Digest<C>, rows: seq<Row<C>>) {
    forall i :: 0 <= i < |rows| ==> LinkOk(d, rows, i)
  }

  predicate Ascending<C>(rows: seq<Row<C>>) {
    forall i, j :: 0 <= i < j < |rows| ==> rows[i].id < rows[j].id
  }

  lemma LinkedPrefix<C>(d: Digest<C>, rows: seq<Row<C>>, n: nat)
    requires Linked(d, rows) && n <= |rows|
    ensures Linked(d, rows[..n])
  {
    forall i | 0 <= i < n ensures LinkOk(d, rows[..n], i) {
      assert LinkOk(d, rows, i);
      assert rows[..n][..i] == rows[..i];
    }
  }

  lemma LinkedExtend<C>(d: Digest<C>, rows: seq<Row<C>>, row: Row<C>)
    requires Linked(d, rows)
    requires row.prev == Head(rows) && row.entry == d(row.prev, row.content)
    ensures Linked(d, rows + [row])
  {
    var all := rows + [row];
    forall i | 0 <= i < |all| ensures LinkOk(d, all, i) {
      if i < |rows| {
        assert LinkOk(d, rows, i);
        assert all[..i] == rows[..i];
      } else {
        assert all[..i] == rows;
      }
    }
  }

  // ----- A head pins its history ---------------------------------------------------------

  /** Between rows of s and rows of t, equal digests mean the same predecessor and the same content. */
  ghost predicate Binds<C>(d: Digest<C>, same: (C, C) -> bool, s: seq<Row<C>>, t: seq<Row<C>>) {
    forall i, j :: 0 <= i < |s| && 0 <= j < |t| && d(s[i].prev, s[i].content) == d(t[j].prev, t[j].content) ==>
      s[i].prev == t[j].prev && same(s[i].content, t[j].content)
  }

  predicate SameRow<C>(same: (C, C) -> bool, r: Row<C>, q: Row<C>) {
    r.prev == q.prev && r.entry == q.entry && same(r.content, q.content)
  }

  predicate SameRows<C>(same: (C, C) -> bool, s: seq<Row<C>>, t: seq<Row<C>>) {
    |s| == |t| && forall i :: 0 <= i < |s| ==> SameRow(same, s[i], t[i])
  }

  /** Linked tables with equal heads hold the same history, row for row. */
  lemma {:induction false} HeadPinsHistory<C>(d: Digest<C>, same: (C, C) -> bool, s: seq<Row<C>>, t: seq<Row<C>>)
    requires Linked(d, s) && Linked(d, t) && Binds(d, same, s, t)
    requires Head(s) == Head(t)
    ensures SameRows(same, s, t)
    decreases |s|
  {
    if s != [] && t != [] {
      var m, n := |s| - 1, |t| - 1;
      assert LinkOk(d, s, m) && LinkOk(d, t, n);
      LinkedPrefix(d, s, m);
      LinkedPrefix(d, t, n);
      HeadPinsHistory(d, same, s[..m], t[..n]);
      forall i | 0 <= i < m ensures SameRow(same, s[i], t[i]) {
        assert SameRow(same, s[..m][i], t[..n][i]);
      }
    }
  }

  /** A table cut at the tail still links, but never to the same head. */
  lemma CutTailChangesHead<C>(d: Digest<C>, same: (C, C) -> bool, rows: seq<Row<C>>, n: nat)
    requires Linked(d, rows) && Binds(d, same, rows, rows) && n < |rows|
    ensures Linked(d, rows[..n]) && Head(rows[..n]) != Head(rows)
  {
    LinkedPrefix(d, rows, n);
    if Head(rows[..n]) == Head(rows) {
      HeadPinsHistory(d, same, rows[..n], rows);
    }
  }

  /** No two rows of a linked table name the same predecessor. */
  lemma PredecessorsDistinct<C>(d: Digest<C>, same: (C, C) -> bool, rows: seq<Row<C>>, i: nat, j: nat)
    requires Linked(d, rows) && Binds(d, same, rows, rows) && i < j < |rows|
    ensures rows[i].prev != rows[j].prev
  {
    assert LinkOk(d, rows, i) && LinkOk(d, rows, j);
    LinkedPrefix(d, rows, j);
    assert rows[..j][..i] == rows[..i];
    CutTailChangesHead(d, same, rows[..j], i);
  }

  // ----- Verification: the longest linked prefix ------------------------------------------

  datatype BreakReason = PrevMismatch | EntryMismatch
  datatype ChainBreak = ChainBreak(id: nat, reason: BreakReason)
  datatype ChainVerification = ChainVerification(
    verifiedCount: nat, valid: bool, headHash: Option<string>, firstBreak: Option<ChainBreak>)

  /** How many rows link, counted from the start, before the first that does not. */
  function VerifiedLength<C>(d: Digest<C>, rows: seq<Row<C>>): (n: nat)
    ensures n <= |rows|
  {
    if rows == [] then 0
    else
      var last := |rows| - 1;
      var n := VerifiedLength(d, rows[..last]);
      if n == last && LinkOk(d, rows, last) then last + 1 else n
  }

  function BrokenAt<C>(rows: seq<Row<C>>, n: nat): ChainVerification
    requires n < |rows|
  {
    ChainVerification(n, false, Head(rows[..n]), Some(ChainBreak(rows[n].id,
      if rows[n].prev != Head(rows[..n]) then PrevMismatch else EntryMismatch)))
  }

  function Verification<C>(d: Digest<C>, rows: seq<Row<C>>): ChainVerification {
    var n := VerifiedLength(d, rows);
    if n == |rows| then ChainVerification(n, true, Head(rows), None) else BrokenAt(rows, n)
  }

  lemma NotLinkedPast<C>(d: Digest<C>, rows: seq<Row<C>>, n: nat, k: nat)
    requires n < k <= |rows| && !LinkOk(d, rows, n)
    ensures !Linked(d, rows[..k])
  {
    assert rows[..k][..n] == rows[..n];
    assert !LinkOk(d, rows[..k], n);
  }

  lemma {:induction false} VerifiedLengthStops<C>(d: Digest<C>, rows: seq<Row<C>>)
    ensures var n := VerifiedLength(d, rows); Linked(d, rows[..n]) && (n < |rows| ==> !LinkOk(d, rows, n))
  {
    if rows != [] {
      var last := |rows| - 1;
      var front := rows[..last];
      var n := VerifiedLength(d, front);
      VerifiedLengthStops(d, front);
      assert front[..n] == rows[..n];
      if n == last && LinkOk(d, rows, last) {
        LinkedExtend(d, front, rows[last]);
        assert front + [rows[last]] == rows[..last + 1];
      }
    }
  }

  /** The count is the greatest k whose first k rows all link. */
  lemma VerifiedLengthIsLongest<C>(d: Digest<C>, rows: seq<Row<C>>, k: nat)
    requires k <= |rows|
    ensures Linked(d, rows[..k]) <==> k <= VerifiedLength(d, rows)
  {
    var n := VerifiedLength(d, rows);
    VerifiedLengthStops(d, rows);
    if k <= n {
      LinkedPrefix(d, rows[..n], k);
      assert rows[..n][..k] == rows[..k];
    } else {
      NotLinkedPast(d, rows, n, k);
    }
  }

  lemma VerificationOfBroken<C>(d: Digest<C>, rows: seq<Row<C>>, k: nat)
    requires k < |rows| && Linked(d, rows[..k]) && !LinkOk(d, rows, k)
    ensures Verification(d, rows) == BrokenAt(rows, k)
  {
    var n := VerifiedLength(d, rows);
    VerifiedLengthStops(d, rows);
    if n < k {
      NotLinkedPast(d, rows, n, k);
    } else if k < n {
      NotLinkedPast(d, rows, k, n);
    }
  }

  lemma VerificationOfLinked<C>(d: Digest<C>, rows: seq<Row<C>>)
    requires Linked(d, rows)
    ensures Verification(d, rows) == ChainVerification(|rows|, true, Head(rows), None)
  {
    VerifiedLengthIsLongest(d, rows, |rows|);
    assert rows[..|rows|] == rows;
  }

  lemma ValidIffLinked<C>(d: Digest<C>, rows: seq<Row<C>>)
    ensures Verification(d, rows).valid <==> Linked(d, rows)
  {
    VerifiedLengthIsLongest(d, rows, |rows|);
    assert rows[..|rows|] == rows;
  }

  // ----- Verification up to an id -----------------------------------------------------------

  /** The rows a verification up to an id walks. */
  function UpTo<C>(rows: seq<Row<C>>, upto: int): seq<Row<C>> {
    if rows == [] then []
    else
      var last := |rows| - 1;
      if rows[last].id <= upto then UpTo(rows[..last], upto) + [rows[last]] else UpTo(rows[..last], upto)
  }

  lemma {:induction false} UpToAll<C>(rows: seq<Row<C>>, upto: int)
    requires forall i :: 0 <= i < |rows| ==> rows[i].id <= upto
    ensures UpTo(rows, upto) == rows
  {
    if rows != [] {
      var last := |rows| - 1;
      UpToAll(rows[..last], upto);
      assert rows == rows[..last] + [rows[last]];
    }
  }

  /** With ids ascending, verifying up to an id walks a prefix of the table. */
  lemma {:induction false} UpToIsPrefix<C>(rows: seq<Row<C>>, upto: int) returns (k: nat)
    requires Ascending(rows)
    ensures k <= |rows| && UpTo(rows, upto) == rows[..k]
    ensures forall i :: 0 <= i < |rows| ==> (i < k <==> rows[i].id <= upto)
  {
    if rows == [] {
      k := 0;
    } else {
      var last := |rows| - 1;
      if rows[last].id <= upto {
        k := |rows|;
        UpToAll(rows, upto);
      } else {
        k := UpToIsPrefix(rows[..last], upto);
      }
    }
  }

  /** Two accepted tables with the same head agree, row for row. */
  lemma AcceptedWithSameHeadAgree<C>(d: Digest<C>, same: (C, C) -> bool, s: seq<Row<C>>, t: seq<Row<C>>)
    requires Verification(d, s).valid && Verification(d, t).valid
    requires Verification(d, s).headHash == Verification(d, t).headHash
    requires Linked(d, s) && Linked(d, t) ==> Binds(d, same, s, t)
    ensures SameRows(same, s, t)
  {
    ValidIffLinked(d, s);
    ValidIffLinked(d, t);
    VerificationOfLinked(d, s);
    VerificationOfLinked(d, t);
    HeadPinsHistory(d, same, s, t);
  }

  // ----- What tampering looks like ------------------------------------------------------------

  lemma SameHeads<C>(rows: seq<Row<C>>, t: seq<Row<C>>, i: nat)
    requires |rows| == |t| && i <= |t|
    requires forall j :: 0 <= j < |t| ==> t[j].entry == rows[j].entry
    ensures Head(t[..i]) == Head(rows[..i])
  {
  }

  lemma LinksAfterSameEntry<C>(d: Digest<C>, rows: seq<Row<C>>, k: nat, row: Row<C>)
    requires Linked(d, rows) && k < |rows| && row.entry == rows[k].entry
    requires LinkOk(d, rows[k := row], k)
    ensures Linked(d, rows[k := row])
  {
    var t := rows[k := row];
    forall i | 0 <= i < |t| ensures LinkOk(d, t, i) {
      SameHeads(rows, t, i);
      assert LinkOk(d, rows, i);
      assert i != k ==> t[i] == rows[i];
    }
  }

  /** An edit to stored content is reported at that very row, unless its digest is unchanged. */
  lemma ContentEdit<C>(d: Digest<C>, rows: seq<Row<C>>, k: nat, c: C)
    requires Linked(d, rows) && k < |rows|
    ensures var v := Verification(d, rows[k := rows[k].(content := c)]);
      if d(rows[k].prev, c) == rows[k].entry then v.valid
      else v == ChainVerification(k, false, Head(rows[..k]), Some(ChainBreak(rows[k].id, EntryMismatch)))
  {
    var row := rows[k].(content := c);
    var t := rows[k := row];
    assert LinkOk(d, rows, k);
    LinkedPrefix(d, rows, k);
    assert t[..k] == rows[..k];
    if d(rows[k].prev, c) == rows[k].entry {
      LinksAfterSameEntry(d, rows, k, row);
      VerificationOfLinked(d, t);
    } else {
      VerificationOfBroken(d, t, k);
    }
  }

  /**
   An edit whose own hash is recomputed in place is reported at the next row; on the last
   row the table still verifies, but to another head.
   */
  lemma RehashedEdit<C>(d: Digest<C>, rows: seq<Row<C>>, k: nat, c: C)
    requires Linked(d, rows) && k < |rows| && d(rows[k].prev, c) != rows[k].entry
    ensures var t := rows[k := NextRow(d, rows[k].id, rows[k].prev, c)];
      var v := Verification(d, t);
      if k + 1 < |rows| then
        v == ChainVerification(k + 1, false, Some(t[k].entry), Some(ChainBreak(rows[k + 1].id, PrevMismatch)))
      else v.valid && v.headHash != Head(rows)
  {
    var t := rows[k := NextRow(d, rows[k].id, rows[k].prev, c)];
    assert LinkOk(d, rows, k);
    LinkedPrefix(d, rows, k);
    LinkedExtend(d, rows[..k], t[k]);
    assert t[..k + 1] == rows[..k] + [t[k]];
    if k + 1 < |rows| {
      assert LinkOk(d, rows, k + 1);
      assert Head(rows[..k + 1]) == Some(rows[k].entry);
      VerificationOfBroken(d, t, k + 1);
    } else {
      assert t[..k + 1] == t;
      VerificationOfLinked(d, t);
    }
  }

  // ----- Anchors --------------------------------------------------------------------------------

  datatype Anchor = Anchor(anchoredHash: string, chainEventId: nat)
  datatype AnchorError = OtsNotInstalled | ChainEmpty | CalendarFailed

  /**
   What create_anchor pins: the verified head as of its first query, and the id of the
   newest row as of its second. `seen` and `later` are the table at those two moments.
   */
  function AnchorOf<C>(d: Digest<C>, seen: seq<Row<C>>, later: seq<Row<C>>): Result<Anchor, AnchorError> {
    match Verification(d, seen).headHash
    case None => Err(ChainEmpty)
    case Some(hash) => if later == [] then Err(ChainEmpty) else Ok(Anchor(hash, later[|later| - 1].id))
  }

  /** There is nothing to anchor exactly when no row was there or the first one does not link. */
  lemma AnchorRefusedIff<C>(d: Digest<C>, seen: seq<Row<C>>, later: seq<Row<C>>)
    requires seen <= later
    ensures AnchorOf(d, seen, later) == Err(ChainEmpty) <==> seen == [] || !LinkOk(d, seen, 0)
    ensures AnchorOf(d, seen, later).Err? ==> AnchorOf(d, seen, later) == Err(ChainEmpty)
    ensures AnchorOf(d, seen, later).Ok? ==> AnchorOf(d, seen, later).value.chainEventId == later[|later| - 1].id
  {
    VerifiedLengthStops(d, seen);
    var n := VerifiedLength(d, seen);
    if n > 0 {
      assert LinkOk(d, seen[..n], 0);
    }
  }

  /** The anchored hash is the head of an accepted chain ending at the anchored event. */
  predicate AnchorAccurate<C>(d: Digest<C>, rows: seq<Row<C>>, a: Anchor) {
    var v := Verification(d, UpTo(rows, a.chainEventId));
    v.valid && v.headHash == Some(a.anchoredHash)
  }

  lemma SameHeadAsPrefix<C>(d: Digest<C>, same: (C, C) -> bool, seen: seq<Row<C>>, later: seq<Row<C>>, n: nat)
    requires n <= |seen| && seen <= later && Linked(d, later) && Binds(d, same, later, later)
    requires Head(seen[..n]) == Head(later)
    ensures n == |later|
  {
    assert seen[..n] == later[..n];
    if n < |later| {
      CutTailChangesHead(d, same, later, n);
    }
  }

  /** An anchor means what its columns say exactly when the chain verified and nothing arrived in between. */
  lemma AnchorAccurateIff<C>(d: Digest<C>, same: (C, C) -> bool, seen: seq<Row<C>>, later: seq<Row<C>>)
    requires seen <= later && Ascending(later)
    requires Linked(d, later) ==> Binds(d, same, later, later)
    requires AnchorOf(d, seen, later).Ok?
    ensures AnchorAccurate(d, later, AnchorOf(d, seen, later).value) <==> Linked(d, seen) && seen == later
  {
    var a := AnchorOf(d, seen, later).value;
    UpToAll(later, a.chainEventId);
    if AnchorAccurate(d, later, a) {
      ValidIffLinked(d, later);
      VerificationOfLinked(d, later);
      var n := VerifiedLength(d, seen);
      assert seen[..|seen|] == seen;
      assert Head(seen[..n]) == Head(later);
      SameHeadAsPrefix(d, same, seen, later, n);
      assert seen == later;
    }
    if Linked(d, seen) && seen == later {
      VerificationOfLinked(d, later);
    }
  }

  /** One row appended to a good table between the two queries always makes the anchor wrong. */
  lemma AnchorRaceLoses<C>(d: Digest<C>, same: (C, C) -> bool, seen: seq<Row<C>>, id: nat, c: C)
    requires seen != [] && Linked(d, seen) && Ascending(seen + [NextRow(d, id, Head(seen), c)])
    requires Binds(d, same, seen + [NextRow(d, id, Head(seen), c)], seen + [NextRow(d, id, Head(seen), c)])
    ensures var later := seen + [NextRow(d, id, Head(seen), c)];
      Linked(d, later) && AnchorOf(d, seen, later).Ok? &&
      !AnchorAccurate(d, later, AnchorOf(d, seen, later).value)
  {
    LinkedExtend(d, seen, NextRow(d, id, Head(seen), c));
    VerificationOfLinked(d, seen);
    AnchorAccurateIff(d, same, seen, seen + [NextRow(d, id, Head(seen), c)]);
  }
}
