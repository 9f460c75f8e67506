/** The audit_event and audit_anchor tables: the single write path, the verifier, and anchoring. */
module AuditLedger {
  import opened Wrappers
  import opened Canonical
  import opened HashChain
  import opened AuditChain

  /** The audit row create_anchor writes about the anchor itself. */
  function AnchorEvent(anchorId: nat, a: Anchor, actor: Option<int>): Content {
    Content(Text("audit_anchor"), anchorId, Text("INSERT"), None,
      Some([Field(Text("anchored_hash"), Str(Text(a.anchoredHash))),
            Field(Text("chain_event_id"), Int(a.chainEventId))]),
      None, actor, None)
  }

  // ----- The table ----------------------------------------------------------------------

  /** trim(reason) has length zero */
  predicate Blank(s: PyString) {
    forall i :: 0 <= i < |s| ==> s[i] == 0x20
  }

  /** The table's CHECK: an amendment states its reason. */
  predicate AmendmentStatesReason(c: Content) {
    c.action != Text("amend") || (c.reason.Some? && !Blank(c.reason.value))
  }

  class AuditTable {
    var rows: seq<Event>
    var anchors: seq<Anchor>
    var nextId: nat

    predicate Valid()
      reads this
    {
      Ascending(rows) && forall i :: 0 <= i < |rows| ==> rows[i].id < nextId
    }

    constructor ()
      ensures Valid() && rows == [] && anchors == [] && nextId == 1
    {
      rows, anchors, nextId := [], [], 1;
    }

    /** Write one event, linked to the current tip. */
    method RecordAuditEvent(h: Hash, c: Content) returns (ok: bool)
      requires Valid()
      modifies this`rows, this`nextId
      ensures Valid()
      ensures ok <==>
        (c.action == Text("amend") ==>
          c.reason.Some? && exists i :: 0 <= i < |c.reason.value| && c.reason.value[i] != 0x20)
      ensures ok ==> rows == old(rows) + [NextRow(EntryDigest(h), old(nextId), Head(old(rows)), c)]
      ensures !ok ==> rows == old(rows)
      ensures nextId == old(nextId) + 1
      ensures Linked(EntryDigest(h), old(rows)) ==> Linked(EntryDigest(h), rows)
    {
      var tip: Option<string> := None;
      if |rows| > 0 {
        tip := Some(rows[|rows| - 1].entry);
      }
      var entry := EntryDigest(h)(tip, c);
      ok := AmendmentStatesReason(c);
      if ok {
        if Linked(EntryDigest(h), rows) {
          LinkedExtend(EntryDigest(h), rows, Row(nextId, c, tip, entry));
        }
        rows := rows + [Row(nextId, c, tip, entry)];
      }
      nextId := nextId + 1;
    }

    /** Walk the rows in id order and stop at the first that does not verify. */
    method VerifyChain(h: Hash, upto: Option<int>) returns (v: ChainVerification)
      requires Valid()
      ensures v == Verification(EntryDigest(h), if upto.Some? then UpTo(rows, upto.value) else rows)
    {
      var walked := if upto.Some? then UpTo(rows, upto.value) else rows;
      var prevHash: Option<string> := None;
      var verified := 0;
      while verified < |walked|
        invariant verified <= |walked|
        invariant prevHash == Head(walked[..verified])
        invariant Linked(EntryDigest(h), walked[..verified])
      {
        var row := walked[verified];
        assert walked[..verified + 1] == walked[..verified] + [row];
        if row.prev != prevHash {
          VerificationOfBroken(EntryDigest(h), walked, verified);
          return ChainVerification(verified, false, prevHash, Some(ChainBreak(row.id, PrevMismatch)));
        }
        var expected := EntryDigest(h)(row.prev, row.content);
        if expected != row.entry {
          VerificationOfBroken(EntryDigest(h), walked, verified);
          return ChainVerification(verified, false, prevHash, Some(ChainBreak(row.id, EntryMismatch)));
        }
        LinkedExtend(EntryDigest(h), walked[..verified], row);
        prevHash := Some(row.entry);
        verified := verified + 1;
      }
      assert walked[..verified] == walked;
      ValidIffLinked(EntryDigest(h), walked);
      return ChainVerification(verified, true, prevHash, None);
    }

    /** Rows other sessions have committed in the meantime. */
    method SeeCommitted(arrivals: seq<Event>)
      requires Valid() && Ascending(rows + arrivals)
      requires forall i :: 0 <= i < |arrivals| ==> nextId <= arrivals[i].id
      modifies this`rows, this`nextId
      ensures Valid() && rows == old(rows) + arrivals
    {
      rows := rows + arrivals;
      if |arrivals| > 0 {
        AscendingTail(old(rows), arrivals);
        nextId := arrivals[|arrivals| - 1].id + 1;
      }
    }

    /** How many calendar servers accepted the digest. */
    method SubmitToCalendars(calendars: seq<bool>) returns (answered: nat)
      ensures answered == multiset(calendars)[true]
    {
      answered := 0;
      for i := 0 to |calendars|
        invariant answered == multiset(calendars[..i])[true]
      {
        assert calendars[..i + 1] == calendars[..i] + [calendars[i]];
        if calendars[i] {
          answered := answered + 1;
        }
      }
      assert calendars[..|calendars|] == calendars;
    }

    /**
     Snapshot the chain head. `arrivals` are the rows other sessions commit between the two
     queries; `calendars` says which calendar servers answer.
     */
    method CreateAnchor(h: Hash, otsInstalled: bool, arrivals: seq<Event>, calendars: seq<bool>, actor: Option<int>)
      returns (r: Result<Anchor, AnchorError>)
      requires Valid() && Ascending(rows + arrivals)
      requires forall i :: 0 <= i < |arrivals| ==> nextId <= arrivals[i].id
      modifies this
      ensures Valid()
      ensures !otsInstalled ==> r == Err(OtsNotInstalled)
      ensures otsInstalled && true in calendars ==> r == AnchorOf(EntryDigest(h), old(rows), old(rows) + arrivals)
      ensures otsInstalled && true !in calendars && AnchorOf(EntryDigest(h), old(rows), old(rows) + arrivals).Ok? ==>
        r == Err(CalendarFailed)
      ensures otsInstalled && (old(rows) == [] || !LinkOk(EntryDigest(h), old(rows), 0)) ==> r == Err(ChainEmpty)
      ensures r.Ok? ==> anchors == old(anchors) + [r.value]
      ensures r.Ok? ==> |rows| == |old(rows) + arrivals| + 1 && old(rows) + arrivals <= rows
      ensures r.Ok? ==>
        rows[|rows| - 1].content
        == Content(Text("audit_anchor"), |anchors|, Text("INSERT"), None,
             Some([Field(Text("anchored_hash"), Str(Text(r.value.anchoredHash))),
                   Field(Text("chain_event_id"), Int(r.value.chainEventId))]),
             None, actor, None)
      ensures r.Ok? && Linked(EntryDigest(h), old(rows) + arrivals) ==> Linked(EntryDigest(h), rows)
      ensures r.Err? ==> anchors == old(anchors)
    {
      if !otsInstalled {
        return Err(OtsNotInstalled);
      }
      AnchorRefusedIff(EntryDigest(h), rows, rows + arrivals);
      var verification := VerifyChain(h, None);
      if verification.headHash == None {
        return Err(ChainEmpty);
      }
      SeeCommitted(arrivals);
      if |rows| == 0 {
        return Err(ChainEmpty);
      }
      var headEvent := rows[|rows| - 1];
      var answered := SubmitToCalendars(calendars);
      if answered == 0 {
        return Err(CalendarFailed);
      }
      var anchor := Anchor(verification.headHash.value, headEvent.id);
      anchors := anchors + [anchor];
      NotAnAmendment(|anchors|, anchor, actor);
      var _ := RecordAuditEvent(h, AnchorEvent(|anchors|, anchor, actor));
      return Ok(anchor);
    }
  }

  lemma AscendingTail(rows: seq<Event>, arrivals: seq<Event>)
    requires Ascending(rows + arrivals) && arrivals != []
    ensures forall i :: 0 <= i < |rows + arrivals| ==> (rows + arrivals)[i].id <= arrivals[|arrivals| - 1].id
  {
    assert (rows + arrivals)[|rows + arrivals| - 1] == arrivals[|arrivals| - 1];
  }

  lemma NotAnAmendment(anchorId: nat, a: Anchor, actor: Option<int>)
    ensures AmendmentStatesReason(AnchorEvent(anchorId, a, actor))
  {
  }
}
