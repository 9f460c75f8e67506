/** Persisted dossiers: content-addressed evidence, and a pointer per batch to its latest. */
module DossierStore {
  import opened Wrappers

  /** Why the batch row changed: its first dossier, or an amendment naming the address it replaces. */
  datatype PointerEvent = PointerEvent(batch: nat, replaced: Option<string>, address: string)

  datatype State = State(blobs: map<string, string>, pointers: map<nat, string>, events: seq<PointerEvent>)

  function Pointer(s: State, batch: nat): Option<string> {
    if batch in s.pointers then Some(s.pointers[batch]) else None
  }

  function Ensured(blobs: map<string, string>, address: string, content: string): map<string, string> {
    if address in blobs then blobs else blobs[address := content]
  }

  /** Store the bytes if new; move the pointer and record an event only if the address changed. */
  function Persisted(h: string -> string, s: State, batch: nat, content: string): State {
    var address := h(content);
    var blobs := Ensured(s.blobs, address, content);
    if Pointer(s, batch) == Some(address) then s.(blobs := blobs)
    else State(blobs, s.pointers[batch := address], s.events + [PointerEvent(batch, Pointer(s, batch), address)])
  }

  /** Blobs sit at their own address, and every pointer leads to one. */
  ghost predicate Sound(h: string -> string, s: State) {
    && (forall a :: a in s.blobs ==> h(s.blobs[a]) == a)
    && (forall b :: b in s.pointers ==> s.pointers[b] in s.blobs)
  }

  /** The address each batch's recorded events lead to. */
  function Replayed(events: seq<PointerEvent>, batch: nat): Option<string> {
    if events == [] then None
    else
      var e := events[|events| - 1];
      if e.batch == batch then Some(e.address) else Replayed(events[..|events| - 1], batch)
  }

  /** Each event names the address that the batch's earlier events led to, and changes it. */
  ghost predicate Chained(events: seq<PointerEvent>) {
    forall i :: 0 <= i < |events| ==>
      events[i].replaced == Replayed(events[..i], events[i].batch) && events[i].replaced != Some(events[i].address)
  }

  ghost predicate Audited(s: State) {
    Chained(s.events) && forall b :: Replayed(s.events, b) == Pointer(s, b)
  }

  class Store {
    var blobs: map<string, string>
    var pointers: map<nat, string>
    var events: seq<PointerEvent>

    ghost function Contents(): State
      reads this
    {
      State(blobs, pointers, events)
    }

    constructor ()
      ensures Contents() == NOTHING
    {
      blobs, pointers, events := map[], map[], [];
    }

    method Persist(h: string -> string, batch: nat, content: string) returns (address: string)
      modifies this
      ensures Contents() == Persisted(h, old(Contents()), batch, content) && address == h(content)
    {
      address := h(content);
      if address !in blobs {
        blobs := blobs[address := content];
      }
      if batch in pointers && pointers[batch] == address {
        return;
      }
      var previous := if batch in pointers then Some(pointers[batch]) else None;
      pointers := pointers[batch := address];
      events := events + [PointerEvent(batch, previous, address)];
    }
  }

  // ----- Properties -------------------------------------------------------------------------

  /** The store after a sequence of requests. */
  function PersistFrom(h: string -> string, s: State, requests: seq<(nat, string)>): State {
    if requests == [] then s
    else
      var last := requests[|requests| - 1];
      Persisted(h, PersistFrom(h, s, requests[..|requests| - 1]), last.0, last.1)
  }

  lemma {:induction false} PointerStays(h: string -> string, s: State, batch: nat, requests: seq<(nat, string)>)
    requires forall i :: 0 <= i < |requests| ==> requests[i].0 != batch
    ensures Pointer(PersistFrom(h, s, requests), batch) == Pointer(s, batch)
    ensures forall a :: a in s.blobs ==> a in PersistFrom(h, s, requests).blobs
  {
    if requests != [] {
      PointerStays(h, s, batch, requests[..|requests| - 1]);
    }
  }

  /**
   Persisting the same dossier again changes nothing at all, after any number of requests
   for other batches.
   */
  lemma PersistIsIdempotent(h: string -> string, s: State, batch: nat, content: string, others: seq<(nat, string)>)
    requires forall i :: 0 <= i < |others| ==> others[i].0 != batch
    ensures var later := PersistFrom(h, Persisted(h, s, batch, content), others);
      Persisted(h, later, batch, content) == later
  {
    var once := Persisted(h, s, batch, content);
    PointerStays(h, once, batch, others);
    assert h(content) in once.blobs && Pointer(once, batch) == Some(h(content));
  }

  /** Evidence once stored stays readable under its own hash, and pointers lead to stored evidence. */
  lemma PersistKeepsEvidence(h: string -> string, s: State, batch: nat, content: string)
    requires Sound(h, s)
    ensures var t := Persisted(h, s, batch, content);
      && Sound(h, t) && Pointer(t, batch) == Some(h(content))
      && forall a :: a in s.blobs ==> a in t.blobs && t.blobs[a] == s.blobs[a]
  {
  }

  /** An event is recorded exactly when the address changed, and the trail always leads to the pointer. */
  lemma PersistKeepsAudit(h: string -> string, s: State, batch: nat, content: string)
    requires Audited(s)
    ensures Audited(Persisted(h, s, batch, content))
    ensures Persisted(h, s, batch, content).events != s.events <==> Pointer(s, batch) != Some(h(content))
  {
    if Pointer(s, batch) != Some(h(content)) {
      var e := PointerEvent(batch, Pointer(s, batch), h(content));
      EventAppends(s, e);
      assert |s.events + [e]| != |s.events|;
    }
  }

  lemma EventAppends(s: State, e: PointerEvent)
    requires Audited(s) && e.replaced == Pointer(s, e.batch) && e.replaced != Some(e.address)
    ensures Chained(s.events + [e])
    ensures forall b :: Replayed(s.events + [e], b) == if b == e.batch then Some(e.address) else Pointer(s, b)
  {
    var events := s.events + [e];
    assert events[..|s.events|] == s.events;
    forall i | 0 <= i < |events|
      ensures events[i].replaced == Replayed(events[..i], events[i].batch)
      ensures events[i].replaced != Some(events[i].address)
    {
      if i < |s.events| {
        assert events[..i] == s.events[..i];
      }
    }
  }

  const NOTHING: State := State(map[], map[], [])

  /** So in every history the pointer of a batch is what its audit events say, and its evidence is stored. */
  lemma {:induction false} EveryHistoryIsAudited(h: string -> string, requests: seq<(nat, string)>)
    ensures Sound(h, PersistFrom(h, NOTHING, requests)) && Audited(PersistFrom(h, NOTHING, requests))
  {
    if requests != [] {
      var last := requests[|requests| - 1];
      EveryHistoryIsAudited(h, requests[..|requests| - 1]);
      PersistKeepsEvidence(h, PersistFrom(h, NOTHING, requests[..|requests| - 1]), last.0, last.1);
      PersistKeepsAudit(h, PersistFrom(h, NOTHING, requests[..|requests| - 1]), last.0, last.1);
    }
  }
}
