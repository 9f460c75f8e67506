/** Multi-element readings: a whole instrument run imported at once, and corrections of single readings. */
module ReadingService {
  import opened Wrappers
  import opened Lifecycle
  import opened Units
  import opened Chains
  import opened LabTables
  import BatchService

  datatype Item = Item(element: string, value: real, unit: Unit, limit: Option<real>)

  function OneItemProblems(item: Item, seen: set<string>): seq<Problem> {
    (if item.element in seen then [DuplicateElement] else [])
    + (if item.value < 0.0 then [NegativeGrade] else [])
    + (if DimensionOf(item.unit) != MassFraction then [NotAMassFraction] else [])
  }

  /** The problems of all the items; seen holds the elements met before them. */
  function ItemProblems(items: seq<Item>, seen: set<string>): seq<Problem> {
    if items == [] then []
    else OneItemProblems(items[0], seen) + ItemProblems(items[1..], seen + {items[0].element})
  }

  function ImportProblems(items: seq<Item>): seq<Problem> {
    (if items == [] then [NothingToImport] else []) + ItemProblems(items, {})
  }

  /** At or below its limit a reading is stored as the limit, and flagged. */
  function Stored(triple: Triple, value: real, unit: Unit, limit: Option<real>, supersedes: Option<nat>): Reading {
    if limit.Some? && value <= limit.value then Reading(triple, limit.value, unit, limit, true, supersedes)
    else Reading(triple, value, unit, limit, false, supersedes)
  }

  function Imported(sample: nat, digest: Digest, item: Item): Reading {
    Stored(Triple(sample, item.element, digest), item.value, item.unit, item.limit, None)
  }

  function ImportedAll(sample: nat, digest: Digest, items: seq<Item>): seq<Reading> {
    seq(|items|, i requires 0 <= i < |items| => Imported(sample, digest, items[i]))
  }

  /** Whether the whole run may be imported, or why it is refused. */
  function CheckImport(db: Db, sample: nat, items: seq<Item>, role: Role): (r: Result<(), Refusal>)
    ensures r.Ok? ==> sample < |db.samples|
  {
    var _ :- Require(role in MAY_ENTER_RESULTS, Lifecycle(InsufficientRole));
    var _ :- Require(sample < |db.samples|, NotFound(TheSample));
    var problems := ImportProblems(items);
    var _ :- Require(problems == [], Invalid(problems));
    var s := db.samples[sample];
    BatchService.Lift(if s.status == Assayed then Ok(()) else CheckTransition(s.status, Assayed, s.kind, role, None))
  }

  /** Who may import readings for a sample, and when. */
  predicate MayImport(db: Db, sample: nat, items: seq<Item>, role: Role) {
    && role in {Analyst, Supervisor, LabManager} && sample < |db.samples| && ImportProblems(items) == []
    && db.samples[sample].status in {InAssay, Assayed}
  }

  lemma ImportIff(db: Db, sample: nat, items: seq<Item>, role: Role)
    ensures CheckImport(db, sample, items, role).Ok? <==> MayImport(db, sample, items, role)
  {
    if sample < |db.samples| {
      var s := db.samples[sample];
      AllowedIff(s.status, Assayed, s.kind, role, None);
    }
  }

  function Import(db: Db, sample: nat, digest: Digest, items: seq<Item>, role: Role): Result<Db, Refusal> {
    var _ :- CheckImport(db, sample, items, role);
    Ok(db.(readings := db.readings + ImportedAll(sample, digest, items),
           samples := SetStatus(db.samples, sample, Assayed)))
  }

  /** The row an unordered query over the current readings of a triple returns. */
  function Returned(rows: seq<Reading>, triple: Triple, pick: nat): Option<nat> {
    if IsHead(ReadingLinks(rows), triple, pick) then Some(pick) else Current(ReadingLinks(rows), triple)
  }

  /** SQL's trim strips spaces only. */
  predicate OnlySpaces(s: string) {
    forall i :: 0 <= i < |s| ==> s[i] == ' '
  }

  datatype Correction = Correction(
    triple: Triple, value: real, unit: Unit, limit: Option<real>, reason: string, pick: nat)

  function Correct(db: Db, q: Correction, role: Role): Result<Db, Refusal> {
    var _ :- Require(role in MAY_ENTER_RESULTS, Lifecycle(InsufficientRole));
    var _ :- Require(q.triple.sample < |db.samples|, NotFound(TheSample));
    var current := Returned(db.readings, q.triple, q.pick);
    var _ :- Require(current.Some?, Invalid([NoCurrentReading]));
    var _ :- Require(q.value >= 0.0, Invalid([NegativeGrade]));
    var _ :- Require(!OnlySpaces(q.reason), Integrity);
    Ok(db.(readings := db.readings + [Stored(q.triple, q.value, q.unit, q.limit, current)]))
  }
}
