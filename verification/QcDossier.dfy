/** A completed batch's QC evidence: what each control and duplicate graded, and how pairs compare. */
module QcDossier {
  import opened Wrappers
  import opened BatchLifecycle
  import opened Decimals
  import opened Units
  import opened Values
  import opened Assay
  import opened Qc
  import F = Furnace
  import opened TrayQueries

  datatype MaterialKind = Crm | Blank | CoarseBlank

  datatype Material = Material(kind: MaterialKind, certified: Option<real>, uncertainty: Option<real>)

  datatype Entry = Entry(crucible: nat, au: Option<MeasuredValue>, z: Option<real>, advisories: seq<Advisory>)

  datatype Duplicate = Duplicate(
    crucible: nat, au: Option<MeasuredValue>, originalAu: Option<MeasuredValue>, stats: Option<PairStats>,
    advisories: seq<Advisory>)

  datatype Dossier = Dossier(entries: seq<Entry>, duplicates: seq<Duplicate>, flagNoQc: bool)

  /** Configured limits. */
  datatype Limits = Limits(blank: real, rpd: real)

  datatype BuildError = BatchNotFound | NotCompleted | BadLimit | UnboundAdvisories

  // ----- Grades --------------------------------------------------------------------------

  /** The crucible's derived grade, or why it has none. */
  function GradeOf(c: F.Crucible): (g: (Option<MeasuredValue>, Option<Advisory>))
    ensures g.0.Some? ==> g.0.value.Valid()
  {
    if c.status != Weighed || c.bead.None? then (None, Some(NotYetWeighed))
    else
      match GravimetricGrade(c.bead.value, c.weight, None)
      case Ok(m) => (Some(m), None)
      case Err(_) => (None, Some(GradeRequiresSensitivity))
  }

  predicate Gradable(c: F.Crucible) {
    c.status == Weighed && c.bead.Some? && c.bead.value > 0.0
  }

  /** There is a grade exactly for a weighed, positive bead; it is then detected and positive. */
  lemma GradeOfIff(c: F.Crucible)
    requires c.weight > 0.0
    ensures GradeOf(c).0.Some? <==> Gradable(c)
    ensures GradeOf(c).1.Some? <==> !Gradable(c)
    ensures Gradable(c) ==>
      var g := GradeOf(c).0.value;
      g.Valid() && !g.censored && g.value.value > 0.0 && Fits(g.value.value)
  {
    if Gradable(c) {
      GravimetricRespectsLimit(c.bead.value, c.weight, None);
      ScaleFits(c.bead.value, 1000.0, c.weight);
    }
  }

  // ----- Building -------------------------------------------------------------------------

  function OptionSeq<T>(o: Option<T>): seq<T> {
    if o.Some? then [o.value] else []
  }

  function EntryOf(f: F.Tables, k: nat, materials: seq<Material>, limits: Limits): Result<Entry, BuildError>
    requires F.Live(f, k) && F.At(f, k).material.Some? && F.At(f, k).material.value < |materials|
  {
    var (au, flag) := GradeOf(F.At(f, k));
    var m := materials[F.At(f, k).material.value];
    match m.kind
    case Crm =>
      if m.certified.None? || m.uncertainty.None? then
        Ok(Entry(k, au, None, OptionSeq(flag) + [CrmMissingCertifiedValue]))
      else if au.Some? then
        var (z, advisory) := CrmZScore(au.value, m.certified.value, m.uncertainty.value);
        Ok(Entry(k, au, z, OptionSeq(flag) + OptionSeq(advisory)))
      else Ok(Entry(k, au, None, OptionSeq(flag)))
    case _ =>
      if au.None? then Ok(Entry(k, au, None, OptionSeq(flag)))
      else
        match BlankAdvisory(au.value, limits.blank)
        case Err(_) => Err(BadLimit)
        case Ok(advisory) => Ok(Entry(k, au, None, OptionSeq(flag) + OptionSeq(advisory)))
  }

  predicate NamesMaterial(f: F.Tables, k: nat, materials: seq<Material>) {
    F.Live(f, k) && F.At(f, k).material.Some? && F.At(f, k).material.value < |materials|
  }

  predicate AllNameMaterials(f: F.Tables, ids: seq<nat>, materials: seq<Material>) {
    forall i :: 0 <= i < |ids| ==> NamesMaterial(f, ids[i], materials)
  }

  function Entries(f: F.Tables, ids: seq<nat>, materials: seq<Material>, limits: Limits): seq<Result<Entry, BuildError>>
    requires AllNameMaterials(f, ids, materials)
  {
    seq(|ids|, i requires 0 <= i < |ids| && AllNameMaterials(f, ids, materials) =>
      EntryOf(f, ids[i], materials, limits))
  }

  /** The primary charge of the sample in the batch, if it is there: at most one can be. */
  function PrimaryOf(f: F.Tables, batch: nat, sample: nat, n: nat): Option<nat>
    requires n <= |f.crucibles|
  {
    if n == 0 then None
    else if F.IsPrimaryOf(f, batch, sample, n - 1) then Some(n - 1)
    else PrimaryOf(f, batch, sample, n - 1)
  }

  function Original(f: F.Tables, k: nat): (o: Option<nat>)
    requires F.Live(f, k) && F.At(f, k).sample.Some?
    ensures o.Some? ==> F.Live(f, o.value)
  {
    PrimaryIsLive(f, F.At(f, k).batch, F.At(f, k).sample.value, |f.crucibles|);
    PrimaryOf(f, F.At(f, k).batch, F.At(f, k).sample.value, |f.crucibles|)
  }

  lemma {:induction false} PrimaryIsLive(f: F.Tables, batch: nat, sample: nat, n: nat)
    requires n <= |f.crucibles|
    ensures var o := PrimaryOf(f, batch, sample, n);
      if o.Some? then F.IsPrimaryOf(f, batch, sample, o.value)
      else forall k :: 0 <= k < n ==> !F.IsPrimaryOf(f, batch, sample, k)
  {
    if n > 0 {
      PrimaryIsLive(f, batch, sample, n - 1);
    }
  }

  /** The original's grade flag, which the source appends to the list left over from the last QC entry. */
  function OriginalFlag(f: F.Tables, k: nat): Option<Advisory>
    requires F.Live(f, k) && F.At(f, k).sample.Some?
  {
    var o := Original(f, k);
    if o.None? then None else GradeOf(F.At(f, o.value)).1
  }

  /** One duplicate; listBound says whether any QC entry left an advisory list to append to. */
  function DuplicateOf(f: F.Tables, k: nat, limits: Limits, listBound: bool): Result<Duplicate, BuildError>
    requires F.Live(f, k) && F.At(f, k).sample.Some?
  {
    var (au, flag) := GradeOf(F.At(f, k));
    var o := Original(f, k);
    var originalAu := if o.None? then None else GradeOf(F.At(f, o.value)).0;
    if OriginalFlag(f, k).Some? && !listBound then Err(UnboundAdvisories)
    else
      match DuplicatePair(originalAu, au, limits.rpd)
      case Err(_) => Err(BadLimit)
      case Ok((stats, advisory)) =>
        Ok(Duplicate(k, au, originalAu, stats,
          OptionSeq(flag) + (if o.None? then [OriginalNotInBatch] else []) + OptionSeq(advisory)))
  }

  predicate NamesSample(f: F.Tables, k: nat) {
    F.Live(f, k) && F.At(f, k).sample.Some?
  }

  predicate AllNameSamples(f: F.Tables, ids: seq<nat>) {
    forall i :: 0 <= i < |ids| ==> NamesSample(f, ids[i])
  }

  function Duplicates(f: F.Tables, ids: seq<nat>, limits: Limits, listBound: bool): seq<Result<Duplicate, BuildError>>
    requires AllNameSamples(f, ids)
  {
    seq(|ids|, i requires 0 <= i < |ids| && AllNameSamples(f, ids) => DuplicateOf(f, ids[i], limits, listBound))
  }

  /** What the database's keys and CHECKs guarantee: a material named exists, and a duplicate names a sample. */
  predicate Referenced(f: F.Tables, materials: seq<Material>) {
    forall k :: 0 <= k < |f.crucibles| && F.Live(f, k) ==>
      && (F.At(f, k).material.Some? ==> F.At(f, k).material.value < |materials|)
      && (F.At(f, k).insertion.Some? ==> F.At(f, k).sample.Some?)
  }

  /** The batch's stock insertions and its duplicates, each in tray order. */
  function StockOf(f: F.Tables, batch: nat): (ids: seq<nat>)
    ensures AllSelected(StockInsertions, f, batch, ids)
  {
    Select(StockInsertions, f, batch)
  }

  function DuplicatesOf(f: F.Tables, batch: nat): (ids: seq<nat>)
    ensures AllSelected(DuplicateInsertions, f, batch, ids)
  {
    Select(DuplicateInsertions, f, batch)
  }

  lemma QueriesAreReferenced(f: F.Tables, batch: nat, materials: seq<Material>)
    requires Referenced(f, materials)
    ensures AllNameMaterials(f, StockOf(f, batch), materials) && AllNameSamples(f, DuplicatesOf(f, batch))
  {
    forall i | 0 <= i < |StockOf(f, batch)| ensures NamesMaterial(f, StockOf(f, batch)[i], materials) {
      assert Selects(StockInsertions, f, batch, StockOf(f, batch)[i]);
    }
    forall i | 0 <= i < |DuplicatesOf(f, batch)| ensures NamesSample(f, DuplicatesOf(f, batch)[i]) {
      assert Selects(DuplicateInsertions, f, batch, DuplicatesOf(f, batch)[i]);
    }
  }

  /** The dossier of a batch, from its rows. */
  function Build(f: F.Tables, batch: nat, materials: seq<Material>, limits: Limits): Result<Dossier, BuildError>
    requires Referenced(f, materials)
  {
    var _ :- Require(batch < |f.batches|, BatchNotFound);
    var _ :- Require(f.batches[batch] == Completed, NotCompleted);
    QueriesAreReferenced(f, batch, materials);
    var stock := StockOf(f, batch);
    var entries :- Collect(Entries(f, stock, materials, limits));
    var duplicates :- Collect(Duplicates(f, DuplicatesOf(f, batch), limits, stock != []));
    Ok(Dossier(entries, duplicates, stock == []))
  }

  /** The two queries and the two loops, with the variable the second one reuses. */
  method BuildDossier(f: F.Tables, batch: nat, materials: seq<Material>, limits: Limits)
    returns (r: Result<Dossier, BuildError>)
    requires Referenced(f, materials)
    ensures r == Build(f, batch, materials, limits)
  {
    if batch >= |f.batches| {
      return Err(BatchNotFound);
    }
    if f.batches[batch] != Completed {
      return Err(NotCompleted);
    }
    QueriesAreReferenced(f, batch, materials);
    var stock := StockOf(f, batch);
    ghost var spec := Entries(f, stock, materials, limits);
    var entries: seq<Entry> := [];
    var advisories: Option<seq<Advisory>> := None;
    for i := 0 to |stock|
      invariant Collect(spec[..i]) == Ok(entries)
      invariant advisories.Some? <==> i > 0
    {
      CollectMore(spec, i);
      var entry := EntryOf(f, stock[i], materials, limits);
      if entry.Err? {
        CollectStops(spec, i);
        return Err(entry.error);
      }
      entries, advisories := entries + [entry.value], Some(entry.value.advisories);
    }
    assert spec[..|stock|] == spec;
    var duplicates := PairDuplicates(f, DuplicatesOf(f, batch), limits, advisories);
    r := if duplicates.Err? then Err(duplicates.error) else Ok(Dossier(entries, duplicates.value, stock == []));
  }

  /** The second loop, with the list the first one left, if it ran at all. */
  method PairDuplicates(f: F.Tables, dups: seq<nat>, limits: Limits, leftOver: Option<seq<Advisory>>)
    returns (r: Result<seq<Duplicate>, BuildError>)
    requires AllNameSamples(f, dups)
    ensures r == Collect(Duplicates(f, dups, limits, leftOver.Some?))
  {
    ghost var spec := Duplicates(f, dups, limits, leftOver.Some?);
    var advisories := leftOver;
    var duplicates: seq<Duplicate> := [];
    for i := 0 to |dups|
      invariant Collect(spec[..i]) == Ok(duplicates)
      invariant advisories.Some? <==> leftOver.Some?
    {
      CollectMore(spec, i);
      var flag := OriginalFlag(f, dups[i]);
      if flag.Some? {
        if advisories.None? {
          CollectStops(spec, i);
          return Err(UnboundAdvisories);
        }
        advisories := Some(advisories.value + [flag.value]);
      }
      var one := DuplicateOf(f, dups[i], limits, leftOver.Some?);
      if one.Err? {
        CollectStops(spec, i);
        return Err(one.error);
      }
      duplicates := duplicates + [one.value];
    }
    assert spec[..|dups|] == spec;
    r := Ok(duplicates);
  }

  // ----- What a dossier says --------------------------------------------------------------------

  /** Two detected positive grades always have statistics. */
  lemma GradedPair(o: MeasuredValue, d: MeasuredValue, maxRpd: real)
    requires o.Valid() && d.Valid() && !o.censored && !d.censored && maxRpd > 0.0
    requires o.value.value > 0.0 && d.value.value > 0.0 && Fits(o.value.value) && Fits(d.value.value)
    ensures var r, x, y := DuplicatePair(Some(o), Some(d), maxRpd), o.value.value, d.value.value;
      && Mean(x, y) > 0.0
      && r.Ok? && r.value.0 == Some(PairStats(Mean(x, y), AbsDiff(x, y), Rpd(x, y))) && r.value.1 != Some(PairMeanZero)
      && (0.0 <= Rpd(x, y) <= 200.0 <==> !Overshoots(if x >= y then x else y, if x >= y then y else x))
  {
    RpdWithin200Iff(o.value.value, d.value.value);
  }

  /** One duplicate: statistics exactly when both beads are positive, and then their bounds. */
  lemma PairOf(f: F.Tables, k: nat, limits: Limits, listBound: bool)
    requires F.Inv(f) && NamesSample(f, k) && limits.rpd > 0.0
    ensures var o := Original(f, k);
      var both := o.Some? && Gradable(F.At(f, o.value)) && Gradable(F.At(f, k));
      var r := DuplicateOf(f, k, limits, listBound);
      && (r.Err? <==> o.Some? && !Gradable(F.At(f, o.value)) && !listBound)
      && (r.Err? ==> r.error == UnboundAdvisories)
      && (r.Ok? ==> (r.value.stats.Some? <==> both) && PairMeanZero !in r.value.advisories)
      && (both ==>
            var x, y := GradeOf(F.At(f, o.value)).0.value.value.value, GradeOf(F.At(f, k)).0.value.value.value;
            && r.Ok? && x > 0.0 && y > 0.0 && Mean(x, y) > 0.0
            && r.value.stats.value == PairStats(Mean(x, y), AbsDiff(x, y), Rpd(x, y))
            && (0.0 <= Rpd(x, y) <= 200.0 <==> !Overshoots(if x >= y then x else y, if x >= y then y else x)))
  {
    assert F.RowOk(F.At(f, k), f.batches);
    GradeOfIff(F.At(f, k));
    var o := Original(f, k);
    if o.Some? {
      assert F.RowOk(F.At(f, o.value), f.batches);
      GradeOfIff(F.At(f, o.value));
      if Gradable(F.At(f, o.value)) && Gradable(F.At(f, k)) {
        GradedPair(GradeOf(F.At(f, o.value)).0.value, GradeOf(F.At(f, k)).0.value, limits.rpd);
      }
    }
  }

  predicate OriginalUngradable(f: F.Tables, k: nat)
    requires NamesSample(f, k)
  {
    Original(f, k).Some? && !Gradable(F.At(f, Original(f, k).value))
  }

  /** One QC entry: its grade, if any, is detected and positive, and it is never called a CRM non-detect. */
  lemma EntryIs(f: F.Tables, k: nat, materials: seq<Material>, limits: Limits)
    requires F.Inv(f) && limits.blank > 0.0 && NamesMaterial(f, k, materials)
    ensures var e := EntryOf(f, k, materials, limits);
      && e.Ok? && e.value.crucible == k && CrmNonDetect !in e.value.advisories
      && (e.value.au.Some? <==> Gradable(F.At(f, k)))
      && (e.value.au.Some? ==>
            e.value.au.value.Valid() && !e.value.au.value.censored && e.value.au.value.value.value > 0.0)
  {
    assert F.RowOk(F.At(f, k), f.batches);
    GradeOfIff(F.At(f, k));
  }

  /** A grade in g/t that is a thousand times bead over portion, with no limit, or none. */
  predicate GradedAs(c: F.Crucible, au: Option<MeasuredValue>)
    requires c.weight > 0.0
  {
    && (au.Some? <==> Gradable(c))
    && (au.Some? ==>
          && au.value.unit == GPerTonne && !au.value.censored && au.value.limit.None? && au.value.value.Some?
          && au.value.value.value > 0.0 && Near(c.bead.value * 1000.0 / c.weight, au.value.value.value, 2))
  }

  lemma GradeIs(c: F.Crucible)
    requires c.weight > 0.0 && (c.bead.Some? ==> c.bead.value >= 0.0)
    ensures GradedAs(c, GradeOf(c).0)
    ensures GradeOf(c).1 ==
      if Gradable(c) then None
      else if c.status == Weighed && c.bead.Some? then Some(GradeRequiresSensitivity)
      else Some(NotYetWeighed)
  {
    GradeOfIff(c);
    if Gradable(c) {
      GravimetricGradeNear(c.bead.value, c.weight, None);
    }
  }

  /** Everything one QC entry says, from the crucible, the material in it and the configured limit. */
  predicate EntrySays(c: F.Crucible, m: Material, limits: Limits, e: Entry)
    requires c.weight > 0.0
  {
    && GradedAs(c, e.au)
    && (NotYetWeighed in e.advisories <==> !(c.status == Weighed && c.bead.Some?))
    && (GradeRequiresSensitivity in e.advisories <==> c.status == Weighed && c.bead == Some(0.0))
    && (CrmMissingCertifiedValue in e.advisories <==> m.kind == Crm && (m.certified.None? || m.uncertainty.None?))
    && (CrmUncertaintyInvalid in e.advisories <==>
          m.kind == Crm && m.certified.Some? && m.uncertainty.Some? && m.uncertainty.value <= 0.0 && Gradable(c))
    && (BlankAboveThreshold in e.advisories <==> m.kind != Crm && Gradable(c) && e.au.value.value.value > limits.blank)
    && (forall a :: a in e.advisories ==>
          a in {NotYetWeighed, GradeRequiresSensitivity, CrmMissingCertifiedValue, CrmUncertaintyInvalid,
                BlankAboveThreshold})
    && (e.z.Some? <==>
          m.kind == Crm && m.certified.Some? && m.uncertainty.Some? && m.uncertainty.value > 0.0 && Gradable(c))
    && (e.z.Some? ==>
          && (e.z.value > 0.0 <==> e.au.value.value.value > m.certified.value)
          && Near(Abs(e.au.value.value.value - m.certified.value) / m.uncertainty.value, Abs(e.z.value), 2))
  }

  lemma CrmEntryMeans(f: F.Tables, k: nat, materials: seq<Material>, limits: Limits)
    requires F.Inv(f) && limits.blank > 0.0 && NamesMaterial(f, k, materials)
    requires materials[F.At(f, k).material.value].kind == Crm
    ensures var e, c := EntryOf(f, k, materials, limits), F.At(f, k);
      c.weight > 0.0 && e.Ok? && EntrySays(c, materials[c.material.value], limits, e.value)
  {
    var c := F.At(f, k);
    var m := materials[c.material.value];
    assert F.RowOk(c, f.batches);
    GradeIs(c);
    if Gradable(c) && m.certified.Some? && m.uncertainty.Some? && m.uncertainty.value > 0.0 {
      ZScoreNear(GradeOf(c).0.value, m.certified.value, m.uncertainty.value);
    }
  }

  lemma BlankEntryMeans(f: F.Tables, k: nat, materials: seq<Material>, limits: Limits)
    requires F.Inv(f) && limits.blank > 0.0 && NamesMaterial(f, k, materials)
    requires materials[F.At(f, k).material.value].kind != Crm
    ensures var e, c := EntryOf(f, k, materials, limits), F.At(f, k);
      c.weight > 0.0 && e.Ok? && EntrySays(c, materials[c.material.value], limits, e.value)
  {
    assert F.RowOk(F.At(f, k), f.batches);
    GradeIs(F.At(f, k));
  }

  lemma EntryMeans(f: F.Tables, k: nat, materials: seq<Material>, limits: Limits)
    requires F.Inv(f) && limits.blank > 0.0 && NamesMaterial(f, k, materials)
    ensures var e, c := EntryOf(f, k, materials, limits), F.At(f, k);
      c.weight > 0.0 && e.Ok? && EntrySays(c, materials[c.material.value], limits, e.value)
  {
    if materials[F.At(f, k).material.value].kind == Crm {
      CrmEntryMeans(f, k, materials, limits);
    } else {
      BlankEntryMeans(f, k, materials, limits);
    }
  }

  /** Everything one duplicate says, from its crucible and its original's. */
  predicate DuplicateSays(c: F.Crucible, original: Option<F.Crucible>, limits: Limits, d: Duplicate)
    requires c.weight > 0.0 && (original.Some? ==> original.value.weight > 0.0)
  {
    var paired := Gradable(c) && original.Some? && Gradable(original.value);
    && GradedAs(c, d.au)
    && (if original.Some? then GradedAs(original.value, d.originalAu) else d.originalAu.None?)
    && (NotYetWeighed in d.advisories <==> !(c.status == Weighed && c.bead.Some?))
    && (GradeRequiresSensitivity in d.advisories <==> c.status == Weighed && c.bead == Some(0.0))
    && (OriginalNotInBatch in d.advisories <==> original.None?)
    && (OriginalNotGraded in d.advisories <==> !(original.Some? && Gradable(original.value)))
    && (DuplicateNotGraded in d.advisories <==> original.Some? && Gradable(original.value) && !Gradable(c))
    && (d.stats.Some? <==> paired)
    && (paired ==>
          && StatisticsAre(d.originalAu.value.value.value, d.au.value.value.value, d.stats.value)
          && (DuplicateRpdAboveMax in d.advisories <==> d.stats.value.rpdPercent > limits.rpd))
    && (DuplicateRpdAboveMax in d.advisories ==> paired)
  }

  /** Mean, absolute and relative difference of two grades, to within the roundings made. */
  predicate StatisticsAre(x: real, y: real, s: PairStats) {
    && s.mean > 0.0 && Near((x + y) / 2.0, s.mean, 2) && Near(Abs(y - x), s.absDiff, 2)
    && Near(Over(s.absDiff, s.mean) * 100.0, s.rpdPercent, 2)
  }

  /** What a pair of grades, each detected and positive if there at all, comes to. */
  lemma PairIs(o: Option<MeasuredValue>, d: Option<MeasuredValue>, maxRpd: real)
    requires o.Some? ==> o.value.Valid() && !o.value.censored && o.value.value.value > 0.0
    requires d.Some? ==> d.value.Valid() && !d.value.censored && d.value.value.value > 0.0
    requires maxRpd > 0.0
    ensures var r := DuplicatePair(o, d, maxRpd);
      && r.Ok? && (r.value.0.Some? <==> o.Some? && d.Some?)
      && (o.None? ==> r.value.1 == Some(OriginalNotGraded))
      && (o.Some? && d.None? ==> r.value.1 == Some(DuplicateNotGraded))
      && (o.Some? && d.Some? ==>
            && StatisticsAre(o.value.value.value, d.value.value.value, r.value.0.value)
            && r.value.1 == if r.value.0.value.rpdPercent > maxRpd then Some(DuplicateRpdAboveMax) else None)
  {
    if o.Some? && d.Some? {
      StatisticsNear(o.value.value.value, d.value.value.value);
    }
  }

  lemma InAdvisories(flag: Option<Advisory>, missing: bool, advisory: Option<Advisory>, a: Advisory)
    ensures a in OptionSeq(flag) + (if missing then [OriginalNotInBatch] else []) + OptionSeq(advisory)
        <==> flag == Some(a) || (missing && a == OriginalNotInBatch) || advisory == Some(a)
  {
  }

  lemma DuplicateIs(f: F.Tables, k: nat, limits: Limits, listBound: bool)
    requires NamesSample(f, k) && DuplicateOf(f, k, limits, listBound).Ok?
    ensures var o, g := Original(f, k), GradeOf(F.At(f, k));
      var original := if o.None? then None else GradeOf(F.At(f, o.value)).0;
      var pair := DuplicatePair(original, g.0, limits.rpd);
      && pair.Ok?
      && DuplicateOf(f, k, limits, listBound).value
         == Duplicate(k, g.0, original, pair.value.0,
              OptionSeq(g.1) + (if o.None? then [OriginalNotInBatch] else []) + OptionSeq(pair.value.1))
  {
  }

  /** The same, when grades, flag and pair are known for what they are. */
  lemma SaysFromParts(
    c: F.Crucible, original: Option<F.Crucible>, limits: Limits, d: Duplicate, flag: Option<Advisory>,
    advisory: Option<Advisory>)
    requires c.weight > 0.0 && (original.Some? ==> original.value.weight > 0.0)
    requires GradedAs(c, d.au)
    requires if original.Some? then GradedAs(original.value, d.originalAu) else d.originalAu.None?
    requires flag == (if Gradable(c) then None
                      else if c.status == Weighed && c.bead.Some? then Some(GradeRequiresSensitivity)
                      else Some(NotYetWeighed))
    requires c.bead.Some? ==> c.bead.value >= 0.0
    requires d.advisories
      == OptionSeq(flag) + (if original.None? then [OriginalNotInBatch] else []) + OptionSeq(advisory)
    requires d.stats.Some? <==> d.originalAu.Some? && d.au.Some?
    requires d.originalAu.None? ==> advisory == Some(OriginalNotGraded)
    requires d.originalAu.Some? && d.au.None? ==> advisory == Some(DuplicateNotGraded)
    requires d.originalAu.Some? && d.au.Some? ==>
      && StatisticsAre(d.originalAu.value.value.value, d.au.value.value.value, d.stats.value)
      && advisory == if d.stats.value.rpdPercent > limits.rpd then Some(DuplicateRpdAboveMax) else None
    ensures DuplicateSays(c, original, limits, d)
  {
    InAdvisories(flag, original.None?, advisory, NotYetWeighed);
    InAdvisories(flag, original.None?, advisory, GradeRequiresSensitivity);
    InAdvisories(flag, original.None?, advisory, OriginalNotInBatch);
    InAdvisories(flag, original.None?, advisory, OriginalNotGraded);
    InAdvisories(flag, original.None?, advisory, DuplicateNotGraded);
    InAdvisories(flag, original.None?, advisory, DuplicateRpdAboveMax);
  }

  lemma DuplicateMeans(f: F.Tables, k: nat, limits: Limits, listBound: bool)
    requires F.Inv(f) && NamesSample(f, k) && limits.rpd > 0.0
    requires DuplicateOf(f, k, limits, listBound).Ok?
    ensures var o := Original(f, k);
      && F.At(f, k).weight > 0.0 && (o.Some? ==> F.At(f, o.value).weight > 0.0)
      && DuplicateSays(F.At(f, k), if o.Some? then Some(F.At(f, o.value)) else None, limits,
                       DuplicateOf(f, k, limits, listBound).value)
  {
    var c, o := F.At(f, k), Original(f, k);
    var original := if o.Some? then Some(F.At(f, o.value)) else None;
    var originalAu := if o.None? then None else GradeOf(F.At(f, o.value)).0;
    assert F.RowOk(c, f.batches);
    GradeIs(c);
    if o.Some? {
      assert F.RowOk(F.At(f, o.value), f.batches);
      GradeIs(F.At(f, o.value));
    }
    PairIs(originalAu, GradeOf(c).0, limits.rpd);
    DuplicateIs(f, k, limits, listBound);
    SaysFromParts(c, original, limits, DuplicateOf(f, k, limits, listBound).value, GradeOf(c).1,
                  DuplicatePair(originalAu, GradeOf(c).0, limits.rpd).value.1);
  }

  predicate DuplicateOfUngradable(f: F.Tables, batch: nat, k: nat) {
    Selects(DuplicateInsertions, f, batch, k) && F.At(f, k).sample.Some? && OriginalUngradable(f, k)
  }

  /**
   A completed batch's dossier fails to build exactly when it holds no stock insertion and
   some duplicate's original cannot be graded: the flag then has no list to go to.
   */
  lemma BuildFailsIff(f: F.Tables, batch: nat, materials: seq<Material>, limits: Limits)
    requires F.Inv(f) && Referenced(f, materials) && limits.blank > 0.0 && limits.rpd > 0.0
    requires batch < |f.batches| && f.batches[batch] == Completed
    ensures Build(f, batch, materials, limits).Err?
        <==> (forall k :: F.Holds(f, batch, k) ==> F.At(f, k).material.None?)
             && (exists k :: DuplicateOfUngradable(f, batch, k))
  {
    QueriesAreReferenced(f, batch, materials);
    var stock, dups := StockOf(f, batch), DuplicatesOf(f, batch);
    ListsFailIff(f, stock, dups, materials, limits);
    forall k: nat ensures k in stock <==> Selects(StockInsertions, f, batch, k) {
      SelectIs(StockInsertions, f, batch, k);
    }
    forall k: nat ensures k in dups <==> Selects(DuplicateInsertions, f, batch, k) {
      SelectIs(DuplicateInsertions, f, batch, k);
    }
    if k :| DuplicateOfUngradable(f, batch, k) {
      assert k in dups;
    }
    if i :| 0 <= i < |dups| && OriginalUngradable(f, dups[i]) {
      assert dups[i] in dups;
      assert DuplicateOfUngradable(f, batch, dups[i]);
    }
    if stock == [] {
      forall k | F.Holds(f, batch, k) ensures F.At(f, k).material.None? {
        assert k !in stock;
      }
    } else {
      assert F.Holds(f, batch, stock[0]) && F.At(f, stock[0]).material.Some?;
    }
  }

  /**
   A dossier is refused for a batch that is not there or not completed, and otherwise can only
   lack a list for a flag; built, it says whether the batch held any stock insertion.
   */
  lemma DossierCovers(f: F.Tables, batch: nat, materials: seq<Material>, limits: Limits)
    requires F.Inv(f) && Referenced(f, materials) && limits.blank > 0.0 && limits.rpd > 0.0
    ensures var r := Build(f, batch, materials, limits);
      && (r == Err(BatchNotFound) <==> batch >= |f.batches|)
      && (r == Err(NotCompleted) <==> batch < |f.batches| && f.batches[batch] != Completed)
      && (r.Err? && batch < |f.batches| && f.batches[batch] == Completed ==> r.error == UnboundAdvisories)
      && (r.Ok? ==>
            && |r.value.entries| == |StockOf(f, batch)| && |r.value.duplicates| == |DuplicatesOf(f, batch)|
            && (r.value.flagNoQc <==> forall k :: F.Holds(f, batch, k) ==> F.At(f, k).material.None?))
  {
    if batch < |f.batches| && f.batches[batch] == Completed {
      QueriesAreReferenced(f, batch, materials);
      var stock, dups := StockOf(f, batch), DuplicatesOf(f, batch);
      ListsFailIff(f, stock, dups, materials, limits);
      CollectIs(Entries(f, stock, materials, limits));
      CollectIs(Duplicates(f, dups, limits, stock != []));
      ListErrors(f, dups, limits, stock != []);
      StockEmptyIff(f, batch);
    }
  }

  lemma ListErrors(f: F.Tables, dups: seq<nat>, limits: Limits, listBound: bool)
    requires F.Inv(f) && AllNameSamples(f, dups) && limits.rpd > 0.0
    ensures Collect(Duplicates(f, dups, limits, listBound)).Err? ==>
      Collect(Duplicates(f, dups, limits, listBound)).error == UnboundAdvisories
  {
    var rs := Duplicates(f, dups, limits, listBound);
    CollectIs(rs);
    if Collect(rs).Err? {
      var i :| 0 <= i < |rs| && rs[i] == Err(Collect(rs).error);
      PairOf(f, dups[i], limits, listBound);
    }
  }

  lemma StockEmptyIff(f: F.Tables, batch: nat)
    ensures StockOf(f, batch) == [] <==> forall k :: F.Holds(f, batch, k) ==> F.At(f, k).material.None?
  {
    var stock := StockOf(f, batch);
    if stock == [] {
      forall k | F.Holds(f, batch, k) ensures F.At(f, k).material.None? {
        SelectIs(StockInsertions, f, batch, k);
        assert k !in stock;
      }
    } else {
      assert F.Holds(f, batch, stock[0]) && F.At(f, stock[0]).material.Some?;
    }
  }

  lemma ListsFailIff(f: F.Tables, stock: seq<nat>, dups: seq<nat>, materials: seq<Material>, limits: Limits)
    requires F.Inv(f) && limits.blank > 0.0 && limits.rpd > 0.0
    requires AllNameMaterials(f, stock, materials) && AllNameSamples(f, dups)
    ensures Collect(Entries(f, stock, materials, limits)).Ok?
    ensures Collect(Duplicates(f, dups, limits, stock != [])).Err?
        <==> stock == [] && exists i :: 0 <= i < |dups| && OriginalUngradable(f, dups[i])
  {
    var entries, duplicates := Entries(f, stock, materials, limits), Duplicates(f, dups, limits, stock != []);
    CollectIs(entries);
    CollectIs(duplicates);
    forall i | 0 <= i < |stock| ensures entries[i].Ok? {
      EntryIs(f, stock[i], materials, limits);
    }
    forall i | 0 <= i < |dups| ensures duplicates[i].Err? <==> OriginalUngradable(f, dups[i]) && stock == [] {
      PairOf(f, dups[i], limits, stock != []);
    }
  }

  /** Every grade of a QC entry in a built dossier is detected and positive. */
  lemma EntriesSay(f: F.Tables, batch: nat, materials: seq<Material>, limits: Limits, i: nat)
    requires F.Inv(f) && Referenced(f, materials) && limits.blank > 0.0 && i < |StockOf(f, batch)|
    requires Build(f, batch, materials, limits).Ok?
    ensures var es, k := Build(f, batch, materials, limits).value.entries, StockOf(f, batch)[i];
      && |es| == |StockOf(f, batch)| && es[i].crucible == k && CrmNonDetect !in es[i].advisories
      && (es[i].au.Some? <==> Gradable(F.At(f, k)))
      && (es[i].au.Some? ==> es[i].au.value.value.Some? && es[i].au.value.value.value > 0.0)
      && F.At(f, k).material.Some? && F.At(f, k).material.value < |materials| && F.At(f, k).weight > 0.0
      && EntrySays(F.At(f, k), materials[F.At(f, k).material.value], limits, es[i])
  {
    QueriesAreReferenced(f, batch, materials);
    CollectIs(Entries(f, StockOf(f, batch), materials, limits));
    EntryIs(f, StockOf(f, batch)[i], materials, limits);
    EntryMeans(f, StockOf(f, batch)[i], materials, limits);
  }

  /** Pairs have statistics exactly when both crucibles were weighed with a positive bead. */
  lemma DuplicatesSay(f: F.Tables, batch: nat, materials: seq<Material>, limits: Limits, i: nat)
    requires F.Inv(f) && Referenced(f, materials) && limits.rpd > 0.0 && i < |DuplicatesOf(f, batch)|
    requires Build(f, batch, materials, limits).Ok?
    ensures var ds, k := Build(f, batch, materials, limits).value.duplicates, DuplicatesOf(f, batch)[i];
      && |ds| == |DuplicatesOf(f, batch)| && F.At(f, k).sample.Some? && PairMeanZero !in ds[i].advisories
      && (ds[i].stats.Some? <==>
            Original(f, k).Some? && Gradable(F.At(f, Original(f, k).value)) && Gradable(F.At(f, k)))
      && ds[i].crucible == k && DuplicateAsSaid(f, k, limits, ds[i])
  {
    QueriesAreReferenced(f, batch, materials);
    DuplicatesInListSay(f, DuplicatesOf(f, batch), limits, StockOf(f, batch) != [], i);
  }

  /** The crucible of the same batch charged with the same sample as a primary, if there is one. */
  predicate IsOriginal(f: F.Tables, k: nat, o: Option<nat>)
    requires NamesSample(f, k)
  {
    if o.Some? then
      && F.Live(f, o.value) && F.At(f, o.value).batch == F.At(f, k).batch
      && F.At(f, o.value).sample == F.At(f, k).sample && F.At(f, o.value).insertion.None?
    else
      forall j :: 0 <= j < |f.crucibles| ==>
        F.Live(f, j) && F.At(f, j).batch == F.At(f, k).batch && F.At(f, j).sample == F.At(f, k).sample
        ==> F.At(f, j).insertion.Some?
  }

  lemma OriginalIs(f: F.Tables, k: nat)
    requires NamesSample(f, k)
    ensures IsOriginal(f, k, Original(f, k))
  {
    PrimaryIsLive(f, F.At(f, k).batch, F.At(f, k).sample.value, |f.crucibles|);
    if Original(f, k).None? {
      forall j | 0 <= j < |f.crucibles| && F.Live(f, j) && F.At(f, j).batch == F.At(f, k).batch
          && F.At(f, j).sample == F.At(f, k).sample
        ensures F.At(f, j).insertion.Some?
      {
        assert !F.IsPrimaryOf(f, F.At(f, k).batch, F.At(f, k).sample.value, j);
      }
    }
  }

  predicate DuplicateAsSaid(f: F.Tables, k: nat, limits: Limits, d: Duplicate)
    requires NamesSample(f, k)
  {
    var o := Original(f, k);
    && IsOriginal(f, k, o)
    && F.At(f, k).weight > 0.0 && (o.Some? ==> F.At(f, o.value).weight > 0.0)
    && DuplicateSays(F.At(f, k), if o.Some? then Some(F.At(f, o.value)) else None, limits, d)
  }

  lemma DuplicatesInListSay(f: F.Tables, dups: seq<nat>, limits: Limits, listBound: bool, i: nat)
    requires F.Inv(f) && AllNameSamples(f, dups) && limits.rpd > 0.0 && i < |dups|
    requires Collect(Duplicates(f, dups, limits, listBound)).Ok?
    ensures var ds := Collect(Duplicates(f, dups, limits, listBound)).value;
      && |ds| == |dups| && PairMeanZero !in ds[i].advisories
      && (ds[i].stats.Some? <==>
            && Original(f, dups[i]).Some? && Gradable(F.At(f, Original(f, dups[i]).value))
            && Gradable(F.At(f, dups[i])))
      && ds[i].crucible == dups[i] && DuplicateAsSaid(f, dups[i], limits, ds[i])
  {
    var rs := Duplicates(f, dups, limits, listBound);
    CollectIs(rs);
    assert rs[i] == DuplicateOf(f, dups[i], limits, listBound) == Ok(Collect(rs).value[i]);
    PairOf(f, dups[i], limits, listBound);
    OriginalIs(f, dups[i]);
    DuplicateMeans(f, dups[i], limits, listBound);
  }
}
