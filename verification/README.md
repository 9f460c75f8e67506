# A Dafny model of the laboratory record system

The system takes samples of rock from receipt to a signed certificate. This project
models the parts that hold its state, its loops and its arithmetic, and proves what they
guarantee. `dafny verify dfyconfig.toml` checks all of it with Dafny 4.11.

**The audit ledger.** `Canonical`, `JsonReader` and `JsonEquality` model the canonical
serializer, with a reader as its inverse. `HashChain` is about hash-chained rows of any
content; `AuditChain` puts the audit columns and the serializer into it, and `AuditEntry`
says under which name each column is hashed; `AuditLedger` is the table as an object;
`AuditProtocol` is the same append under concurrent transactions. SHA-256 is an abstract
function. Two things are asked of it, only on the strings actually hashed: no two of them
collide, and none of them hashes to the genesis hash of sixty-four zeros, because a missing
predecessor is hashed as that string. Its theorems are about contents a UTF-8 database can
hold, which rules out split surrogate pairs.

**The bench.** `LabTables` holds the tables; `SampleService`, `BatchService`,
`ResultService`, `ReadingService` and `CertificateService` say what each request does or
why it is refused, checks in the order the services make them and database constraints as
insertion guards; `Lab` is the session object whose methods loop and assign as the
services do, each tied to that specification. `LabInvariant`, `LabSteps`, `ResultSteps`,
`CertificateSteps`, `LabRuns`, `LabTheorems` and `LabAuthority` prove what holds over every
run of any requests, granted or refused, with reference data free to change between them;
`LabExamples` gives runs in which the code falls short of a promise. `BenchRules`
states when each request is granted and what it leaves behind, on the rows themselves and
with every constant written out, and `BenchFaults` what each refusal says; `LabRules` and
`LabRefusals` prove both of every request in every reachable state. `Chains` is the
supersession structure shared by results, readings and certificates, and
`SupersessionRace` the same under concurrent requests; `Furnace` and `FurnaceHistory` are
the furnace tables.

**Arithmetic.** `Decimals` defines ROUND_HALF_EVEN rounding over reals, at the 34 digits the
domain code pins and at Python's default 28; `Units`, `Values`, `Assay`, `Silver` and `Qc`
are the calculations with every rounding they make; `TrayQueries`, `QcDossier` and
`DossierStore` are the QC evidence of a batch and where it is kept.

**Labels, numbers, layout.** `Labels` and `Intervals` (hole and sample labels, depth
overlaps), `Numbering` (the bounded retry loop, alone and under concurrency), `TextLayout`
and `PageLayout` (line wrapping and the certificate's pages). `Digits` and `Wrappers` are
shared helpers.

## Where the code and its promises differ

- `db/audit.py` says concurrent writers are not defended against, but the code takes an
  advisory lock; the model follows the code, and every interleaving verifies.
- The serializer escapes texts as UTF-16, so a split surrogate pair and the character it
  spells get the same bytes (`Canonical.SurrogateCollision`). On texts without one, equal
  bytes mean equal values (`JsonEquality.SameBytesIffSameValue`).
- `create_anchor` reads the verified head and the newest row in two queries and ignores
  whether the chain was valid; `AuditChain.AnchorPinsChainIff` says exactly when the
  anchor is accurate.
- The relative difference of a duplicate pair can exceed 200 percent by one last digit
  (`Qc.RpdAbove200`); `Qc.RpdWithin200Iff` says exactly when.
- A ug/L reading of more than 34 digits can be called a non-detect, or accepted as in range,
  although it exceeds that limit (`Assay.MicroDecisionsFail`); `Assay.MicroDecisionsIff` says
  exactly when.
- The stored measurements are meant to reproduce every grade. The silver bead is subtracted in
  Python's default context of 28 digits and its grade in 34, so a silver grade need not repeat
  (`Silver.SilverDrifts`, reached in `LabExamples.SilverCanDrift`); `Silver.SilverRepeatsIff`
  says exactly when it does, and `LabTheorems.SilverStaysClose` how far off it can be.
- A dossier appends an original's flag to the list left over from the last QC entry, so it
  fails to build when there is none (`LabExamples.DossierCanFail`); `QcDossier.BuildFailsIff`
  says exactly when.
- Importing a triple again gives it a second current reading
  (`LabTheorems.CurrentReadingsCountImports`), a re-assayed sample stays in assay
  (`LabTheorems.CorrectionsMoveNoSample`), and issuing asks for a result, not for an
  assayed status (`LabTheorems.IssueReportsOnlyAssayed`).
- Only element readings have a unique index against superseding one row twice. Two requests
  that read the same current fire assay result or certificate before either commits both
  succeed (`SupersessionRace.BothReadBothCommit`); `SupersessionRace.ChainsHoldIff` says
  exactly which interleavings keep the chains.
- Long notes and long supersession statements run below the margin
  (`PageLayout.TextAboveMarginIff`, `PageLayout.StatementLeavesRoomIff`); the table never does.

## Model

| member | source | states |
|---|---|---|
| Canonical.TextSurvivesIff | src/msa_lims/domain/canonical.py:24-31 | a text comes back from its escaped UTF-16 form unchanged if and only if it holds no high surrogate followed by a low one |
| Canonical.SurrogateCollision | src/msa_lims/domain/canonical.py:24-31 | the serializer's one blind spot, by example: a split surrogate pair and the character it spells have the same bytes |
| JsonReader.ReadWrittenUnits | src/msa_lims/domain/canonical.py:24-31 | a reader recovers every UTF-16 unit of an escaped text, whatever follows it |
| JsonReader.ReadWrittenInt | src/msa_lims/domain/canonical.py:24-31 | a reader recovers every integer, sign included, when no digit follows |
| JsonReader.ReadWritten | src/msa_lims/domain/canonical.py:24-31 | a reader recovers every nested value from its rendering and stops exactly where the rendering ends, whatever follows |
| JsonReader.RenderingReadsBack | src/msa_lims/domain/canonical.py:24-31 | the canonical rendering followed by any suffix reads back as the value with sorted keys, and the suffix is left over |
| JsonReader.WriteSeen | src/msa_lims/domain/canonical.py:24-31 | the rendering of what the reader sees is the rendering it read |
| JsonReader.RenderingEqualIff | src/msa_lims/domain/canonical.py:24-31 | two payloads have the same bytes if and only if their sorted forms are seen alike |
| JsonEquality.SeenIsIdentityIffClean | src/msa_lims/domain/canonical.py:24-31 | reading back changes nothing if and only if no text inside the value holds a split surrogate pair |
| JsonEquality.SortedEqualIffSame | src/msa_lims/domain/canonical.py:24-31 | sorted forms coincide if and only if the values are equal up to the order of their keys, at every depth |
| JsonEquality.RenderingFaithfulIff | src/msa_lims/domain/canonical.py:24-31 | the rendering reads back as exactly the sorted value if and only if the value is clean |
| JsonEquality.SameBytesIffSameValue | src/msa_lims/domain/canonical.py:24-31 | clean payloads with distinct keys have equal bytes if and only if they are equal up to key order |
| JsonReader.EscapeIsShortest | src/msa_lims/domain/canonical.py:24-31 | of all the texts a reader takes for one unit inside a string, the escape written is the shortest |
| AuditEntry.LessIff | src/msa_lims/domain/canonical.py:24-31 | one key sorts before another exactly when it is smaller at the first place they differ, or ends there |
| AuditEntry.KeysAscend | src/msa_lims/domain/canonical.py:24-31 | a dict is rendered with its keys in that order |
| AuditChain.HashInputEqualIff | src/msa_lims/domain/audit_chain.py:85-117 | the string hashed for an entry determines its predecessor and every column, and nothing else does: the fixed-length prefix keeps the concatenation unambiguous |
| AuditEntry.EntryReadsBack | src/msa_lims/domain/audit_chain.py:44-82 | the rendered entry reads back as exactly nine items, written out key by key: each column is hashed under its own name, and nothing else is |
| AuditEntry.HashInputReadsBack | src/msa_lims/domain/audit_chain.py:85-117 | what is hashed is the predecessor's hash, or sixty-four zeros, and then that entry |
| AuditChain.SameContentMeansSameSnapshots | src/msa_lims/domain/audit_chain.py:44-82 | entries equal in every hashed column carry the same before and after snapshots up to key order |
| AuditChain.ShaBinds | src/msa_lims/domain/audit_chain.py:85-117 | if SHA-256 is collision-free on the strings hashed and never yields the genesis hash, an entry hash binds its predecessor and its columns |
| HashChain.HeadPinsHistory | src/msa_lims/db/audit.py:113-173 | linked tables with equal heads have equal length and agree row for row |
| HashChain.PredecessorsDistinct | src/msa_lims/db/audit.py:77-93 | no two rows of a linked table name the same predecessor |
| HashChain.VerifiedLengthIsLongest | src/msa_lims/db/audit.py:133-173 | the verified count is the greatest k whose first k rows all link |
| HashChain.VerificationOfBroken | src/msa_lims/db/audit.py:133-173 | the report names the first row that does not link, the prefix before it, that prefix's head and which check failed |
| HashChain.ValidIffLinked | src/msa_lims/db/audit.py:133-173 | valid holds exactly when every link and every recomputed hash agree |
| HashChain.UpToIsPrefix | src/msa_lims/db/audit.py:113-131 | with ascending ids, verification up to an id walks exactly the prefix of rows with no greater id |
| AuditChain.AcceptedTablesWithSameHeadAgree | src/msa_lims/db/audit.py:113-173 | two tables accepted up to any ids with the same head hash hold the same history there in every hashed column |
| AuditChain.CutTailDetected | src/msa_lims/db/audit.py:113-173 | a table cut at the tail is still accepted, but with another head |
| AuditChain.ContentEditReported | src/msa_lims/db/audit.py:149-167 | editing the stored content of row k is reported at row k, unless nothing hashed changed |
| AuditChain.RehashedEditReported | src/msa_lims/db/audit.py:139-167 | an edit re-hashed in place is reported at row k+1; on the last row the table is accepted with another head |
| AuditLedger.AuditTable.constructor | src/msa_lims/db/audit.py:40-93 | an empty table satisfies the table invariant |
| AuditLedger.AuditTable.RecordAuditEvent | src/msa_lims/db/audit.py:40-93 | appends one row linked to the newest one, refuses an amendment without a reason leaving the rows alone, spends an id either way, and keeps a good chain good |
| AuditLedger.AuditTable.VerifyChain | src/msa_lims/db/audit.py:113-173 | the loop returns exactly the longest-linked-prefix report on the rows up to the id |
| AuditLedger.AuditTable.SubmitToCalendars | src/msa_lims/anchoring/__init__.py:148-176 | the count returned is the number of calendars that accepted the digest |
| AuditLedger.AuditTable.CreateAnchor | src/msa_lims/anchoring/__init__.py:66-145 | pins the head of the first query with the newest id of the second, refuses an empty chain, missing client or silent calendars, and writes its own audit event last |
| HashChain.AnchorRefusedIff | src/msa_lims/anchoring/__init__.py:83-97 | there is nothing to anchor exactly when the table is empty or its first row does not link |
| AuditChain.AnchorPinsChainIff | src/msa_lims/anchoring/__init__.py:83-126 | an anchor's hash is the head of an accepted chain ending at its event if and only if the chain verified and no row was committed between the two queries |
| AuditChain.AnchorRace | src/msa_lims/anchoring/__init__.py:83-126 | one event committed between the two queries always makes the anchor inaccurate |
| AuditProtocol.StepKeepsInv | src/msa_lims/db/audit.py:59-93 | each statement of each transaction keeps the lock-holder invariant and never touches committed rows |
| AuditProtocol.EveryInterleavingVerifies | src/msa_lims/db/audit.py:59-93 | under every interleaving of locking, reading, appending, committing and aborting, the committed rows verify and no two share a predecessor |
| AuditProtocol.FreeLockRecords | src/msa_lims/db/audit.py:59-93 | a transaction that finds the lock free can record its event, linked to the newest committed row |
| AuditProtocol.AbortLeavesNothing | src/msa_lims/db/audit.py:59-93 | a transaction rolled back at any point leaves rows, lock and other transactions as it found them; only its ids are spent |
| Decimals.RoundError | src/msa_lims/domain/units.py:157-186 | 34-digit half-even rounding moves a number by at most 5e-34 of its size |
| Decimals.RoundErrorIn | src/msa_lims/fire_assay_results/service.py:394 | in either decimal context one rounding moves a number by at most half a last digit: 5e-34 or 5e-28 of itself |
| Decimals.RoundMonotone | src/msa_lims/domain/units.py:157-186 | 34-digit rounding never reverses an order |
| Decimals.RoundSign | src/msa_lims/domain/units.py:157-186 | rounding keeps zero, keeps sign and is odd |
| Decimals.RoundIdentityIff | src/msa_lims/domain/units.py:27 | rounding is the identity exactly on numbers of at most 34 significant digits, and yields only those |
| Decimals.RoundIsIdentityIff | src/msa_lims/fire_assay_results/service.py:394 | in either context rounding is the identity exactly on the numbers its digits can write, and yields only those |
| Decimals.ContextsAgreeIff | src/msa_lims/fire_assay_results/service.py:394 | rounding to 28 digits and to 34 agree exactly when the 34-digit result has at most 28 |
| Decimals.RoundTimesTen | src/msa_lims/domain/units.py:157-186 | rounding commutes with shifting the decimal point |
| Units.ConvertMonotone | src/msa_lims/domain/units.py:157-186 | conversion through its four roundings is weakly monotone |
| Units.ConvertSign | src/msa_lims/domain/units.py:157-186 | conversion keeps zero and sign and is odd |
| Units.ConvertNearExact | src/msa_lims/domain/units.py:157-186 | a conversion lies within four roundings of the exact rational one |
| Units.ExactInverse | src/msa_lims/domain/units.py:93-105 | on exact rationals converting back is a true inverse |
| Units.ExactCompose | src/msa_lims/domain/units.py:93-105 | on exact rationals conversion composes through any third unit of the dimension |
| Units.RoundTripNear | src/msa_lims/domain/units.py:157-186 | there and back lands between (1-u)^8 and (1+u)^8 of a non-negative original, u = 5e-34 |
| Units.RoundTripNegative | src/msa_lims/domain/units.py:157-186 | the same band holds of the absolute values for a negative original |
| Units.MicroToMilli | src/msa_lims/domain/units.py:93-105 | ug/L to mg/L rounds only the reading; the division by 1000 is exact |
| Units.PpmToGPerTonne | src/msa_lims/domain/units.py:93-105 | ppm to g/t leaves a number of at most 34 digits unchanged |
| Units.ConvertsIff | src/msa_lims/domain/units.py:93-105 | two units convert exactly when both are mass fractions, both mass concentrations or both masses |
| Units.UnitSizes | src/msa_lims/domain/units.py:93-105 | what each unit is worth in another: per cent, per million, per billion, the metric prefixes, and an ounce of 480 grains in a short ton of 2000 pounds of 7000 |
| Values.ConversionKeepsMeaning | src/msa_lims/domain/values.py:177-192 | converting a measured value succeeds exactly within its dimension, converts its value and its limit, never turns a non-detect into a number and never lets a value slip under its limit |
| Assay.GravimetricRespectsLimit | src/msa_lims/domain/assay.py:72-120 | a detected gravimetric grade is positive and never below its own stated limit |
| Assay.SolutionRespectsLimit | src/msa_lims/domain/assay.py:123-221 | a detected solution grade is never below its own stated limit, through all roundings |
| Assay.ElementRespectsLimit | src/msa_lims/domain/assay.py:224-311 | a detected element grade in any output unit is never below its own stated limit |
| Assay.GravimetricOkIff | src/msa_lims/domain/assay.py:97-120 | a bead grades exactly when the portion is positive, the bead not negative, a stated sensitivity positive and a zero bead has one |
| Assay.GravimetricGradeNear | src/msa_lims/domain/assay.py:97-120 | the grade is a thousand times bead over portion, and so is its limit, to within two roundings; it is censored exactly at or below the sensitivity |
| Assay.SolutionOkIff | src/msa_lims/domain/assay.py:168-195 | a solution reading grades exactly when its unit is a concentration, its numbers are in range, a zero reading has a limit and nothing is above calibration |
| Assay.SolutionGradeNear | src/msa_lims/domain/assay.py:178-221 | the grade is mg/L times mL over g, and so is its limit, to within six roundings, whatever unit it was read in |
| Assay.ElementOkIff | src/msa_lims/domain/assay.py:259-311 | an element reading grades exactly when the same holds and the output unit is a mass fraction |
| Assay.ElementGradeNear | src/msa_lims/domain/assay.py:278-311 | that grade in the output unit, and its limit, to within ten roundings |
| Assay.InMgPerLKeepsOrder | src/msa_lims/domain/assay.py:178-195 | readings of at most 34 digits compare in mg/L exactly as they were read |
| Assay.SolutionDecidesOnReadings | src/msa_lims/domain/assay.py:178-221 | the refusal above calibration and the detect or non-detect decision equal comparisons of the raw readings |
| Assay.MicroDecisionsIff | src/msa_lims/domain/assay.py:178-221 | for ug/L readings of any length the refusal above calibration and the non-detect decision are each the raw comparison, exactly unless the reading exceeds that limit and rounds to the same 34 digits |
| Assay.MicroDecisionsFail | src/msa_lims/domain/assay.py:178-221 | a concrete reading above its limit that is called a non-detect, and is accepted above the calibration range |
| Assay.UpperOnlyRefuses | src/msa_lims/domain/assay.py:178-221 | the upper calibration limit can refuse a reading but never changes a grade |
| Assay.ElementAgreesWithSolution | src/msa_lims/domain/assay.py:224-311 | in g/t the element route equals the solution finish with no upper limit, refusals included |
| Assay.DifferenceOkIff | src/msa_lims/domain/assay.py:314-366 | silver by difference needs a portion and a dore bead no lighter than its gold; a predicted bead, a portion and a grade not below zero |
| Assay.SilverGradeNear | src/msa_lims/domain/assay.py:338-342 | the silver grade is a thousand times the difference over the portion, to within three roundings |
| Assay.GoldPlusSilverIsDore | src/msa_lims/domain/assay.py:314-342 | gold grade plus silver by difference is the dore grade to within three roundings |
| Assay.BeadWeightInvertsGrade | src/msa_lims/domain/assay.py:354-366 | the bead predicted from a grade is the bead it came from to within four roundings |
| Silver.SilverRepeatsIff | src/msa_lims/fire_assay_results/service.py:394-398 | the stored silver grade is the one computed again from the stored silver bead exactly when the difference, at 34 digits, has at most 28 of them, or the final division rounds both weights to one grade |
| Silver.ShortDifferenceRepeats | src/msa_lims/fire_assay_results/service.py:394-398 | a difference of at most 28 digits is stored exactly and always gives the stored grade back |
| Silver.DistantBeadNeverRepeats | src/msa_lims/fire_assay_results/service.py:394-398 | a stored bead further from the difference than two roundings never gives it back, over any portion |
| Silver.SilverDrifts | src/msa_lims/fire_assay_results/service.py:394-398 | the failing input: 1 + 10^-30 mg over 1 g stores a bead of 1 mg and another grade |
| Silver.SilverCanMerge | src/msa_lims/fire_assay_results/service.py:394-398 | the exception is real: 9 + 10^-33 mg over 8 g stores a shorter bead, and both grade alike |
| Silver.SilverNearlyRepeats | src/msa_lims/domain/assay.py:338-342 | stored or computed again, the silver grade is within one part in 10^27 of the exact one |
| Qc.MeanPositive | src/msa_lims/domain/qc.py:150-158 | the mean of two positive grades is positive, so a zero mean needs a zero grade |
| Qc.ZScoreNear | src/msa_lims/domain/qc.py:39-76 | the z-score is measured minus certified over uncertainty, sign included, to within two roundings |
| Qc.StatisticsNear | src/msa_lims/domain/qc.py:150-161 | mean, absolute difference and relative difference are their formulas to within the roundings made |
| Qc.PairSymmetric | src/msa_lims/domain/qc.py:150-161 | swapping original and duplicate changes no statistic |
| Qc.RpdWithin200Iff | src/msa_lims/domain/qc.py:150-161 | the relative difference of two positive 34-digit grades lies in 0 to 200 percent exactly when the pair does not overshoot, and is one last digit above 200 otherwise |
| Qc.RpdAbove200 | src/msa_lims/domain/qc.py:150-161 | a concrete pair of grades whose relative difference exceeds 200 percent |
| QcDossier.GradeOfIff | src/msa_lims/qc_dossiers/service.py:114-143 | a crucible has a grade exactly when it was weighed with a positive bead, and that grade is detected and positive |
| QcDossier.BuildDossier | src/msa_lims/qc_dossiers/service.py:146-311 | the queries over the batch's rows and the two loops, with the list variable the second reuses, compute the dossier or the first error |
| QcDossier.PairDuplicates | src/msa_lims/qc_dossiers/service.py:237-292 | the duplicate loop stops at the first failing pair; appending an original's flag succeeds only if a QC entry left a list |
| QcDossier.EntriesSay | src/msa_lims/qc_dossiers/service.py:177-229 | each entry names its crucible, with the grade of its bead or why there is none, the z-score or threshold advisory of its material and nothing else; the CRM non-detect advisory never appears |
| QcDossier.DuplicatesSay | src/msa_lims/qc_dossiers/service.py:237-292 | each pair holds both grades, their statistics exactly when both were weighed with a positive bead, and an advisory exactly above the maximum; the zero-mean advisory never appears |
| QcDossier.PairOf | src/msa_lims/qc_dossiers/service.py:251-276 | what one pair says: its statistics, their bounds, and exactly when pairing it fails |
| QcDossier.BuildFailsIff | src/msa_lims/qc_dossiers/service.py:267-270 | a completed batch's dossier fails to build exactly when the batch holds no stock insertion and some duplicate's original in it cannot be graded |
| LabExamples.DossierFailsIff | src/msa_lims/qc_dossiers/service.py:267-270 | the same in every reachable state of the bench |
| LabExamples.DossierCanFail | src/msa_lims/qc_dossiers/service.py:267-270 | a run from empty tables to such a batch: a pulp and its duplicate fired to the end, nothing weighed |
| QcDossier.DossierCovers | src/msa_lims/qc_dossiers/service.py:146-176 | a dossier is refused exactly for a batch that is missing or not completed, or for an unbound list; built, it has one entry a stock insertion, one pair a duplicate, and is flagged exactly when the batch holds no stock |
| TrayQueries.SelectIs | src/msa_lims/qc_dossiers/service.py:171-175 | the tray query returns each selected crucible of the batch exactly once and nothing else, in slot order |
| DossierStore.Store.constructor | src/msa_lims/qc_dossiers/service.py:396-439 | a store starts with no blob, pointer or event |
| DossierStore.Store.Persist | src/msa_lims/qc_dossiers/service.py:396-439 | stores the bytes if their address is new, and moves the pointer and records one event only if the address changed |
| DossierStore.PersistIsIdempotent | src/msa_lims/qc_dossiers/service.py:399-413 | persisting the same dossier again changes nothing, after any number of requests for other batches |
| DossierStore.PersistKeepsEvidence | src/msa_lims/storage/blob.py:21-44 | stored evidence is never replaced and every pointer leads to bytes that hash to it |
| DossierStore.PersistKeepsAudit | src/msa_lims/qc_dossiers/service.py:412-438 | an event is recorded exactly when the address changed, naming the address it replaces |
| DossierStore.EveryHistoryIsAudited | src/msa_lims/qc_dossiers/service.py:396-439 | after any history the audit events of a batch lead to its pointer, and its evidence is stored |
| Labels.FormatParsesIff | src/msa_lims/domain/sample_id.py:176-197 | formatting then parsing returns the same code, year and number exactly for a valid code, a two-digit year and a number from 0 to 9999 |
| Labels.NormaliseIs | src/msa_lims/domain/sample_id.py:146 | whitespace at either end is dropped and letters are capitals; nothing else changes |
| Labels.DrillReads | src/msa_lims/domain/sample_id.py:32-41 | code, year, hole number and two depths joined as a drill label are read each in its own place |
| Labels.DrillIsRead | src/msa_lims/domain/sample_id.py:32-41 | and nothing else is one: a text read as a drill label is such a concatenation |
| Labels.SurfaceReads | src/msa_lims/domain/sample_id.py:43-50 | code, year, medium and serial joined as a surface label are read each in its own place |
| Labels.SurfaceIsRead | src/msa_lims/domain/sample_id.py:43-50 | and a text read as a surface label is such a concatenation |
| Labels.CanonicalIdempotent | src/msa_lims/domain/sample_id.py:200-211 | a canonical hole id is its own canonical form and names the same hole |
| Labels.CanonicalEqualIff | src/msa_lims/domain/sample_id.py:200-211 | two labels have the same canonical form exactly when they parse equal |
| Labels.FormsDisjoint | src/msa_lims/domain/sample_id.py:32-52 | no label fits both the drill and the surface form |
| Labels.FormOrderIsFree | src/msa_lims/domain/sample_id.py:138-173 | trying the surface form before the drill form would read every label the same |
| Labels.DrillHoleIsCanonical | src/msa_lims/domain/sample_id.py:122-132 | a drill sample's hole id is the canonical form of the hole part of its own label |
| Intervals.OverlapIsSharedRock | src/msa_lims/domain/sample_id.py:90-95 | two intervals overlap exactly when some depth lies in both |
| Intervals.SortedByDepth | src/msa_lims/domain/sample_id.py:222-224 | shallower starts come first, then shallower ends |
| Intervals.SortIsStable | src/msa_lims/domain/sample_id.py:222-224 | equal intervals keep the order they came in |
| Intervals.SortingKeepsPairs | src/msa_lims/domain/sample_id.py:214-233 | sorting changes how often no pair of names is reported |
| Intervals.FindOverlaps | src/msa_lims/domain/sample_id.py:214-233 | the sweep with its early break reports every unordered overlapping pair as often as it occurs, and nothing else, ties and nesting included |
| Intervals.EndToEndLengths | src/msa_lims/domain/sample_id.py:86-88 | intervals laid end to end sum to the depth from the first top to the last bottom |
| Intervals.NoOverlapCoversOnce | src/msa_lims/domain/sample_id.py:214-233 | when nothing is reported the interval lengths sum to at most any span that holds them |
| Numbering.FormatShows | src/msa_lims/certificates/service.py:501-503 | a number is its prefix and then its decimal digits, four of them or more when it needs them |
| Numbering.FormatInjective | src/msa_lims/certificates/service.py:501-503 | zero-padding to four digits never makes two numbers look alike |
| Numbering.UndisturbedSucceeds | src/msa_lims/db/numbering.py:81-96 | with a gap of at most slack above the count, an undisturbed request gets a fresh number within slack + 1 attempts |
| Numbering.UndisturbedKeepsSlack | src/msa_lims/db/numbering.py:81-96 | an undisturbed insert never widens the gap |
| Numbering.SequentialUsesOneToN | src/msa_lims/db/numbering.py:81-96 | a purely sequential history uses exactly the numbers 1 to n |
| Numbering.AllocateFreshAndBounded | src/msa_lims/db/numbering.py:63-96 | whatever others commit between attempts, an allocated number is fresh and keeps the gap |
| Numbering.AllocateUndisturbed | src/msa_lims/db/numbering.py:63-96 | left alone, the loop takes the first free number |
| Numbering.WhyAllocateFails | src/msa_lims/db/numbering.py:63-96 | the loop gives up exactly when each of its remaining candidates is taken by the time it is inserted, and at once exactly on another integrity error |
| Numbering.NumberTable.constructor | src/msa_lims/db/numbering.py:47-56 | a year starts with no numbers |
| Numbering.NumberTable.InsertWithUniqueNumber | src/msa_lims/db/numbering.py:63-96 | the retry loop re-raises other integrity errors at once, retries unique violations at most five times and returns what the allocation specification says |
| Numbering.StepKeepsInv | src/msa_lims/db/numbering.py:81-96 | each step of each concurrent request keeps the gap and the distinctness of uncommitted numbers |
| Numbering.UncontestedCommits | src/msa_lims/db/numbering.py:81-96 | a request whose next number is free and uncontested commits it: one more than the count |
| Numbering.TakenNumberRetries | src/msa_lims/db/numbering.py:81-96 | a committed number sends a concurrent request back to count again, the fifth time it gives up |
| Numbering.EveryInterleavingKeepsGap | src/msa_lims/db/numbering.py:42-96 | under every interleaving the highest committed number stays within four of the count, so the next undisturbed request gets a fresh number |
| TextLayout.WrapLines | src/msa_lims/certificates/pdf.py:41-59 | the loop produces the lines of the greedy split |
| TextLayout.WrapIsSplit | src/msa_lims/certificates/pdf.py:41-59 | every word appears once and in order, and every line of two or more words fits |
| TextLayout.WrapIsShortest | src/msa_lims/certificates/pdf.py:41-59 | no other split into fitting lines or single words uses fewer lines, for any additive width |
| TextLayout.WrapIsGreedy | src/msa_lims/certificates/pdf.py:41-59 | the first word of a line never fits on the line before it |
| PageLayout.TableHolds | src/msa_lims/certificates/pdf.py:159-198 | the rows of each sample follow those of the samples before it, in one piece |
| PageLayout.SampleShows | src/msa_lims/certificates/pdf.py:159-198 | a sample shows its line, its digest if it has elements and a digest, and each element by name and grade |
| PageLayout.DrawElements | src/msa_lims/certificates/pdf.py:186-197 | the element loop draws each element once, in order, never below its guard, with a heading on every new page |
| PageLayout.DrawGoldLine | src/msa_lims/certificates/pdf.py:159-174 | a sample line is drawn at least half an inch above the margin |
| PageLayout.DrawBlock | src/msa_lims/certificates/pdf.py:180-198 | the digest line and the elements follow their sample in order |
| PageLayout.DrawTable | src/msa_lims/certificates/pdf.py:140-198 | every sample, digest and element is drawn once and in order, at the exact spacing and with a page break exactly where its guard says, no row falls below the margin and every page repeats the heading, from any starting height |
| PageLayout.DrawNotes | src/msa_lims/certificates/pdf.py:200-207 | notes break the page at most once, before their first line |
| PageLayout.NotesBreakIff | src/msa_lims/certificates/pdf.py:200-203 | notes go to the top of the next page exactly when the table ended lower than 0.89 of an inch |
| PageLayout.TextAboveMarginIff | src/msa_lims/certificates/pdf.py:205-207 | wrapped text stays above the margin exactly when it has no more lines than there is room |
| PageLayout.NotesRoom | src/msa_lims/certificates/pdf.py:200-207 | two lines of notes always fit and the 69th never does |
| PageLayout.TableStartsAt | src/msa_lims/certificates/pdf.py:98-137 | the height at which the table starts, with and without a statement |
| PageLayout.StatementLeavesRoomIff | src/msa_lims/certificates/pdf.py:128-157 | a supersession statement pushes the table's first heading below the margin from its 57th line on |
| Lifecycle.MenuIsDecision | src/msa_lims/domain/lifecycle.py:135-199 | a move is refused outright exactly when the menu does not offer it, whoever asks |
| Lifecycle.AllowedIff | src/msa_lims/domain/lifecycle.py:72-199 | the whole decision in closed form: which move is listed, which roles may make it and when a reason is needed |
| Lifecycle.RoleTiers | src/msa_lims/domain/enums.py:263-269 | only a lab manager signs; analysts, supervisors and lab managers enter results; everyone but a client works at the bench |
| Lifecycle.ManagerMayMakeEveryOfferedMove | src/msa_lims/domain/lifecycle.py:152-199 | every offered move is open to a lab manager who states a reason |
| Lifecycle.MoveFacts | src/msa_lims/domain/lifecycle.py:72-132 | reported and rejected admit no move, only an assayed sample becomes reported, and preparation is skipped only by a pulp |
| BatchLifecycle.LegalMoveIsOneStage | src/msa_lims/domain/batch_lifecycle.py:46-102 | a batch move is legal exactly when it is one stage up and the actor is bench staff |
| BatchLifecycle.BulkKeepsAgreement | src/msa_lims/domain/batch_lifecycle.py:82-110 | a bulk advance keeps tray and stage in agreement and never sets a crucible back |
| Furnace.PlaceKeepsInv | src/msa_lims/batches/service.py:311-340 | a charge into a free slot of an open batch keeps slots, primaries, stages and loaded batches right |
| Furnace.RemoveKeepsInv | src/msa_lims/batches/service.py:402-438 | removing a crucible from a batch still charging keeps them too |
| Furnace.MeasureKeepsInv | src/msa_lims/batches/service.py:487-495 | recording a measurement keeps them too |
| Furnace.AdvanceKeepsInv | src/msa_lims/batches/service.py:571-598 | advancing a batch with its tray keeps them, and a batch that fires is not empty |
| FurnaceHistory.FollowsTrans | src/msa_lims/batches/service.py:377-609 | the later-state relation of the furnace tables composes over any number of requests |
| FurnaceHistory.TrayIsFixed | src/msa_lims/batches/service.py:402-406 | a fired batch holds the same crucibles in every later state |
| FurnaceHistory.AdvanceLowersWork | src/msa_lims/batches/service.py:571-598 | every advance strictly lowers the work left in the batch |
| FurnaceHistory.MeasureLowersWork | src/msa_lims/batches/service.py:464-555 | every parting and weighing strictly lowers it |
| FurnaceHistory.OtherWorkKeeps | src/msa_lims/batches/service.py:216-609 | nothing done elsewhere adds work to a fired batch |
| Chains.HeadsEqualRoots | src/msa_lims/multi_element/service.py:84-102 | there are as many current rows of a key as rows entered fresh |
| Chains.OneSuccessor | src/msa_lims/db/models.py:993-999 | a row is superseded at most once |
| Chains.ChainsPartition | src/msa_lims/multi_element/service.py:220-262 | every row is on the chain of exactly one current row of its key |
| Chains.CurrentIsLast | src/msa_lims/fire_assay_results/service.py:190-211 | with one root per key the anti-join query returns the last row entered, and it is the only current row |
| Chains.CurrentChainIsWhole | src/msa_lims/fire_assay_results/service.py:190-211 | the chain of the current row holds every row of the key and nothing else |
| Chains.ChainsNeverChange | src/msa_lims/fire_assay_results/service.py:19-30 | a chain once formed is never rewritten |
| SupersessionRace.StepKeepsInv | src/msa_lims/fire_assay_results/service.py:244-326 | each statement of each concurrent request keeps every choice of a row to supersede one that was right when it was made, and only adds rows |
| SupersessionRace.HeadsCountOvertakings | src/msa_lims/fire_assay_results/service.py:190-211 | under every interleaving each commit overtaken by one that superseded the same row leaves exactly one current row too many, for good |
| SupersessionRace.ChainsHoldIff | src/msa_lims/fire_assay_results/service.py:244-326 | from sound chains an interleaving leaves sound chains if and only if none of its commits is overtaken |
| SupersessionRace.IndexKeepsChains | src/msa_lims/db/models.py:994-999 | with the unique index on supersedes_id every interleaving leaves sound chains |
| SupersessionRace.BothReadBothCommit | src/msa_lims/certificates/service.py:291-294 | without that index two requests that read the same current row both commit, whatever the table held, and leave one current row too many |
| SupersessionRace.BothReadOneCommits | src/msa_lims/multi_element/service.py:218-262 | with it the second of them is rolled back |
| SupersessionRace.AbortLeavesNothing | src/msa_lims/fire_assay_results/service.py:244-326 | an aborted request leaves the table as it was and frees its place |
| Lab.Session.constructor | src/msa_lims/batches/service.py:175-178 | empty tables satisfy the invariant |
| Lab.Session.AdvanceSample | src/msa_lims/sample_lifecycle/service.py:40-76 | a bare move is granted exactly by the transition table, from the three targets a request can name, and moves that one status |
| Lab.Session.CreateBatch | src/msa_lims/batches/service.py:180-214 | opens a pending batch or refuses, and keeps the invariant |
| Lab.Session.CheckContents | src/msa_lims/batches/service.py:242-290 | for bench staff nothing is refused exactly when the material exists, or the sample exists, is ready for assay (a primary) or in assay (a duplicate), and enough of it was received |
| Lab.Session.CheckBatchAndPosition | src/msa_lims/batches/service.py:440-462 | each problem is reported exactly when its fault is there: batch not open, slot taken, material retired |
| Lab.Session.CheckCharge | src/msa_lims/batches/service.py:219-317 | a charge passes exactly when nothing stands in its way, whatever order the conditions are looked at in |
| BatchService.ChargeIff | src/msa_lims/batches/service.py:216-340 | a charge is granted exactly when role, contents, batch, a free slot from row 1 and column 1 to the last ones, material, primary and weights all allow it |
| Lab.Session.ChargeCrucible | src/msa_lims/batches/service.py:216-375 | charges the crucible and moves a primary's sample into assay, or refuses and changes nothing |
| Lab.Session.UnchargeCrucible | src/msa_lims/batches/service.py:377-438 | removes the crucible and reverts its sample if it was a primary still in assay, or refuses and changes nothing |
| Lab.Session.RecordParting | src/msa_lims/batches/service.py:464-511 | stores the parting measurements once, on a cupelled crucible only |
| Lab.Session.RecordWeighing | src/msa_lims/batches/service.py:513-555 | stores the bead once, on a parted crucible only |
| Lab.Session.AdvanceStatus | src/msa_lims/batches/service.py:571-609 | advances the batch one stage with its whole tray, or refuses and changes nothing |
| Lab.Session.SetTray | src/msa_lims/batches/service.py:596-598 | the loop sets exactly the batch's own crucibles |
| Lab.Session.Admit | src/msa_lims/fire_assay_results/service.py:244-287 | admitted exactly when the role may enter results and a first result finds its sample in assay; the value returned is the only row of the sample nothing supersedes |
| Lab.Session.CheckSupersession | src/msa_lims/fire_assay_results/service.py:508-538 | no problem exactly when the entry names the current result, or none where there is none, and a supersession states its reason |
| Lab.Session.CheckCrucible | src/msa_lims/fire_assay_results/service.py:569-590 | no problem exactly when the crucible holds this sample, has borne a bead and no weight was typed |
| Lab.Session.ResolveWeighing | src/msa_lims/fire_assay_results/service.py:594-669 | no problem exactly when portion and bead each have one source, typed or recorded, and the numbers returned are those sources' |
| Lab.Session.ResolvePortion | src/msa_lims/fire_assay_results/service.py:540-592 | no problem exactly when the portion has one source, and the number returned is that source's |
| Lab.Session.Record | src/msa_lims/fire_assay_results/service.py:289-326 | appends the row and moves the sample only for a first result |
| Lab.Session.EnterWeighed | src/msa_lims/fire_assay_results/service.py:328-415 | records a gravimetric result, or refuses and changes nothing |
| Lab.Session.EnterRead | src/msa_lims/fire_assay_results/service.py:417-506 | records a solution finish, or refuses and changes nothing |
| Lab.Session.ValidateItem | src/msa_lims/multi_element/service.py:289-303 | no problem exactly when the element is new to the request, its grade non-negative and its unit a mass fraction |
| Lab.Session.ValidateImport | src/msa_lims/multi_element/service.py:281-305 | the loop collects the problems of every item, duplicates of earlier elements included |
| Lab.Session.StoreReadings | src/msa_lims/multi_element/service.py:149-186 | the loop appends one row per item, flagged at or below its limit |
| Lab.Session.CheckImport | src/msa_lims/multi_element/service.py:109-147 | refuses nothing exactly for a role that may enter results, an existing sample in assay or assayed, and a run without problems |
| Lab.Session.ImportResults | src/msa_lims/multi_element/service.py:109-188 | imports all items and moves the sample to assayed, or refuses and changes nothing |
| Lab.Session.CorrectReading | src/msa_lims/multi_element/service.py:190-279 | supersedes a current reading of the triple and moves no sample, or refuses and changes nothing |
| Lab.Session.ResolveOne | src/msa_lims/certificates/service.py:449-469 | accepted exactly when the id is new, exists, is the client's and has a current result, which is the one returned |
| Lab.Session.ResolveSamples | src/msa_lims/certificates/service.py:438-471 | the loop pairs each requested sample with its current result and collects the problems |
| Lab.Session.ResolveSupersession | src/msa_lims/certificates/service.py:473-491 | no problem exactly when nothing is superseded, or a current certificate of the client with a reason |
| Lab.Session.ReportCovered | src/msa_lims/certificates/service.py:325-333 | the loop reports exactly the covered samples that are assayed |
| Lab.Session.Issue | src/msa_lims/certificates/service.py:302-436 | freezes the current rows of every covered sample, or refuses and changes nothing |
| LabSteps.ChargeStep | src/msa_lims/batches/service.py:216-375 | a granted charge keeps the whole invariant and leads to a later state by legal status moves |
| LabSteps.UnchargeStep | src/msa_lims/batches/service.py:402-438 | so does a granted un-charge, the reversal included |
| LabSteps.UnchargeMeetsNoResult | src/msa_lims/batches/service.py:402-438 | un-charging is granted exactly for bench staff and a crucible of an open batch: its status check and its foreign key never refuse |
| ResultSteps.EnterWeighedStep | src/msa_lims/fire_assay_results/service.py:328-415 | a recorded gravimetric result is reproducible in gold, has silver columns of one dore bead, is backed by its crucible and extends its sample's chain |
| ResultSteps.EnterReadStep | src/msa_lims/fire_assay_results/service.py:417-506 | so is a recorded solution finish, although the upper limit is not stored |
| ResultSteps.NoProblemNoNegative | src/msa_lims/multi_element/service.py:281-305 | an import without problems has distinct elements, non-negative grades and mass fractions only |
| ResultSteps.ImportStep | src/msa_lims/multi_element/service.py:132-188 | a granted import keeps the invariant; a reading is flagged exactly when it stands at its own limit |
| ResultSteps.CorrectStep | src/msa_lims/multi_element/service.py:220-262 | whichever current row the unordered query returns, a correction keeps the chains unbranched |
| CertificateSteps.ResolvedAll | src/msa_lims/certificates/service.py:438-471 | a request resolved without problems covers exactly the ids it named, once each, by their current results |
| CertificateSteps.IssueStep | src/msa_lims/certificates/service.py:302-436 | a granted certificate is sound and keeps the invariant |
| CertificateSteps.FreshAtIssuance | src/msa_lims/certificates/service.py:149-182 | a certificate is not stale when it is issued |
| CertificateSteps.FreezesWhatIsCurrent | src/msa_lims/certificates/service.py:405-421 | each covered sample, in the order asked for, is frozen with its current result and all its current readings |
| CertificateSteps.StaleIff | src/msa_lims/certificates/service.py:149-182 | a certificate is stale exactly when some frozen row is no longer a current row of its sample |
| CertificateSteps.StaleForever | src/msa_lims/certificates/service.py:149-182 | staleness never reverts and a certificate's row never changes |
| LabRuns.EveryStep | src/msa_lims/batches/service.py:216-609 | any request, granted or refused, keeps the invariant, leads to a later state and moves each status by a legal move |
| LabRuns.EveryRunKeepsInv | src/msa_lims/fire_assay_results/service.py:244-669 | the invariant holds in every state any sequence of requests can reach |
| LabRuns.RunIsLater | src/msa_lims/certificates/service.py:302-436 | whatever happens next, append-only rows are untouched and the furnace never runs backwards |
| LabRules.GrantedIff | src/msa_lims/domain/lifecycle.py:33-199 | in every reachable state each kind of request is granted exactly by its rule, a table with the roles, statuses and bounds written out |
| LabRules.EveryRequestFollowsRules | src/msa_lims/fire_assay_results/service.py:244-506 | and then it leaves behind exactly what its rule says, field by field; a refused one leaves everything as it was |
| LabRules.ChargeRule | src/msa_lims/batches/service.py:216-375 | a charge is granted exactly by the rules, and leaves one new crucible holding what was asked for |
| LabRules.OutsideTrayIff | src/msa_lims/domain/batch_lifecycle.py:160-163 | with everything else in order a charge is refused as outside the tray exactly when its row is not from 1 to the rows or its column not from 1 to the columns |
| LabRules.WeighedRule | src/msa_lims/fire_assay_results/service.py:328-415 | a weighed entry is granted exactly by the rules; its row holds the bead, the portion and the sensitivity, the request's own or else the named instrument's balance sensitivity, and grades of exactly these |
| LabRules.ReadRule | src/msa_lims/fire_assay_results/service.py:417-506 | so does a solution entry, its limit the request's own or else the instrument's solution detection limit, its technique, reading, unit and volume the request's |
| LabRules.ResultsReadAsEntered | src/msa_lims/fire_assay_results/service.py:244-506 | a result row, in every later state, is the one the rules say was entered |
| LabRules.ImportRule | src/msa_lims/multi_element/service.py:109-188 | an import is granted exactly by the rules, and stores each item as read, or as its limit and flagged at or below it |
| LabRules.CorrectRule | src/msa_lims/multi_element/service.py:190-279 | a correction is granted exactly by the rules, and supersedes the current reading it found |
| LabRules.IssueRule | src/msa_lims/certificates/service.py:302-436 | a certificate is issued exactly by the rules: by a lab manager, of the client's samples with a result, over a current certificate with a reason; it freezes their current rows in the order asked for |
| LabRules.EveryGrantHasItsRole | src/msa_lims/domain/enums.py:263-269 | only a lab manager signs, whether or not a status changes; only analysts, supervisors and lab managers enter, import or correct; only the last two reject; clients do nothing |
| LabRefusals.EveryRefusalHasItsFault | src/msa_lims/batches/service.py:216-609 | in every reachable state a refusal names a fault the request has, whichever check is made first |
| LabTheorems.TraysAgreeWithStages | src/msa_lims/batches/service.py:571-609 | in every reachable state crucible statuses agree with their batch's stage and a fired batch is not empty |
| LabTheorems.TrayFixedForever | src/msa_lims/batches/service.py:402-438 | once charging ends a batch holds the same crucibles for good, and no charge or measurement is ever rewritten |
| LabTheorems.UnchargeUndoesCharge | src/msa_lims/batches/service.py:377-438 | un-charging the crucible just charged restores every status and every other row; only its id is spent |
| LabTheorems.MovesAreBounded | src/msa_lims/domain/batch_lifecycle.py:46-141 | the work left in a fired batch bounds how often it can still be advanced, parted or weighed, whatever else happens |
| LabTheorems.ResultsFormOneChain | src/msa_lims/fire_assay_results/service.py:190-211 | with requests served one at a time, each sample's results across both finishes are one linear chain in id order whose only head is the current result |
| LabTheorems.ResultsStayReproducible | src/msa_lims/db/models.py:466-485 | a stored gold grade equals the grade function re-run on the row's own inputs, the silver columns come from one dore bead, and the crucible still backs the row, in every later state |
| LabTheorems.SilverRepeatsForeverIff | src/msa_lims/fire_assay_results/service.py:394-398 | in every later state an entry's silver grade is the one its own row gives back exactly when the two silver weights agree |
| LabTheorems.SilverStaysClose | src/msa_lims/fire_assay_results/service.py:394-398 | in every reachable state a stored silver grade is within three parts in 10^27 of the one its row gives back |
| LabExamples.SilverCanDrift | src/msa_lims/fire_assay_results/service.py:394-398 | a run from empty tables to a row whose silver grade its own columns do not give back |
| LabTheorems.BeadReadBackForever | src/msa_lims/fire_assay_results/service.py:654-669 | a bead read back from a weighed crucible equals that crucible's bead for good |
| LabTheorems.CorrectionsMoveNoSample | src/msa_lims/fire_assay_results/service.py:323-324 | once a sample has a fire assay result no further fire assay entry moves its status, so a re-assayed sample stays in assay |
| LabTheorems.CurrentReadingsCountImports | src/msa_lims/multi_element/service.py:84-171 | a triple has as many current readings as times it was imported, however often it was corrected |
| LabTheorems.TablesAreChained | src/msa_lims/fire_assay_results/service.py:19-30 | in every state reached by requests served one at a time the three supersession tables are sound, as the interleavings of SupersessionRace begin |
| LabTheorems.ReadingAndCertificateChains | src/msa_lims/certificates/service.py:473-491 | with requests served one at a time, every reading and every certificate is on the chain of exactly one current row of its triple or client |
| LabTheorems.CertificatesAreHistory | src/msa_lims/certificates/service.py:218-269 | what a certificate froze never changes, and once stale it is stale in every later state |
| LabTheorems.IssueReportsOnlyAssayed | src/msa_lims/certificates/service.py:325-333 | issuing reports the covered samples that are assayed and leaves every other status alone |
| LabTheorems.RecordedForever | src/msa_lims/batches/service.py:464-555 | what was charged, parted or weighed reads exactly as recorded in every later state |
| LabTheorems.PortionsWithinReceived | src/msa_lims/batches/service.py:271-285 | in every reachable state no portion charged exceeds the weight received for its sample |
| LabAuthority.EveryStatusIsWarranted | src/msa_lims/sample_lifecycle/service.py:1-23 | no status changes without the one act and authority that make it true: a charge, a result, a certificate, or a supervisor with a reason |
| LabAuthority.ClientsChangeNothing | src/msa_lims/domain/lifecycle.py:33-40 | a request made in the client role changes nothing at all |
| LabTheorems.FinalStatusesAreFinal | src/msa_lims/domain/lifecycle.py:21-24 | reported and rejected samples keep their status for good |
| LabTheorems.ReportedSamplesAreCertified | src/msa_lims/certificates/service.py:325-421 | every reported sample is on a certificate of its client that froze a result from its own chain |
| LabTheorems.InAssayIsInATray | src/msa_lims/batches/service.py:371-422 | every sample in assay has a primary charge in some tray |
| LabTheorems.ReadyWasPreparedOrPulp | src/msa_lims/domain/lifecycle.py:16-19 | every sample that ever became ready for assay was in preparation earlier in the run, or is a pulp |

## Left out

- SHA-256 itself, OpenTimestamps proofs, PDF drawing calls and glyph widths: abstract parameters.
- Routes, authentication, role maps, clients, projects, instruments and flux recipe upkeep: single checks and field copying.
- Flux scaling: one linear factor; only its refusal of a non-positive weight or nominal portion is modelled.
- Prep records: supersession there does not look for a head, so there is no chain to prove anything of.
- Concurrency of the bench services: each request is one transaction seen alone; the audit ledger, number allocation and supersession are modelled under interleaving, each by itself.
- SupersessionRace.Step: a fire assay correction may choose any current row, where the service asks for the one with the highest id; with one current row they are the same.
- Rows as shared objects: table rows are values held in sequences of the session object, so aliasing of one row object is not captured.
- Lab.Session.Issue: the certificate number and the PDF bytes are not part of the row, and running out of number attempts is modelled only in Numbering.
- Canonical.CanonicalJson: payloads hold null, booleans, integers, text, lists and dicts; floating-point numbers are not part of this model.
- Decimal exponent limits and the text form of decimals: numbers are reals rounded to 34 or 28 significant digits with no overflow.
- Labels.CanonicalIdempotent: proved for the ASCII rules of stripping, upper-casing and digits, as for ParseHoleId below.
- Labels.CanonicalEqualIff: proved for the same ASCII rules.
- Labels.ParseHoleId: ASCII letters, digits and spaces only; other scripts' digits and case rules are not modelled.
- Labels.ParseLabel: the two depths of a drill label stay digit strings; that they advance is Intervals' concern.
- Lifecycle.Blank: whitespace is the ASCII characters Python strips; other scripts' spaces are not modelled.
- MeasuredValue.parse and substituted: text patterns and a halving.
- Timestamps, notes, error texts, cursor paging and the provenance queries.
- PageLayout.DrawTable: lengths are whole hundredths of an inch, where the source uses floating-point points.
- The order in which equal elements of two readings are listed on a certificate: a line freezes a set of readings.
