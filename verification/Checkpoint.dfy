/** Audit checkpoints: a recorded payload is checked to describe a prefix of the journal. */
module Checkpoint {
  import opened AuditChain
  import opened Text
  import opened Wrappers

  /** An explicit replay origin: the columns that replay and checkpoints read. */
  datatype Baseline = Baseline(
    revision: nat,
    stateHash: string,
    patchHead: string,
    legacyCount: nat,
    priorStatus: History,
    backupSha: string)

  /** The prior-history labels: "replay_verified_from_genesis",
      "legacy_pre_v3_nonreplayable_before_signed_migration_baseline",
      "legacy_history_backed_up_not_semantically_replayed" and
      "authenticated_pre_v15_projection_in_migration_backup". */
  datatype History =
    | FromGenesis
    | LegacyPreV3
    | LegacyBackedUp
    | PreV15Projection
    | OtherHistory(name: string)

  /** One database snapshot: `patches` are the applied patches in revision order. The state hash
      is that of the current projection, the provenance hash that of the run-selection rows. */
  datatype Journal = Journal(
    problemId: string,
    schemaVersion: int,
    revision: nat,
    patches: seq<Row<PatchContent>>,
    events: seq<Row<EventContent>>,
    migrations: seq<int>,
    auditBaseline: Option<Baseline>,
    projectionBaseline: Option<Baseline>,
    stateHash: string,
    provenance: string)

  const CHECKPOINT_VERSION := 2

  datatype Payload = Payload(
    version: int,
    problemId: string,
    schemaVersion: int,
    createdAt: string,
    proofRevision: int,
    patchCount: int,
    patchHead: string,
    stateHash: string,
    provenance: Option<string>,
    startRevision: int,
    startStateHash: string,
    startEntryHash: string,
    legacyCount: int,
    backupSha: string,
    eventCount: int,
    eventHead: string,
    policyHead: string,
    migrations: seq<int>,
    priorStatus: History)

  predicate IsSha256(s: string) {
    |s| == 64 && forall c | c in s :: IsHex(c)
  }

  predicate StrictlyAscending(s: seq<int>) {
    forall i, j | 0 <= i < j < |s| :: s[i] < s[j]
  }

  function Later(rows: seq<Row<PatchContent>>, revision: int): seq<Row<PatchContent>> {
    if rows == [] then [] else
      var init := Later(rows[..|rows| - 1], revision);
      var last := rows[|rows| - 1];
      if last.content.appliedRevision > revision then init + [last] else init
  }

  function Earlier(rows: seq<Row<PatchContent>>, revision: int): seq<Row<PatchContent>> {
    if rows == [] then [] else
      var init := Earlier(rows[..|rows| - 1], revision);
      var last := rows[|rows| - 1];
      if last.content.appliedRevision > revision then init else init + [last]
  }

  function StartRevision(b: Option<Baseline>): nat {
    match b case None => 0 case Some(v) => v.revision
  }

  /** Python's `value or default`. */
  function OrElse(s: string, default: string): string {
    if s == "" then default else s
  }

  function StartHead(b: Option<Baseline>): string {
    match b case None => GENESIS_HASH case Some(v) => OrElse(v.patchHead, GENESIS_HASH)
  }

  function LegacyCount(b: Option<Baseline>): nat {
    match b case None => 0 case Some(v) => v.legacyCount
  }

  function PriorStatus(b: Option<Baseline>): History {
    match b case None => FromGenesis case Some(v) => v.priorStatus
  }

  function BackupSha(b: Option<Baseline>): string {
    match b case None => "" case Some(v) => v.backupSha
  }

  /** The state hash the suffix starts from; without a recorded one it is read off the first
      patch, and with no patch either it is the current one. */
  function StartState(j: Journal, b: Option<Baseline>): string {
    var suffix := Later(j.patches, StartRevision(b));
    var derived := if suffix == [] then j.stateHash else suffix[0].content.stateHashBefore;
    match b
    case Some(v) => OrElse(v.stateHash, derived)
    case None => derived
  }

  // ----- Replay -----

  /** Replay starts from the projection baseline when there is one. */
  function Effective(j: Journal): Option<Baseline> {
    if j.projectionBaseline.Some? then j.projectionBaseline else j.auditBaseline
  }

  /** State hashes of consecutive patches meet, from the start to the current state. */
  ghost predicate StatesMeet(start: string, rows: seq<Row<PatchContent>>, current: string) {
    if rows == [] then start == current
    else
      && rows[0].content.stateHashBefore == start
      && (forall i | 0 <= i < |rows| - 1 :: rows[i].content.stateHashAfter == rows[i + 1].content.stateHashBefore)
      && rows[|rows| - 1].content.stateHashAfter == current
  }

  ghost predicate BaselineShape(b: Option<Baseline>, status: History) {
    b.Some? ==>
      && IsSha256(b.value.stateHash) && IsSha256(b.value.patchHead) && IsSha256(b.value.backupSha)
      && b.value.priorStatus == status
  }

  /** What the two journal verifications establish before a checkpoint is written. The prior
      status of each kind of baseline is the one its migration writes. */
  ghost predicate Replayable(hp: EntryHash<PatchContent>, he: EntryHash<EventContent>, j: Journal) {
    var base := Effective(j);
    var suffix := Later(j.patches, StartRevision(base));
    && BaselineShape(j.auditBaseline, LegacyPreV3) && BaselineShape(j.projectionBaseline, PreV15Projection)
    && StartRevision(base) + |suffix| == j.revision
    && (forall i | 0 <= i < |suffix| :: suffix[i].content.appliedRevision == StartRevision(base) + 1 + i)
    && |Earlier(j.patches, StartRevision(base))| == LegacyCount(base)
    && Head(GENESIS_HASH, Earlier(j.patches, StartRevision(base))) == StartHead(base)
    && Linked(hp, StartHead(base), suffix)
    && StatesMeet(StartState(j, base), suffix, j.stateHash)
    && Linked(he, GENESIS_HASH, j.events)
    && IsSha256(j.stateHash) && IsSha256(j.provenance) && IsSha256(StartState(j, base))
    && j.schemaVersion >= 1
    && StrictlyAscending(j.migrations) && (forall m | m in j.migrations :: m >= 1)
  }

  /** Every hash is a SHA-256 digest. */
  ghost predicate DigestValued(hp: EntryHash<PatchContent>, he: EntryHash<EventContent>) {
    (forall c, p :: IsSha256(hp(c, p))) && (forall c, p :: IsSha256(he(c, p)))
  }

  /** The payload create_signed_audit_checkpoint signs for a replayable journal. */
  function PayloadOf(j: Journal, createdAt: string): Payload {
    var base := Effective(j);
    var suffix := Later(j.patches, StartRevision(base));
    Payload(
      CHECKPOINT_VERSION, j.problemId, j.schemaVersion, createdAt, j.revision, |suffix|,
      Head(StartHead(base), suffix), j.stateHash, Some(j.provenance),
      StartRevision(base), StartState(j, base), StartHead(base),
      |Earlier(j.patches, StartRevision(base))|, BackupSha(base),
      |j.events|, Head(GENESIS_HASH, j.events), PolicyHead(j.events), j.migrations, PriorStatus(base))
  }

  // ----- Verification -----

  datatype CountField =
    | SchemaVersion | ProofRevision | PatchCount | JournalStartRevision | LegacyPatchCount | EventCount

  datatype DigestField =
    | PatchJournalHead | ProofStateHash | JournalStartStateHash | JournalStartEntryHash | EventChainHead
    | PolicyEventHead | RunProvenanceHash | MigrationBackupSha

  datatype Error =
    | UnsupportedVersion
    | WrongProblem
    | Negative(count: CountField)
    | SchemaVersionNotPositive
    | StartExceedsRevision
    | NotADigest(digest: DigestField)
    | MigrationsMalformed
    | CreatedAtEmpty
    | PriorStatusUnsupported
    | SchemaVersionDiffers
    | MigrationsNotAPrefix
    | PredatesCheckpoint
    | ProvenanceDiffers
    | StartRevisionDiffers
    | StartStateDiffers
    | StartEntryDiffers
    | LegacyCountDiffers
    | PriorStatusDiffers
    | BackupDiffers
    | CountInconsistent
    | PatchJournalShorter
    | RevisionNotAtPosition
    | PatchHeadNotAPrefix
    | StateHashDiffers
    | BaselinePatchHead
    | BaselineStateHash
    | EventJournalShorter
    | EventHeadNotAPrefix
    | PolicyHeadDiffers
    | EventHeadNotGenesis

  /** A payload that is well-formed for the problem. */
  predicate PayloadOk(p: Payload, problemId: string) {
    && p.version == CHECKPOINT_VERSION && p.problemId == problemId
    && p.schemaVersion >= 1 && p.proofRevision >= 0 && p.patchCount >= 0 && p.startRevision >= 0
    && p.legacyCount >= 0 && p.eventCount >= 0
    && p.startRevision <= p.proofRevision
    && IsSha256(p.patchHead) && IsSha256(p.stateHash) && IsSha256(p.startStateHash) && IsSha256(p.startEntryHash)
    && IsSha256(p.eventHead) && IsSha256(p.policyHead)
    && (p.provenance.Some? ==> IsSha256(p.provenance.value))
    && (p.backupSha == "" || IsSha256(p.backupSha))
    && StrictlyAscending(p.migrations) && (forall m | m in p.migrations :: m >= 1)
    && !Blank(p.createdAt)
    && p.priorStatus in {FromGenesis, LegacyPreV3, LegacyBackedUp}
  }

  function SafeNonnegative(v: int): int {
    if v >= 0 then v else -1
  }

  function CountOf(p: Payload, f: CountField): int {
    match f
    case SchemaVersion => p.schemaVersion
    case ProofRevision => p.proofRevision
    case PatchCount => p.patchCount
    case JournalStartRevision => p.startRevision
    case LegacyPatchCount => p.legacyCount
    case EventCount => p.eventCount
  }

  /** The digest a field must hold, if it must hold one. */
  function DigestOf(p: Payload, f: DigestField): Option<string> {
    match f
    case PatchJournalHead => Some(p.patchHead)
    case ProofStateHash => Some(p.stateHash)
    case JournalStartStateHash => Some(p.startStateHash)
    case JournalStartEntryHash => Some(p.startEntryHash)
    case EventChainHead => Some(p.eventHead)
    case PolicyEventHead => Some(p.policyHead)
    case RunProvenanceHash => p.provenance
    case MigrationBackupSha => if p.backupSha == "" then None else Some(p.backupSha)
  }

  predicate DigestWrong(p: Payload, f: DigestField) {
    DigestOf(p, f).Some? && !IsSha256(DigestOf(p, f).value)
  }

  predicate MigrationsOk(p: Payload) {
    StrictlyAscending(p.migrations) && forall m | m in p.migrations :: m >= 1
  }

  /** What can be wrong with a payload. */
  predicate PayloadWrong(p: Payload, problemId: string, e: Error) {
    || (e == UnsupportedVersion && p.version != CHECKPOINT_VERSION)
    || (e == WrongProblem && p.problemId != problemId)
    || (e.Negative? && CountOf(p, e.count) < 0)
    || (e == SchemaVersionNotPositive && p.schemaVersion < 1)
    || (e == StartExceedsRevision && SafeNonnegative(p.startRevision) > SafeNonnegative(p.proofRevision))
    || (e.NotADigest? && DigestWrong(p, e.digest))
    || (e == MigrationsMalformed && !MigrationsOk(p))
    || (e == CreatedAtEmpty && Blank(p.createdAt))
    || (e == PriorStatusUnsupported && p.priorStatus !in {FromGenesis, LegacyPreV3, LegacyBackedUp})
  }

  lemma PayloadOkIff(p: Payload, problemId: string)
    ensures PayloadOk(p, problemId) <==> forall e :: !PayloadWrong(p, problemId, e)
  {
    hide IsSha256, Blank, StrictlyAscending;
    if forall e :: !PayloadWrong(p, problemId, e) {
      assert !PayloadWrong(p, problemId, UnsupportedVersion) && !PayloadWrong(p, problemId, WrongProblem)
          && !PayloadWrong(p, problemId, SchemaVersionNotPositive) && !PayloadWrong(p, problemId, StartExceedsRevision);
      assert !PayloadWrong(p, problemId, MigrationsMalformed) && !PayloadWrong(p, problemId, CreatedAtEmpty)
          && !PayloadWrong(p, problemId, PriorStatusUnsupported);
      forall f: CountField ensures CountOf(p, f) >= 0 {
        assert !PayloadWrong(p, problemId, Negative(f));
      }
      forall f: DigestField ensures !DigestWrong(p, f) {
        assert !PayloadWrong(p, problemId, NotADigest(f));
      }
      assert CountOf(p, ProofRevision) >= 0 && CountOf(p, PatchCount) >= 0 && CountOf(p, JournalStartRevision) >= 0
          && CountOf(p, LegacyPatchCount) >= 0 && CountOf(p, EventCount) >= 0;
      assert !DigestWrong(p, PatchJournalHead) && !DigestWrong(p, ProofStateHash)
          && !DigestWrong(p, JournalStartStateHash)
          && !DigestWrong(p, JournalStartEntryHash) && !DigestWrong(p, EventChainHead)
          && !DigestWrong(p, PolicyEventHead) && !DigestWrong(p, RunProvenanceHash)
          && !DigestWrong(p, MigrationBackupSha);
    }
  }

  /** The loop over the count fields. */
  method CountErrors(p: Payload) returns (errors: seq<Error>)
    ensures forall e :: e in errors <==> e.Negative? && CountOf(p, e.count) < 0
  {
    var fields := [SchemaVersion, ProofRevision, PatchCount, JournalStartRevision, LegacyPatchCount, EventCount];
    forall f: CountField ensures f in fields {
      assert f == fields[0] || f == fields[1] || f == fields[2] || f == fields[3] || f == fields[4] || f == fields[5];
    }
    assert fields[..|fields|] == fields;
    errors := [];
    for k := 0 to |fields|
      invariant forall e :: e in errors <==> e.Negative? && e.count in fields[..k] && CountOf(p, e.count) < 0
    {
      errors := errors + If(SafeNonnegative(CountOf(p, fields[k])) < 0, Negative(fields[k]));
    }
  }

  /** The checks of the digest fields, the optional ones last. */
  method DigestErrors(p: Payload) returns (errors: seq<Error>)
    ensures forall e :: e in errors <==> e.NotADigest? && DigestWrong(p, e.digest)
  {
    var fields := [PatchJournalHead, ProofStateHash, JournalStartStateHash, JournalStartEntryHash, EventChainHead,
                   PolicyEventHead, RunProvenanceHash, MigrationBackupSha];
    forall f: DigestField ensures f in fields {
      assert f == fields[0] || f == fields[1] || f == fields[2] || f == fields[3] || f == fields[4] || f == fields[5]
          || f == fields[6] || f == fields[7];
    }
    assert fields[..|fields|] == fields;
    hide IsSha256;
    errors := [];
    for k := 0 to |fields|
      invariant forall e :: e in errors <==> e.NotADigest? && e.digest in fields[..k] && DigestWrong(p, e.digest)
    {
      errors := errors + If(DigestWrong(p, fields[k]), NotADigest(fields[k]));
    }
  }

  /** The last three checks. */
  method ClosingErrors(p: Payload) returns (errors: seq<Error>)
    ensures forall e :: e in errors <==>
      || (e == MigrationsMalformed && !MigrationsOk(p))
      || (e == CreatedAtEmpty && Blank(p.createdAt))
      || (e == PriorStatusUnsupported && p.priorStatus !in {FromGenesis, LegacyPreV3, LegacyBackedUp})
  {
    var malformed := (exists m :: m in p.migrations && SafeNonnegative(m) < 1) || !StrictlyAscending(p.migrations);
    assert malformed <==> !MigrationsOk(p);
    hide Blank, StrictlyAscending, MigrationsOk;
    errors := If(malformed, MigrationsMalformed) + If(Blank(p.createdAt), CreatedAtEmpty)
      + If(p.priorStatus !in {FromGenesis, LegacyPreV3, LegacyBackedUp}, PriorStatusUnsupported);
  }

  /** _checkpoint_payload_errors. */
  method PayloadErrors(p: Payload, problemId: string) returns (errors: seq<Error>)
    ensures errors == [] <==> PayloadOk(p, problemId)
    ensures forall e :: e in errors <==> PayloadWrong(p, problemId, e)
  {
    var counts := CountErrors(p);
    var digests := DigestErrors(p);
    var closing := ClosingErrors(p);
    PayloadOkIff(p, problemId);
    hide PayloadOk, CountOf, DigestOf, DigestWrong, Blank, MigrationsOk;
    errors := If(SafeNonnegative(p.version) != CHECKPOINT_VERSION, UnsupportedVersion)
      + If(p.problemId != problemId, WrongProblem) + counts
      + If(SafeNonnegative(p.schemaVersion) < 1, SchemaVersionNotPositive)
      + If(SafeNonnegative(p.startRevision) > SafeNonnegative(p.proofRevision), StartExceedsRevision)
      + digests + closing;
    assert forall e :: e in errors <==> PayloadWrong(p, problemId, e);
    hide PayloadWrong;
    if errors != [] {
      assert PayloadWrong(p, problemId, errors[0]);
    }
  }

  /** The patch part of the prefix check, against the audit baseline. */
  ghost predicate PatchesMatch(j: Journal, p: Payload)
    requires p.patchCount >= 0
  {
    var suffix := Later(j.patches, StartRevision(j.auditBaseline));
    && p.patchCount == p.proofRevision - p.startRevision
    && p.patchCount <= |suffix|
    && (if p.patchCount == 0 then
          p.patchHead == StartHead(j.auditBaseline) && p.stateHash == StartState(j, j.auditBaseline)
        else
          var row := suffix[p.patchCount - 1];
          && row.content.appliedRevision == p.proofRevision
          && row.hash == p.patchHead && row.content.stateHashAfter == p.stateHash)
  }

  ghost predicate EventsMatch(j: Journal, p: Payload)
    requires p.eventCount >= 0
  {
    && p.eventCount <= |j.events|
    && (if p.eventCount == 0 then p.eventHead == GENESIS_HASH
        else j.events[p.eventCount - 1].hash == p.eventHead && PolicyHead(j.events[..p.eventCount]) == p.policyHead)
  }

  ghost predicate BaselineMatches(j: Journal, p: Payload) {
    var base := j.auditBaseline;
    && p.startRevision == StartRevision(base) && p.startStateHash == StartState(j, base)
    && p.startEntryHash == StartHead(base) && p.legacyCount == LegacyCount(base)
    && p.priorStatus == PriorStatus(base) && p.backupSha == BackupSha(base)
  }

  ghost predicate SettingMatches(j: Journal, p: Payload) {
    && j.schemaVersion == p.schemaVersion && p.migrations <= j.migrations && p.proofRevision <= j.revision
    && (p.provenance.Some? && p.provenance.value != "" && p.proofRevision == j.revision
        ==> p.provenance.value == j.provenance)
  }

  ghost predicate PrefixOk(j: Journal, p: Payload)
    requires p.patchCount >= 0 && p.eventCount >= 0
  {
    SettingMatches(j, p) && BaselineMatches(j, p) && PatchesMatch(j, p) && EventsMatch(j, p)
  }

  /** The policy scan over the recorded number of events. */
  method ScanPolicyHead(events: seq<Row<EventContent>>) returns (policyHead: string)
    ensures policyHead == PolicyHead(events)
  {
    policyHead := GENESIS_HASH;
    for k := 0 to |events|
      invariant policyHead == PolicyHead(events[..k])
    {
      assert events[..k + 1][..k] == events[..k];
      if IsPolicy(events[k]) {
        policyHead := events[k].hash;
      }
    }
    assert events[..|events|] == events;
  }

  /** What can be wrong with versions, migrations, revision and provenance. */
  ghost predicate IdentityWrong(j: Journal, p: Payload, e: Error) {
    || (e == SchemaVersionDiffers && j.schemaVersion != p.schemaVersion)
    || (e == MigrationsNotAPrefix && !(p.migrations <= j.migrations))
    || (e == PredatesCheckpoint && j.revision < p.proofRevision)
    || (e == ProvenanceDiffers && p.provenance.Some? && p.provenance.value != "" && p.proofRevision == j.revision
        && p.provenance.value != j.provenance)
  }

  /** What can differ from the current baseline. */
  ghost predicate BaselineWrong(j: Journal, p: Payload, e: Error) {
    var base := j.auditBaseline;
    || (e == StartRevisionDiffers && p.startRevision != StartRevision(base))
    || (e == StartStateDiffers && p.startStateHash != StartState(j, base))
    || (e == StartEntryDiffers && p.startEntryHash != StartHead(base))
    || (e == LegacyCountDiffers && p.legacyCount != LegacyCount(base))
    || (e == PriorStatusDiffers && p.priorStatus != PriorStatus(base))
    || (e == BackupDiffers && p.backupSha != BackupSha(base))
  }

  ghost predicate SettingWrong(j: Journal, p: Payload, e: Error) {
    IdentityWrong(j, p, e) || BaselineWrong(j, p, e)
  }

  ghost predicate PatchesWrong(j: Journal, p: Payload, e: Error)
    requires p.patchCount >= 0
  {
    var suffix := Later(j.patches, StartRevision(j.auditBaseline));
    var recorded := 0 < p.patchCount <= |suffix|;
    || (e == CountInconsistent && p.patchCount != p.proofRevision - p.startRevision)
    || (e == PatchJournalShorter && |suffix| < p.patchCount)
    || (e == RevisionNotAtPosition && recorded && suffix[p.patchCount - 1].content.appliedRevision != p.proofRevision)
    || (e == PatchHeadNotAPrefix && recorded && suffix[p.patchCount - 1].hash != p.patchHead)
    || (e == StateHashDiffers && recorded && suffix[p.patchCount - 1].content.stateHashAfter != p.stateHash)
    || (e == BaselinePatchHead && p.patchCount == 0 && p.patchHead != StartHead(j.auditBaseline))
    || (e == BaselineStateHash && p.patchCount == 0 && p.stateHash != StartState(j, j.auditBaseline))
  }

  ghost predicate EventsWrong(j: Journal, p: Payload, e: Error)
    requires p.eventCount >= 0
  {
    var recorded := 0 < p.eventCount <= |j.events|;
    || (e == EventJournalShorter && |j.events| < p.eventCount)
    || (e == EventHeadNotAPrefix && recorded && j.events[p.eventCount - 1].hash != p.eventHead)
    || (e == PolicyHeadDiffers && recorded && PolicyHead(j.events[..p.eventCount]) != p.policyHead)
    || (e == EventHeadNotGenesis && p.eventCount == 0 && p.eventHead != GENESIS_HASH)
  }

  ghost predicate PrefixWrong(j: Journal, p: Payload, e: Error)
    requires p.patchCount >= 0 && p.eventCount >= 0
  {
    SettingWrong(j, p, e) || PatchesWrong(j, p, e) || EventsWrong(j, p, e)
  }

  lemma SettingOkIff(j: Journal, p: Payload)
    ensures SettingMatches(j, p) && BaselineMatches(j, p) <==> forall e :: !SettingWrong(j, p, e)
  {
    hide StartState, StartHead;
    if forall e :: !SettingWrong(j, p, e) {
      assert !SettingWrong(j, p, SchemaVersionDiffers) && !SettingWrong(j, p, MigrationsNotAPrefix)
          && !SettingWrong(j, p, PredatesCheckpoint) && !SettingWrong(j, p, ProvenanceDiffers);
      assert !SettingWrong(j, p, StartRevisionDiffers) && !SettingWrong(j, p, StartStateDiffers)
          && !SettingWrong(j, p, StartEntryDiffers) && !SettingWrong(j, p, LegacyCountDiffers)
          && !SettingWrong(j, p, PriorStatusDiffers) && !SettingWrong(j, p, BackupDiffers);
    }
  }

  lemma PatchesOkIff(j: Journal, p: Payload)
    requires p.patchCount >= 0
    ensures PatchesMatch(j, p) <==> forall e :: !PatchesWrong(j, p, e)
  {
    hide StartState, StartHead, Later;
    if forall e :: !PatchesWrong(j, p, e) {
      assert !PatchesWrong(j, p, CountInconsistent) && !PatchesWrong(j, p, PatchJournalShorter);
      assert !PatchesWrong(j, p, RevisionNotAtPosition) && !PatchesWrong(j, p, PatchHeadNotAPrefix)
          && !PatchesWrong(j, p, StateHashDiffers);
      assert !PatchesWrong(j, p, BaselinePatchHead) && !PatchesWrong(j, p, BaselineStateHash);
    }
  }

  lemma EventsOkIff(j: Journal, p: Payload)
    requires p.eventCount >= 0
    ensures EventsMatch(j, p) <==> forall e :: !EventsWrong(j, p, e)
  {
    hide PolicyHead;
    if forall e :: !EventsWrong(j, p, e) {
      assert !EventsWrong(j, p, EventJournalShorter) && !EventsWrong(j, p, EventHeadNotAPrefix)
          && !EventsWrong(j, p, PolicyHeadDiffers) && !EventsWrong(j, p, EventHeadNotGenesis);
    }
  }

  lemma PrefixOkIff(j: Journal, p: Payload)
    requires p.patchCount >= 0 && p.eventCount >= 0
    ensures PrefixOk(j, p) <==> forall e :: !PrefixWrong(j, p, e)
  {
    SettingOkIff(j, p);
    PatchesOkIff(j, p);
    EventsOkIff(j, p);
    hide SettingWrong, PatchesWrong, EventsWrong, SettingMatches, BaselineMatches, PatchesMatch, EventsMatch;
    if forall e :: !PrefixWrong(j, p, e) {
      forall e ensures !SettingWrong(j, p, e) && !PatchesWrong(j, p, e) && !EventsWrong(j, p, e) {
        assert !PrefixWrong(j, p, e);
      }
    }
  }

  method IdentityErrors(j: Journal, p: Payload) returns (errors: seq<Error>)
    ensures forall e :: e in errors <==> IdentityWrong(j, p, e)
  {
    var shown := if |p.migrations| <= |j.migrations| then j.migrations[..|p.migrations|] else j.migrations;
    assert shown != p.migrations <==> !(p.migrations <= j.migrations);
    errors := If(j.schemaVersion != p.schemaVersion, SchemaVersionDiffers)
      + If(shown != p.migrations, MigrationsNotAPrefix) + If(j.revision < p.proofRevision, PredatesCheckpoint)
      + If(p.provenance.Some? && p.provenance.value != "" && p.proofRevision == j.revision
           && p.provenance.value != j.provenance, ProvenanceDiffers);
  }

  method BaselineErrors(j: Journal, p: Payload) returns (errors: seq<Error>)
    ensures forall e :: e in errors <==> BaselineWrong(j, p, e)
  {
    hide StartState, StartHead, StartRevision, LegacyCount, PriorStatus, BackupSha;
    var base := j.auditBaseline;
    errors := If(p.startRevision != StartRevision(base), StartRevisionDiffers)
      + If(p.startStateHash != StartState(j, base), StartStateDiffers)
      + If(p.startEntryHash != StartHead(base), StartEntryDiffers)
      + If(p.legacyCount != LegacyCount(base), LegacyCountDiffers)
      + If(p.priorStatus != PriorStatus(base), PriorStatusDiffers)
      + If(p.backupSha != BackupSha(base), BackupDiffers);
  }

  method PatchErrors(j: Journal, p: Payload) returns (errors: seq<Error>)
    requires p.patchCount >= 0
    ensures forall e :: e in errors <==> PatchesWrong(j, p, e)
  {
    hide StartState, StartHead, Later;
    var suffix := Later(j.patches, StartRevision(j.auditBaseline));
    errors := If(p.patchCount != p.proofRevision - p.startRevision, CountInconsistent);
    if |suffix| < p.patchCount {
      errors := errors + [PatchJournalShorter];
    } else if p.patchCount != 0 {
      var row := suffix[p.patchCount - 1];
      errors := errors + If(row.content.appliedRevision != p.proofRevision, RevisionNotAtPosition)
        + If(row.hash != p.patchHead, PatchHeadNotAPrefix)
        + If(row.content.stateHashAfter != p.stateHash, StateHashDiffers);
    } else {
      errors := errors + If(p.patchHead != StartHead(j.auditBaseline), BaselinePatchHead)
        + If(p.stateHash != StartState(j, j.auditBaseline), BaselineStateHash);
    }
  }

  method EventErrors(j: Journal, p: Payload) returns (errors: seq<Error>)
    requires p.eventCount >= 0
    ensures forall e :: e in errors <==> EventsWrong(j, p, e)
  {
    hide PolicyHead, IsPolicy;
    if |j.events| < p.eventCount {
      errors := [EventJournalShorter];
    } else if p.eventCount != 0 {
      var prefix := j.events[..p.eventCount];
      var policyHead := ScanPolicyHead(prefix);
      errors := If(prefix[p.eventCount - 1].hash != p.eventHead, EventHeadNotAPrefix)
        + If(policyHead != p.policyHead, PolicyHeadDiffers);
    } else {
      errors := If(p.eventHead != GENESIS_HASH, EventHeadNotGenesis);
    }
  }

  /** _checkpoint_prefix_errors, on a payload whose counts are nonnegative. */
  method PrefixErrors(j: Journal, p: Payload) returns (errors: seq<Error>)
    requires p.patchCount >= 0 && p.eventCount >= 0
    ensures errors == [] <==> PrefixOk(j, p)
    ensures forall e :: e in errors <==> PrefixWrong(j, p, e)
  {
    var identity := IdentityErrors(j, p);
    var baseline := BaselineErrors(j, p);
    var patches := PatchErrors(j, p);
    var events := EventErrors(j, p);
    PrefixOkIff(j, p);
    hide IdentityWrong, BaselineWrong, PatchesWrong, EventsWrong, PrefixOk;
    errors := identity + baseline + patches + events;
    if errors != [] {
      assert PrefixWrong(j, p, errors[0]);
    }
  }

  /** The document check of verify_signed_audit_checkpoint, signature and current replay aside. */
  ghost predicate Accepts(j: Journal, p: Payload) {
    PayloadOk(p, j.problemId) && PrefixOk(j, p)
  }

  /** Prefix errors are looked for only in a well-formed payload. */
  method VerifyPayload(j: Journal, p: Payload) returns (errors: seq<Error>)
    ensures errors == [] <==> Accepts(j, p)
    ensures forall e :: e in errors <==>
      if PayloadOk(p, j.problemId) then PrefixWrong(j, p, e) else PayloadWrong(p, j.problemId, e)
  {
    hide PayloadWrong, PrefixWrong, PrefixOk;
    errors := PayloadErrors(p, j.problemId);
    if errors == [] {
      errors := PrefixErrors(j, p);
    }
  }
}
