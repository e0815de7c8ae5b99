/** The journal tables restated row by row: the order of the chained patches, the links the migration
    writes, the policy events, and the part of the journal a baseline leaves to replay. */
module JournalLaws {
  import opened Ordering
  import opened AuditChain
  import opened Checkpoint
  import opened Text
  import opened Wrappers

  /** Sixty-four zeros. */
  predicate IsGenesis(s: string) {
    |s| == 64 && forall i | 0 <= i < 64 :: s[i] == '0'
  }

  lemma GenesisOnText()
    ensures IsGenesis(GENESIS_HASH)
  {
  }

  /** The chained patches are the applied ones, by applied revision, and within one revision by the text of
      their identifier. */
  lemma AppliedOnRows(patches: map<string, Row<PatchContent>>)
    ensures forall id :: id in AppliedOrder(patches) <==> id in patches && patches[id].content.status == "applied"
    ensures var ids := AppliedOrder(patches);
      forall i, j | 0 <= i < j < |ids| ::
        && ids[i] != ids[j]
        && (|| patches[ids[i]].content.appliedRevision < patches[ids[j]].content.appliedRevision
            || (patches[ids[i]].content.appliedRevision == patches[ids[j]].content.appliedRevision
                && TextBefore(ids[i], ids[j])))
  {
    var ids := AppliedOrder(patches);
    forall id ensures id in ids <==> id in patches && patches[id].content.status == "applied" {
      assert id in ids <==> id in Elements(ids);
    }
    forall i, j | 0 <= i < j < |ids|
      ensures ids[i] != ids[j]
      ensures || patches[ids[i]].content.appliedRevision < patches[ids[j]].content.appliedRevision
              || (patches[ids[i]].content.appliedRevision == patches[ids[j]].content.appliedRevision
                  && TextBefore(ids[i], ids[j]))
    {
      assert PatchLeq(patches)(ids[i], ids[j]);
      IdLeqOnText(ids[i], ids[j]);
    }
  }

  /** What the migration writes, row by row: the first row of the order names the genesis hash as its
      predecessor and every other the hash of the row before it, each hash is the recomputed one, and no
      content and no other row changes. */
  lemma BackfilledRows<K, C>(h: EntryHash<C>, before: map<K, Row<C>>, after: map<K, Row<C>>, order: seq<K>)
    requires (forall id | id in order :: id in before) && Chained(h, before, after, order)
    ensures after.Keys == before.Keys
    ensures forall i | 0 <= i < |order| ::
      var row := after[order[i]];
      && row.content == before[order[i]].content && row.hash == h(row.content, row.previous)
      && if i == 0 then IsGenesis(row.previous) else row.previous == after[order[i - 1]].hash
    ensures forall id | id in before && id !in order :: after[id] == before[id]
  {
    var rows := RowsAt(after, order);
    forall i | 0 <= i < |order|
      ensures after[order[i]].hash == h(after[order[i]].content, after[order[i]].previous)
      ensures if i == 0 then IsGenesis(after[order[i]].previous)
              else after[order[i]].previous == after[order[i - 1]].hash
    {
      assert rows[i].previous == Head(GENESIS_HASH, rows[..i]);
      assert i > 0 ==> rows[..i][i - 1] == rows[i - 1];
    }
  }

  /** The events that advance the policy head. */
  predicate HasPolicyType(e: Row<EventContent>) {
    || e.content.eventType == "completion_policy"
    || e.content.eventType == "parallel_branch_mode"
    || e.content.eventType == "root_intent_resolution"
    || e.content.eventType == "operator_steering"
    || e.content.eventType == "run_control_policy"
  }

  lemma PolicyOnRows(e: Row<EventContent>)
    ensures IsPolicy(e) <==> HasPolicyType(e)
  {
  }

  /** The policy head is the hash of the last event of such a type, or the genesis hash. */
  lemma PolicyHeadOnRows(events: seq<Row<EventContent>>)
    ensures (forall i | 0 <= i < |events| :: !HasPolicyType(events[i])) ==> IsGenesis(PolicyHead(events))
    ensures forall i | 0 <= i < |events| && HasPolicyType(events[i])
                       && (forall j | i < j < |events| :: !HasPolicyType(events[j])) ::
      PolicyHead(events) == events[i].hash
  {
    hide IsPolicy, HasPolicyType, PolicyHead, IsGenesis;
    GenesisOnText();
    PolicyHeadIsLast(events);
    forall i | 0 <= i < |events| ensures IsPolicy(events[i]) <==> HasPolicyType(events[i]) {
      PolicyOnRows(events[i]);
    }
  }

  /** A baseline splits the patches by their applied revision and keeps their order on both sides. */
  lemma {:induction false} SplitOnRows(a: seq<Row<PatchContent>>, b: seq<Row<PatchContent>>, revision: int)
    ensures Later(a + b, revision) == Later(a, revision) + Later(b, revision)
    ensures Earlier(a + b, revision) == Earlier(a, revision) + Earlier(b, revision)
    decreases |b|
  {
    if b == [] {
      assert a + b == a;
      assert Later(b, revision) == [] && Earlier(b, revision) == [];
    } else {
      var n := |b| - 1;
      assert (a + b)[..|a + b| - 1] == a + b[..n] && (a + b)[|a + b| - 1] == b[n];
      SplitOnRows(a, b[..n], revision);
    }
  }

  lemma SplitOneRow(r: Row<PatchContent>, revision: int)
    ensures Later([r], revision) == if revision < r.content.appliedRevision then [r] else []
    ensures Earlier([r], revision) == if revision < r.content.appliedRevision then [] else [r]
  {
    assert Later([], revision) == [] && Earlier([], revision) == [];
    assert [r][..0] == [];
  }

  lemma {:induction false} LaterFirst(rows: seq<Row<PatchContent>>, revision: int, i: nat)
    requires i < |rows| && rows[i].content.appliedRevision > revision
    requires forall j | 0 <= j < i :: rows[j].content.appliedRevision <= revision
    ensures Later(rows, revision) != [] && Later(rows, revision)[0] == rows[i]
    decreases |rows|
  {
    var init := rows[..|rows| - 1];
    if i < |init| {
      LaterFirst(init, revision, i);
    } else {
      NoneLater(init, revision);
    }
  }

  lemma {:induction false} NoneLater(rows: seq<Row<PatchContent>>, revision: int)
    requires forall j | 0 <= j < |rows| :: rows[j].content.appliedRevision <= revision
    ensures Later(rows, revision) == []
  {
    if rows != [] {
      NoneLater(rows[..|rows| - 1], revision);
    }
  }

  /** Where replay and checkpoints start, without a baseline and with one. */
  lemma StartOnBaseline(b: Option<Baseline>)
    ensures StartRevision(b) == if b.Some? then b.value.revision else 0
    ensures b.Some? && b.value.patchHead != "" ==> StartHead(b) == b.value.patchHead
    ensures b.None? || b.value.patchHead == "" ==> IsGenesis(StartHead(b))
    ensures LegacyCount(b) == if b.Some? then b.value.legacyCount else 0
    ensures BackupSha(b) == if b.Some? then b.value.backupSha else ""
    ensures PriorStatus(b) == if b.Some? then b.value.priorStatus else FromGenesis
  {
    GenesisOnText();
    hide IsGenesis;
  }

  /** The row is the first of the patches that is later than the revision. */
  predicate FirstLater(rows: seq<Row<PatchContent>>, revision: int, i: int) {
    && 0 <= i < |rows| && rows[i].content.appliedRevision > revision
    && forall k | 0 <= k < i :: rows[k].content.appliedRevision <= revision
  }

  /** The state that the replayed part starts from: the recorded one, or else that before the first patch later
      than the baseline, or with no such patch the current one. */
  lemma StartStateOnRows(j: Journal, b: Option<Baseline>)
    ensures b.Some? && b.value.stateHash != "" ==> StartState(j, b) == b.value.stateHash
    ensures var start := if b.Some? then b.value.revision else 0;
      b.None? || b.value.stateHash == "" ==>
        && ((forall i | 0 <= i < |j.patches| :: j.patches[i].content.appliedRevision <= start) ==>
              StartState(j, b) == j.stateHash)
        && forall i | FirstLater(j.patches, start, i) :: StartState(j, b) == j.patches[i].content.stateHashBefore
  {
    var start := StartRevision(b);
    if forall i | 0 <= i < |j.patches| :: j.patches[i].content.appliedRevision <= start {
      NoneLater(j.patches, start);
    }
    forall i | FirstLater(j.patches, start, i)
      ensures Later(j.patches, start) != [] && Later(j.patches, start)[0] == j.patches[i]
    {
      LaterFirst(j.patches, start, i);
    }
    hide Later, FirstLater;
  }

  /** A digest: sixty-four hexadecimal digits. */
  predicate IsDigest(s: string) {
    |s| == 64 && forall i | 0 <= i < 64 :: '0' <= s[i] <= '9' || 'a' <= s[i] <= 'f' || 'A' <= s[i] <= 'F'
  }

  lemma DigestOnText(s: string)
    ensures IsSha256(s) <==> IsDigest(s)
  {
    if IsDigest(s) {
      forall c | c in s ensures IsHex(c) {
        var i :| 0 <= i < |s| && s[i] == c;
      }
    }
    if IsSha256(s) {
      forall i | 0 <= i < 64 ensures '0' <= s[i] <= '9' || 'a' <= s[i] <= 'f' || 'A' <= s[i] <= 'F' {
        assert s[i] in s;
      }
    }
  }

  /** A well-formed payload, on its fields. */
  lemma PayloadOnFields(p: Payload, problemId: string)
    ensures PayloadOk(p, problemId) <==>
      && p.version == 2 && p.problemId == problemId
      && p.schemaVersion > 0 && p.patchCount >= 0 && p.legacyCount >= 0 && p.eventCount >= 0
      && 0 <= p.startRevision <= p.proofRevision
      && IsDigest(p.patchHead) && IsDigest(p.stateHash) && IsDigest(p.startStateHash) && IsDigest(p.startEntryHash)
      && IsDigest(p.eventHead) && IsDigest(p.policyHead)
      && (p.provenance == None || IsDigest(p.provenance.value)) && (p.backupSha == "" || IsDigest(p.backupSha))
      && Increasing(p.migrations)
      && (exists i :: 0 <= i < |p.createdAt| && !IsSpace(p.createdAt[i]))
      && (p.priorStatus == FromGenesis || p.priorStatus == LegacyPreV3 || p.priorStatus == LegacyBackedUp)
  {
    forall d ensures IsSha256(d) <==> IsDigest(d) {
      DigestOnText(d);
    }
    MigrationsOnFields(p.migrations);
    NonblankOnText(p.createdAt);
    hide IsSha256, IsDigest, Blank, StrictlyAscending, IsSpace;
  }

  lemma NonblankOnText(s: string)
    ensures Blank(s) <==> !exists i :: 0 <= i < |s| && !IsSpace(s[i])
  {
    hide IsSpace;
    if !Blank(s) {
      var c :| c in s && !IsSpace(c);
      var i :| 0 <= i < |s| && s[i] == c;
    }
  }

  /** From a positive number on, each is greater than the one before it. */
  predicate Increasing(ms: seq<int>) {
    (ms != [] ==> ms[0] > 0) && forall i | 0 < i < |ms| :: ms[i - 1] < ms[i]
  }

  lemma MigrationsOnFields(ms: seq<int>)
    ensures StrictlyAscending(ms) && (forall m | m in ms :: m >= 1) <==> Increasing(ms)
  {
    if Increasing(ms) {
      forall i, j | 0 <= i < j < |ms| ensures ms[i] < ms[j] {
        Ascends(ms, i, j);
      }
    }
    if ms != [] && ms[0] > 0 && StrictlyAscending(ms) {
      forall m | m in ms ensures m >= 1 {
        var i :| 0 <= i < |ms| && ms[i] == m;
        assert i > 0 ==> ms[0] < ms[i];
      }
    }
    if ms != [] {
      assert ms[0] in ms;
    }
  }

  lemma {:induction false} Ascends(ms: seq<int>, i: nat, j: nat)
    requires i < j < |ms| && Increasing(ms)
    ensures ms[i] < ms[j]
    decreases j
  {
    if i < j - 1 {
      Ascends(ms, i, j - 1);
    }
  }
}
