/** Journals at which a checkpoint is refused, or accepted only because hashes collide. */
module CheckpointExamples {
  import opened AuditChain
  import opened Checkpoint
  import opened CheckpointRuns
  import Text
  import opened Wrappers

  const EIGHT_ONES: string := "11111111"

  const ONES: string :=
    EIGHT_ONES + EIGHT_ONES + EIGHT_ONES + EIGHT_ONES + EIGHT_ONES + EIGHT_ONES + EIGHT_ONES + EIGHT_ONES

  /** A digest-valued hash that makes every two entries collide. */
  function ConstantHash<C>(): EntryHash<C> {
    (c, p) => GENESIS_HASH
  }

  lemma ConstantIsDigestValued()
    ensures DigestValued(ConstantHash(), ConstantHash()) && IsSha256(GENESIS_HASH) && IsSha256(ONES)
  {
    GenesisIsDigest();
  }

  const NATIVE_STORE :=
    Journal("problem", 15, 0, [], [], [1], None, None, GENESIS_HASH, GENESIS_HASH)

  const PROJECTION := Baseline(0, GENESIS_HASH, GENESIS_HASH, 0, PreV15Projection, GENESIS_HASH)

  const MIGRATED_STORE := NATIVE_STORE.(projectionBaseline := Some(PROJECTION))

  lemma StoresAreReplayable()
    ensures Replayable(ConstantHash(), ConstantHash(), NATIVE_STORE)
    ensures Replayable(ConstantHash(), ConstantHash(), MIGRATED_STORE)
  {
    ConstantIsDigestValued();
    hide IsSha256;
    assert GENESIS_HASH != "";
  }

  /** A store with a projection baseline refuses its own checkpoint, in the state it was taken in;
      the same store without that baseline accepts its own. */
  lemma ProjectionBaselineRefused(createdAt: string)
    requires !Text.Blank(createdAt)
    ensures Replayable(ConstantHash(), ConstantHash(), MIGRATED_STORE)
    ensures !Accepts(MIGRATED_STORE, PayloadOf(MIGRATED_STORE, createdAt))
    ensures PayloadWrong(PayloadOf(MIGRATED_STORE, createdAt), MIGRATED_STORE.problemId, PriorStatusUnsupported)
    ensures Accepts(NATIVE_STORE, PayloadOf(NATIVE_STORE, createdAt))
  {
    ConstantIsDigestValued();
    StoresAreReplayable();
    FreshPayload(ConstantHash(), ConstantHash(), MIGRATED_STORE, createdAt);
    NativeStoreAccepts(createdAt);
    hide Replayable, DigestValued, PayloadOk, PrefixOk, IsSha256;
  }

  lemma NativeStoreAccepts(createdAt: string)
    requires !Text.Blank(createdAt)
    ensures Accepts(NATIVE_STORE, PayloadOf(NATIVE_STORE, createdAt))
  {
    ConstantIsDigestValued();
    StoresAreReplayable();
    assert Extends(NATIVE_STORE, NATIVE_STORE);
    AcceptsExactlyExtensions(ConstantHash(), ConstantHash(), NATIVE_STORE, NATIVE_STORE, createdAt);
  }

  /** One step that rewrites the run-selection rows, and the checkpoint taken just before it is
      refused. */
  lemma ProvenanceStepRefused(createdAt: string)
    requires !Text.Blank(createdAt)
    ensures Allowed(NATIVE_STORE, RecordRuns(ONES))
    ensures Accepts(NATIVE_STORE, PayloadOf(NATIVE_STORE, createdAt))
    ensures var hp, he := ConstantHash<PatchContent>(), ConstantHash<EventContent>();
            !Accepts(Next(hp, he, NATIVE_STORE, RecordRuns(ONES)), PayloadOf(NATIVE_STORE, createdAt))
  {
    ConstantIsDigestValued();
    StoresAreReplayable();
    NativeStoreAccepts(createdAt);
    var hp, he := ConstantHash<PatchContent>(), ConstantHash<EventContent>();
    var steps := [RecordRuns(ONES)];
    var now := Next(hp, he, NATIVE_STORE, steps[0]);
    assert steps[1..] == [] && Run(hp, he, NATIVE_STORE, steps) == now;
    assert ONES[0] != GENESIS_HASH[0];
    CheckpointStaysValid(hp, he, NATIVE_STORE, steps, createdAt);
  }

  function OneEvent(payload: string): Journal {
    NATIVE_STORE.(events := [Row(EventContent(1, 0, "note", payload, "now"), GENESIS_HASH, GENESIS_HASH)])
  }

  /** Under a colliding hash a checkpoint accepts a journal whose event was rewritten: the collision
      in the tamper-evidence theorem cannot be left out. */
  lemma CollisionsFool(createdAt: string)
    requires !Text.Blank(createdAt)
    ensures var j0, j := OneEvent("as recorded"), OneEvent("rewritten");
            && Replayable(ConstantHash(), ConstantHash(), j0) && Replayable(ConstantHash(), ConstantHash(), j)
            && Accepts(j, PayloadOf(j0, createdAt)) && !Extends(j0, j)
  {
    var j0, j := OneEvent("as recorded"), OneEvent("rewritten");
    ConstantIsDigestValued();
    StoresAreReplayable();
    SamePatchesReplayable(ConstantHash(), ConstantHash(), NATIVE_STORE, j0);
    SamePatchesReplayable(ConstantHash(), ConstantHash(), NATIVE_STORE, j);
    FreshPayload(ConstantHash(), ConstantHash(), j0, createdAt);
    EventsMatchFresh(j0, j, createdAt);
    BaselineDetermined(ConstantHash(), ConstantHash(), j0, j, createdAt);
    PatchesDetermined(ConstantHash(), ConstantHash(), j0, j, createdAt);
    assert "as recorded"[0] != "rewritten"[0];
    assert j0.events[0] != j.events[0];
    hide Replayable, PayloadOk, DigestValued, IsSha256, PatchesMatch, EventsMatch, BaselineMatches;
  }
}
