/** Which journals a checkpoint accepts, and for how long it stays valid. */
module CheckpointRuns {
  import opened AuditChain
  import opened Checkpoint
  import opened Text
  import opened Wrappers

  /** The journal `j` continues the journal `j0`. */
  ghost predicate Extends(j0: Journal, j: Journal) {
    var start := StartRevision(j0.auditBaseline);
    && j.problemId == j0.problemId && j.schemaVersion == j0.schemaVersion
    && j.auditBaseline == j0.auditBaseline
    && j0.migrations <= j.migrations && j0.revision <= j.revision
    && Later(j0.patches, start) <= Later(j.patches, start)
    && StartState(j, j.auditBaseline) == StartState(j0, j0.auditBaseline)
    && j0.events <= j.events
    && (j.revision == j0.revision ==> j.provenance == j0.provenance)
  }

  lemma GenesisIsDigest()
    ensures IsSha256(GENESIS_HASH)
  {
  }

  lemma HeadIsDigest<C>(h: EntryHash<C>, start: string, rows: seq<Row<C>>)
    requires IsSha256(start) && Linked(h, start, rows)
    requires forall c, p :: IsSha256(h(c, p))
    ensures IsSha256(Head(start, rows))
  {
    if rows != [] {
      var last := rows[|rows| - 1];
      assert last.hash == h(last.content, last.previous);
    }
  }

  lemma {:induction false} PolicyHeadIsDigest(he: EntryHash<EventContent>, events: seq<Row<EventContent>>)
    requires Linked(he, GENESIS_HASH, events)
    requires forall c, p :: IsSha256(he(c, p))
    ensures IsSha256(PolicyHead(events))
  {
    GenesisIsDigest();
    if events != [] {
      var last := events[|events| - 1];
      assert last.hash == he(last.content, last.previous);
      LinkedPrefix(he, GENESIS_HASH, events, |events| - 1);
      PolicyHeadIsDigest(he, events[..|events| - 1]);
    }
  }

  lemma DigestNonempty(s: string)
    requires IsSha256(s)
    ensures s != ""
  {
  }

  /** A fresh payload is well-formed unless replay started from a projection baseline: that
      baseline's prior status is not among the supported ones. */
  lemma FreshPayload(hp: EntryHash<PatchContent>, he: EntryHash<EventContent>, j: Journal, createdAt: string)
    requires DigestValued(hp, he) && Replayable(hp, he, j) && !Blank(createdAt)
    ensures PayloadOk(PayloadOf(j, createdAt), j.problemId) <==> j.projectionBaseline.None?
  {
    var base := Effective(j);
    GenesisIsDigest();
    HeadIsDigest(hp, StartHead(base), Later(j.patches, StartRevision(base)));
    HeadIsDigest(he, GENESIS_HASH, j.events);
    PolicyHeadIsDigest(he, j.events);
  }

  /** Linked rows that agree on the hash at one position agree up to it. */
  lemma AgreeUpTo<C>(h: EntryHash<C>, start: string, a: seq<Row<C>>, b: seq<Row<C>>)
    requires NoCollision(h, a, b) && Linked(h, start, a) && Linked(h, start, b)
    requires 0 < |a| <= |b| && b[|a| - 1].hash == a[|a| - 1].hash
    ensures a <= b
  {
    LinkedPrefix(h, start, b, |a|);
    SameHeadSameJournal(h, start, a, b[..|a|]);
  }

  lemma BaselineDetermined(hp: EntryHash<PatchContent>, he: EntryHash<EventContent>, j0: Journal, j: Journal,
                           createdAt: string)
    requires Replayable(hp, he, j0) && Replayable(hp, he, j)
    requires j0.projectionBaseline.None? && j.projectionBaseline.None?
    ensures BaselineMatches(j, PayloadOf(j0, createdAt)) <==>
      j.auditBaseline == j0.auditBaseline && StartState(j, j.auditBaseline) == StartState(j0, j0.auditBaseline)
  {
  }

  lemma ReplayableSuffix(hp: EntryHash<PatchContent>, he: EntryHash<EventContent>, j: Journal)
    requires Replayable(hp, he, j) && j.projectionBaseline.None?
    ensures var base := j.auditBaseline; var suffix := Later(j.patches, StartRevision(base));
            && Linked(hp, StartHead(base), suffix) && |suffix| == j.revision - StartRevision(base)
            && (if suffix == [] then StartState(j, base) == j.stateHash
                else suffix[|suffix| - 1].content.stateHashAfter == j.stateHash
                     && suffix[|suffix| - 1].content.appliedRevision == j.revision)
  {
    hide IsSha256, Earlier, Later, StartState, Linked;
  }

  /** The patch check of a fresh payload, in terms of the two suffixes. */
  lemma PatchesMatchFresh(j0: Journal, j: Journal, createdAt: string)
    requires j0.projectionBaseline.None? && j.auditBaseline == j0.auditBaseline
    ensures var base := j0.auditBaseline;
            var s0, s := Later(j0.patches, StartRevision(base)), Later(j.patches, StartRevision(base));
            PatchesMatch(j, PayloadOf(j0, createdAt))
            <==>
            && |s0| == j0.revision - StartRevision(base) && |s0| <= |s|
            && (if s0 == [] then j0.stateHash == StartState(j, base)
                else
                  var row := s[|s0| - 1];
                  row.content.appliedRevision == j0.revision && row.hash == s0[|s0| - 1].hash
                  && row.content.stateHashAfter == j0.stateHash)
  {
    hide Later, StartState, StartHead, StartRevision, LegacyCount, PriorStatus, BackupSha, PolicyHead, Earlier;
  }

  /** The patch check accepts every continuation, and without collisions nothing else. */
  lemma PatchesDetermined(hp: EntryHash<PatchContent>, he: EntryHash<EventContent>, j0: Journal, j: Journal,
                          createdAt: string)
    requires Replayable(hp, he, j0) && Replayable(hp, he, j)
    requires j0.projectionBaseline.None? && j.projectionBaseline.None?
    requires j.auditBaseline == j0.auditBaseline && StartState(j, j.auditBaseline) == StartState(j0, j0.auditBaseline)
    ensures var start := StartRevision(j0.auditBaseline);
            var s0, s := Later(j0.patches, start), Later(j.patches, start);
            && (s0 <= s ==> PatchesMatch(j, PayloadOf(j0, createdAt)))
            && (PatchesMatch(j, PayloadOf(j0, createdAt)) && NoCollision(hp, s0, s) ==> s0 <= s)
  {
    var base := j0.auditBaseline;
    var s0, s := Later(j0.patches, StartRevision(base)), Later(j.patches, StartRevision(base));
    hide *;
    ReplayableSuffix(hp, he, j0);
    ReplayableSuffix(hp, he, j);
    PatchesMatchFresh(j0, j, createdAt);
    if s0 != [] && |s0| <= |s| && s[|s0| - 1].hash == s0[|s0| - 1].hash && NoCollision(hp, s0, s) {
      AgreeUpTo(hp, StartHead(base), s0, s);
    }
    if s0 != [] && s0 <= s {
      assert s[|s0| - 1] == s0[|s0| - 1];
    }
  }

  /** The event check of a fresh payload. */
  lemma EventsMatchFresh(j0: Journal, j: Journal, createdAt: string)
    ensures EventsMatch(j, PayloadOf(j0, createdAt))
       <==> |j0.events| <= |j.events|
            && (j0.events == [] || (j.events[|j0.events| - 1].hash == j0.events[|j0.events| - 1].hash
                                    && PolicyHead(j.events[..|j0.events|]) == PolicyHead(j0.events)))
  {
    hide Later, StartState, StartHead, StartRevision, LegacyCount, PriorStatus, BackupSha, PolicyHead, Earlier;
  }

  lemma ReplayableEvents(hp: EntryHash<PatchContent>, he: EntryHash<EventContent>, j: Journal)
    requires Replayable(hp, he, j)
    ensures Linked(he, GENESIS_HASH, j.events)
  {
    hide IsSha256, Earlier, Later, StartState, StatesMeet, Linked, StartHead, StartRevision, Effective, Head;
  }

  /** So does the event check. */
  lemma EventsDetermined(hp: EntryHash<PatchContent>, he: EntryHash<EventContent>, j0: Journal, j: Journal,
                         createdAt: string)
    requires Replayable(hp, he, j0) && Replayable(hp, he, j)
    ensures j0.events <= j.events ==> EventsMatch(j, PayloadOf(j0, createdAt))
    ensures EventsMatch(j, PayloadOf(j0, createdAt)) && NoCollision(he, j0.events, j.events) ==> j0.events <= j.events
  {
    hide *;
    ReplayableEvents(hp, he, j0);
    ReplayableEvents(hp, he, j);
    EventsMatchFresh(j0, j, createdAt);
    var e0, e := j0.events, j.events;
    if e0 != [] && |e0| <= |e| && e[|e0| - 1].hash == e0[|e0| - 1].hash && NoCollision(he, e0, e) {
      AgreeUpTo(he, GENESIS_HASH, e0, e);
    }
    if e0 != [] && e0 <= e {
      assert e[..|e0|] == e0 && e[|e0| - 1] == e0[|e0| - 1];
    }
  }

  lemma {:induction false} LaterAmong(rows: seq<Row<PatchContent>>, revision: int)
    ensures forall r | r in Later(rows, revision) :: r in rows
  {
    if rows != [] {
      LaterAmong(rows[..|rows| - 1], revision);
      assert forall r | r in rows[..|rows| - 1] :: r in rows;
    }
  }

  /** Tamper evidence and permanence: among replayable journals without a projection baseline, a
      checkpoint accepts every continuation of the journal it was taken from, and whatever else it
      accepts holds an entry that collides with one of that journal. Being a continuation fixes
      every patch after the baseline and every event, entry by entry. */
  lemma AcceptsExactlyExtensions(hp: EntryHash<PatchContent>, he: EntryHash<EventContent>, j0: Journal, j: Journal,
                                 createdAt: string)
    requires DigestValued(hp, he) && Replayable(hp, he, j0) && Replayable(hp, he, j) && !Blank(createdAt)
    requires j0.projectionBaseline.None? && j.projectionBaseline.None?
    ensures Extends(j0, j) ==> Accepts(j, PayloadOf(j0, createdAt))
    ensures Accepts(j, PayloadOf(j0, createdAt)) && !Extends(j0, j) ==>
      || (exists r, q :: r in j0.patches && q in j.patches && Collide(hp, r, q))
      || (exists r, q :: r in j0.events && q in j.events && Collide(he, r, q))
  {
    var start := StartRevision(j0.auditBaseline);
    FreshPayload(hp, he, j0, createdAt);
    BaselineDetermined(hp, he, j0, j, createdAt);
    EventsDetermined(hp, he, j0, j, createdAt);
    LaterAmong(j0.patches, start);
    LaterAmong(j.patches, start);
    if j.auditBaseline == j0.auditBaseline && StartState(j, j.auditBaseline) == StartState(j0, j0.auditBaseline) {
      PatchesDetermined(hp, he, j0, j, createdAt);
    }
    DigestNonempty(j0.provenance);
    hide Replayable, BaselineMatches, PatchesMatch, EventsMatch, StartState, IsSha256, Collide, DigestValued, Later;
  }

  // ----- Runs -----

  /** A step of the journal: a linked patch, a linked event, or new run-selection rows. */
  datatype Step =
    | AppendPatch(patch: PatchContent, provenance: string)
    | AppendEvent(event: EventContent)
    | RecordRuns(provenance: string)

  predicate Allowed(j: Journal, step: Step) {
    match step
    case AppendPatch(c, provenance) =>
      c.appliedRevision == j.revision + 1 && c.stateHashBefore == j.stateHash
      && IsSha256(c.stateHashAfter) && IsSha256(provenance)
    case AppendEvent(_) => true
    case RecordRuns(provenance) => IsSha256(provenance)
  }

  function Next(hp: EntryHash<PatchContent>, he: EntryHash<EventContent>, j: Journal, step: Step): Journal {
    match step
    case AppendPatch(c, provenance) =>
      var head := Head(StartHead(Effective(j)), Later(j.patches, StartRevision(Effective(j))));
      j.(patches := j.patches + [Row(c, head, hp(c, head))], revision := j.revision + 1,
         stateHash := c.stateHashAfter, provenance := provenance)
    case AppendEvent(c) =>
      var head := Head(GENESIS_HASH, j.events);
      j.(events := j.events + [Row(c, head, he(c, head))])
    case RecordRuns(provenance) => j.(provenance := provenance)
  }

  ghost predicate AllAllowed(hp: EntryHash<PatchContent>, he: EntryHash<EventContent>, j: Journal, steps: seq<Step>)
    decreases |steps|
  {
    steps == [] || (Allowed(j, steps[0]) && AllAllowed(hp, he, Next(hp, he, j, steps[0]), steps[1..]))
  }

  function Run(hp: EntryHash<PatchContent>, he: EntryHash<EventContent>, j: Journal, steps: seq<Step>): Journal
    decreases |steps|
  {
    if steps == [] then j else Run(hp, he, Next(hp, he, j, steps[0]), steps[1..])
  }

  lemma LaterAppend(rows: seq<Row<PatchContent>>, row: Row<PatchContent>, revision: int)
    requires row.content.appliedRevision > revision
    ensures Later(rows + [row], revision) == Later(rows, revision) + [row]
    ensures Earlier(rows + [row], revision) == Earlier(rows, revision)
  {
    assert (rows + [row])[..|rows|] == rows;
  }

  lemma StatesMeetAppend(start: string, rows: seq<Row<PatchContent>>, current: string, row: Row<PatchContent>)
    requires StatesMeet(start, rows, current) && row.content.stateHashBefore == current
    ensures StatesMeet(start, rows + [row], row.content.stateHashAfter)
  {
  }

  /** The zero-patch case included: the start hash read off the first patch is the state hash the
      journal had before it. */
  lemma StartStateKept(j: Journal, b: Option<Baseline>, j': Journal, row: Row<PatchContent>)
    requires j'.patches == j.patches + [row]
    requires row.content.appliedRevision > StartRevision(b) && row.content.stateHashBefore == j.stateHash
    ensures StartState(j', b) == StartState(j, b)
  {
    LaterAppend(j.patches, row, StartRevision(b));
  }

  lemma RevisionsAppend(rows: seq<Row<PatchContent>>, start: int, row: Row<PatchContent>)
    requires forall i | 0 <= i < |rows| :: rows[i].content.appliedRevision == start + 1 + i
    requires row.content.appliedRevision == start + 1 + |rows|
    ensures forall i | 0 <= i < |rows| + 1 :: (rows + [row])[i].content.appliedRevision == start + 1 + i
  {
  }

  lemma AppendedRow(hp: EntryHash<PatchContent>, he: EntryHash<EventContent>, j: Journal, c: PatchContent,
                    provenance: string)
    ensures var j' := Next(hp, he, j, AppendPatch(c, provenance));
            var head := Head(StartHead(Effective(j)), Later(j.patches, StartRevision(Effective(j))));
            && j' == j.(patches := j.patches + [Row(c, head, hp(c, head))], revision := j.revision + 1,
                        stateHash := c.stateHashAfter, provenance := provenance)
            && Effective(j') == Effective(j)
  {
  }

  lemma PatchKeepsReplayable(hp: EntryHash<PatchContent>, he: EntryHash<EventContent>, j: Journal, c: PatchContent,
                             provenance: string)
    requires Replayable(hp, he, j) && Allowed(j, AppendPatch(c, provenance))
    ensures Replayable(hp, he, Next(hp, he, j, AppendPatch(c, provenance)))
  {
    hide IsSha256, Earlier, Later, StartState, StatesMeet, Linked, StartHead, StartRevision, Effective, Head,
         LegacyCount, BaselineShape, StrictlyAscending, Next;
    var base := Effective(j);
    var start := StartRevision(base);
    var suffix := Later(j.patches, start);
    var j' := Next(hp, he, j, AppendPatch(c, provenance));
    AppendedRow(hp, he, j, c, provenance);
    var row := j'.patches[|j.patches|];
    LaterAppend(j.patches, row, start);
    LinkedAppend(hp, StartHead(base), suffix, c);
    StartStateKept(j, base, j', row);
    StatesMeetAppend(StartState(j, base), suffix, j.stateHash, row);
    RevisionsAppend(suffix, start, row);
  }

  /** A step that leaves the patches and the baselines alone. */
  lemma SamePatchesReplayable(hp: EntryHash<PatchContent>, he: EntryHash<EventContent>, j: Journal, j': Journal)
    requires Replayable(hp, he, j) && j' == j.(events := j'.events, provenance := j'.provenance)
    requires Linked(he, GENESIS_HASH, j'.events) && IsSha256(j'.provenance)
    ensures Replayable(hp, he, j')
  {
    assert Effective(j') == Effective(j);
    assert StartState(j', Effective(j)) == StartState(j, Effective(j));
    hide IsSha256, Earlier, Later, Linked, Head, StatesMeet, Effective, StartState, BaselineShape;
  }

  lemma StepKeepsReplayable(hp: EntryHash<PatchContent>, he: EntryHash<EventContent>, j: Journal, step: Step)
    requires Replayable(hp, he, j) && Allowed(j, step)
    ensures Replayable(hp, he, Next(hp, he, j, step))
  {
    hide Linked, IsSha256, Head;
    match step
    case AppendPatch(c, provenance) =>
      PatchKeepsReplayable(hp, he, j, c, provenance);
    case AppendEvent(c) =>
      LinkedAppend(he, GENESIS_HASH, j.events, c);
      SamePatchesReplayable(hp, he, j, Next(hp, he, j, step));
    case RecordRuns(provenance) =>
      SamePatchesReplayable(hp, he, j, Next(hp, he, j, step));
  }

  /** What a run keeps of the journal it started from. */
  ghost predicate Continues(j0: Journal, j: Journal) {
    var start := StartRevision(Effective(j0));
    && j.problemId == j0.problemId && j.schemaVersion == j0.schemaVersion && j.migrations == j0.migrations
    && j.auditBaseline == j0.auditBaseline && j.projectionBaseline == j0.projectionBaseline
    && j0.revision <= j.revision
    && Later(j0.patches, start) <= Later(j.patches, start)
    && StartState(j, Effective(j)) == StartState(j0, Effective(j0))
    && j0.events <= j.events
  }

  lemma StepContinues(hp: EntryHash<PatchContent>, he: EntryHash<EventContent>, j: Journal, step: Step)
    requires Replayable(hp, he, j) && Allowed(j, step)
    ensures Continues(j, Next(hp, he, j, step))
  {
    if step.AppendPatch? {
      var j' := Next(hp, he, j, step);
      LaterAppend(j.patches, j'.patches[|j.patches|], StartRevision(Effective(j)));
      StartStateKept(j, Effective(j), j', j'.patches[|j.patches|]);
    }
  }

  lemma ContinuesTransitive(a: Journal, b: Journal, c: Journal)
    requires Continues(a, b) && Continues(b, c)
    ensures Continues(a, c)
  {
  }

  lemma {:induction false} RunKeeps(hp: EntryHash<PatchContent>, he: EntryHash<EventContent>, j: Journal,
                                    steps: seq<Step>)
    requires Replayable(hp, he, j) && AllAllowed(hp, he, j, steps)
    ensures Replayable(hp, he, Run(hp, he, j, steps)) && Continues(j, Run(hp, he, j, steps))
    decreases |steps|
  {
    hide Replayable, Next;
    if steps != [] {
      StepKeepsReplayable(hp, he, j, steps[0]);
      StepContinues(hp, he, j, steps[0]);
      RunKeeps(hp, he, Next(hp, he, j, steps[0]), steps[1..]);
      ContinuesTransitive(j, Next(hp, he, j, steps[0]), Run(hp, he, j, steps));
    }
  }

  /** How long a checkpoint stays valid: after every run of the journal it is accepted exactly
      when the store has no projection baseline, and the run either advanced the revision or left
      the run-selection provenance as it was. */
  lemma CheckpointStaysValid(hp: EntryHash<PatchContent>, he: EntryHash<EventContent>, j: Journal, steps: seq<Step>,
                             createdAt: string)
    requires DigestValued(hp, he) && Replayable(hp, he, j) && AllAllowed(hp, he, j, steps) && !Blank(createdAt)
    ensures var now := Run(hp, he, j, steps);
      Accepts(now, PayloadOf(j, createdAt))
      <==>
      j.projectionBaseline.None? && (now.revision > j.revision || now.provenance == j.provenance)
  {
    var now := Run(hp, he, j, steps);
    RunKeeps(hp, he, j, steps);
    FreshPayload(hp, he, j, createdAt);
    if j.projectionBaseline.None? {
      AcceptsExactlyExtensions(hp, he, j, now, createdAt);
    }
    hide Replayable, PrefixOk, PayloadOk, StartState, Later, Run;
  }

  /** A patch appended later makes the checkpoint acceptable again whatever the runs did. */
  lemma PatchRestoresCheckpoint(hp: EntryHash<PatchContent>, he: EntryHash<EventContent>, j: Journal, steps: seq<Step>,
                                c: PatchContent, provenance: string, createdAt: string)
    requires DigestValued(hp, he) && Replayable(hp, he, j) && AllAllowed(hp, he, j, steps) && !Blank(createdAt)
    requires j.projectionBaseline.None? && Allowed(Run(hp, he, j, steps), AppendPatch(c, provenance))
    ensures Accepts(Next(hp, he, Run(hp, he, j, steps), AppendPatch(c, provenance)), PayloadOf(j, createdAt))
  {
    RunKeeps(hp, he, j, steps);
    var now := Run(hp, he, j, steps);
    var last := AppendPatch(c, provenance);
    StepKeepsReplayable(hp, he, now, last);
    StepContinues(hp, he, now, last);
    ContinuesTransitive(j, now, Next(hp, he, now, last));
    AcceptsExactlyExtensions(hp, he, j, Next(hp, he, now, last), createdAt);
    hide Replayable, PrefixOk, PayloadOk, StartState, Later, Run;
  }
}
