/** Whole runs of the certificate store: arbitrary edits of the tables interleaved with the
    host's own passes. */
module Lifecycle {
  import opened Ordering
  import Graphs
  import opened ProofTables
  import opened Closure
  import opened Stability
  import opened Binding
  import opened Rebasing
  import opened Invalidation
  import opened Obligations
  import opened Integration
  import Revocation
  import opened Assurance

  /** One step. An edit may rewrite any row, but the bindings of an artifact are written by the
      host's passes only: an edit leaves them as they are, and a new artifact has none. */
  datatype Step =
    | Edit(after: Db)
    | BindCertificates(revision: int)
    | RebaseBindings(prev: Db, revision: int)
    | Invalidate(changedClaims: seq<string>, changedInferences: seq<string>)
    | ReopenStale

  predicate KeepsBindings(db: Db, after: Db) {
    forall a | a in after.artifacts ::
      after.artifacts[a].bindings == if a in db.artifacts then db.artifacts[a].bindings else map[]
  }

  ghost predicate Allowed(db: Db, step: Step) {
    step.Edit? ==> KeepsBindings(db, step.after)
  }

  ghost function Next(h: Hasher, db: Db, step: Step): Db {
    match step
    case Edit(after) => after
    case BindCertificates(revision) => Bound(h, db, revision)
    case RebaseBindings(prev, revision) => Rebased(h, prev, db, revision)
    case Invalidate(cc, ci) => Invalidated(db, cc, ci)
    case ReopenStale => ReopenInTurn(h, db, SortedIds(RefutedObligations(db)))
  }

  ghost predicate AllAllowed(h: Hasher, db: Db, steps: seq<Step>)
    decreases |steps|
  {
    steps == [] || (Allowed(db, steps[0]) && AllAllowed(h, Next(h, db, steps[0]), steps[1..]))
  }

  ghost function Run(h: Hasher, db: Db, steps: seq<Step>): Db
    decreases |steps|
  {
    if steps == [] then db else Run(h, Next(h, db, steps[0]), steps[1..])
  }

  /** What every host-computed binding satisfies, whatever happened to the tables since. */
  ghost predicate HostBinding(h: Hasher, e: Entity, b: ProofTables.Binding) {
    && Grounded(h, e, b)
    && (forall d | d in b.dependencies :: d.kind != ObligationKind)
    && Certified(b.certifiedStatus)
  }

  ghost predicate HostBuilt(h: Hasher, db: Db) {
    forall a, e | a in db.artifacts && e in db.artifacts[a].bindings :: HostBinding(h, e, db.artifacts[a].bindings[e])
  }

  lemma ClosureHoldsNoObligation(db: Db, subject: Entity, n: Entity)
    requires InClosure(db, subject, n)
    ensures n.kind != ObligationKind
  {
    var s :| IsStart(db, subject, s) && Graphs.Reaches(Edge(db), s, n);
    var m := Graphs.ReachesLast(Edge(db), s, n);
  }

  lemma NewBindingIsHostBuilt(h: Hasher, db: Db, id: string, a: Artifact, e: Entity, revision: int)
    requires e in CertifiedTargets(db, id, a.routeTarget)
    ensures HostBinding(h, e, NewBinding(h, db, a, e, revision))
  {
    var b := NewBinding(h, db, a, e, revision);
    ClosureSupportsItself(db, e);
    assert GroundedIn(h, db, e, b);
    forall d | d in b.dependencies ensures d.kind != ObligationKind {
      ClosureHoldsNoObligation(db, e, d);
    }
  }

  lemma BindKeepsHostBuilt(h: Hasher, db: Db, revision: int)
    requires HostBuilt(h, db)
    ensures HostBuilt(h, Bound(h, db, revision))
  {
    hide HostBinding, CertifiedTargets;
    var after := Bound(h, db, revision);
    forall a, e | a in after.artifacts && e in after.artifacts[a].bindings
      ensures HostBinding(h, e, after.artifacts[a].bindings[e])
    {
      var row := db.artifacts[a];
      if IsNew(row, revision) && e in CertifiedTargets(db, a, row.routeTarget) && SubjectDigest(h, db, e) != "" {
        NewBindingIsHostBuilt(h, db, a, row, e, revision);
      }
    }
  }

  lemma RebasedIsHostBuilt(h: Hasher, prev: Db, db: Db, before: Artifact, a: Artifact, e: Entity,
                           b: ProofTables.Binding, revision: int)
    requires CollisionFree(h) && HostBinding(h, e, b)
    ensures HostBinding(h, e, RebasedBinding(h, db, Promoted(prev, db), before, a, e, b, revision))
  {
    RebasedGrounded(h, prev, db, Promoted(prev, db), before, a, e, b, revision);
    hide Grounded, Rebasable;
  }

  lemma RebaseKeepsHostBuilt(h: Hasher, prev: Db, db: Db, revision: int)
    requires CollisionFree(h) && HostBuilt(h, db)
    ensures HostBuilt(h, Rebased(h, prev, db, revision))
  {
    hide HostBinding, RebasedBinding;
    var after := Rebased(h, prev, db, revision);
    forall a, e | a in after.artifacts && e in after.artifacts[a].bindings
      ensures HostBinding(h, e, after.artifacts[a].bindings[e])
    {
      if Considered(prev, db, a) {
        RebasedIsHostBuilt(h, prev, db, prev.artifacts[a], db.artifacts[a], e, db.artifacts[a].bindings[e], revision);
      }
    }
  }

  lemma {:induction false} ReopenKeepsArtifacts(h: Hasher, db: Db, ids: seq<string>)
    ensures ReopenInTurn(h, db, ids).artifacts == db.artifacts
  {
    if ids != [] {
      ReopenKeepsArtifacts(h, db, ids[..|ids| - 1]);
    }
  }

  lemma StepKeepsHostBuilt(h: Hasher, db: Db, step: Step)
    requires CollisionFree(h) && HostBuilt(h, db) && Allowed(db, step)
    ensures HostBuilt(h, Next(h, db, step))
  {
    hide HostBinding;
    match step
    case Edit(after) =>
    case BindCertificates(revision) => BindKeepsHostBuilt(h, db, revision);
    case RebaseBindings(prev, revision) => RebaseKeepsHostBuilt(h, prev, db, revision);
    case Invalidate(cc, ci) => assert Invalidated(db, cc, ci).artifacts == db.artifacts;
    case ReopenStale => ReopenKeepsArtifacts(h, db, SortedIds(RefutedObligations(db)));
  }

  /** Every run keeps every binding host-built. */
  lemma {:induction false} RunKeepsHostBuilt(h: Hasher, db: Db, steps: seq<Step>)
    requires CollisionFree(h) && HostBuilt(h, db) && AllAllowed(h, db, steps)
    ensures HostBuilt(h, Run(h, db, steps))
    decreases |steps|
  {
    hide HostBuilt, Next;
    if steps != [] {
      StepKeepsHostBuilt(h, db, steps[0]);
      RunKeepsHostBuilt(h, Next(h, db, steps[0]), steps[1..]);
    }
  }

  /** Evidence is trusted only while what it rests on is unchanged: in whatever state a run ends,
      each dependency listed by a current claim, inference or route binding is a dependency of
      its subject in the closure computed there and then. */
  lemma CurrentBindingsCoverClosure(h: Hasher, db: Db, steps: seq<Step>, a: string, e: Entity, n: Entity)
    requires CollisionFree(h) && HostBuilt(h, db) && AllAllowed(h, db, steps)
    requires e.kind != ObligationKind
    requires HasCurrentBinding(h, Run(h, db, steps), a, e)
    requires n in Run(h, db, steps).artifacts[a].bindings[e].dependencies
    ensures InClosure(Run(h, db, steps), e, n)
  {
    RunKeepsHostBuilt(h, db, steps);
    var now := Run(h, db, steps);
    hide Run, InClosure;
    var b := now.artifacts[a].bindings[e];
    assert HostBinding(h, e, b);
    CurrentBindingInClosure(h, now, now.artifacts[a].sha, e, b);
  }

  lemma HostBuiltAt(h: Hasher, db: Db, a: string, e: Entity)
    requires HostBuilt(h, db) && HasCurrentBinding(h, db, a, e)
    ensures a in db.artifacts && e in db.artifacts[a].bindings
    ensures Grounded(h, e, db.artifacts[a].bindings[e])
    ensures BindingCurrent(h, db, db.artifacts[a].sha, e, db.artifacts[a].bindings[e])
  {
    hide Grounded, BindingCurrent;
    assert HostBinding(h, e, db.artifacts[a].bindings[e]);
  }

  lemma CurrentObligationDecided(h: Hasher, db: Db, sha: string, e: Entity, b: ProofTables.Binding) returns (w: Db)
    requires CollisionFree(h) && e.kind == ObligationKind
    requires Grounded(h, e, b) && BindingCurrent(h, db, sha, e, b)
    ensures GroundedIn(h, w, e, b) && DecidedByStarts(w, db, e, b.dependencies)
  {
    hide *;
    w := GroundOf(h, e, b);
    CurrentObligationBinding(h, w, db, sha, e, b);
  }

  /** For obligation bindings the same is decided by those starting entities, in every state of
      every run. */
  lemma CurrentObligationBindingsInRuns(h: Hasher, db: Db, steps: seq<Step>, a: string, e: Entity) returns (w: Db)
    requires CollisionFree(h) && HostBuilt(h, db) && AllAllowed(h, db, steps)
    requires e.kind == ObligationKind && HasCurrentBinding(h, Run(h, db, steps), a, e)
    ensures var now := Run(h, db, steps);
            var b := now.artifacts[a].bindings[e];
            GroundedIn(h, w, e, b) && DecidedByStarts(w, now, e, b.dependencies)
  {
    RunKeepsHostBuilt(h, db, steps);
    var now := Run(h, db, steps);
    HostBuiltAt(h, now, a, e);
    hide *;
    w := CurrentObligationDecided(h, now, now.artifacts[a].sha, e, now.artifacts[a].bindings[e]);
  }

  // ----- Runs that only add to resolution records -----

  /** No obligation disappears or stops naming evidence it named. */
  predicate RecordsKept(db: Db, after: Db) {
    forall o | o in db.obligations :: RecordKept(db, after, o)
  }

  /** Every edit of the run keeps the resolution records. */
  ghost predicate AllRecordsKept(h: Hasher, db: Db, steps: seq<Step>)
    decreases |steps|
  {
    steps == [] || (RecordsKept(db, Next(h, db, steps[0])) && AllRecordsKept(h, Next(h, db, steps[0]), steps[1..]))
  }

  /** Every binding is anchored and lists no obligation. */
  ghost predicate AllAnchored(h: Hasher, db: Db) {
    forall a, e | a in db.artifacts && e in db.artifacts[a].bindings ::
      AnchoredBinding(h, db, e, db.artifacts[a].bindings[e])
  }

  ghost predicate AnchoredBinding(h: Hasher, db: Db, e: Entity, b: ProofTables.Binding) {
    Anchored(h, db, e, b) && forall d | d in b.dependencies :: d.kind != ObligationKind
  }

  lemma StillAnchored(h: Hasher, db: Db, after: Db, e: Entity, b: ProofTables.Binding)
    requires AnchoredBinding(h, db, e, b) && RecordsKept(db, after)
    ensures AnchoredBinding(h, after, e, b)
  {
    hide GroundedIn;
    var w :| GroundedIn(h, w, e, b) && (e.kind == ObligationKind ==> RecordKept(w, db, e.id));
    if e.kind == ObligationKind && e.id in w.obligations {
      RecordKeptTransitive(w, db, after, e.id);
    }
    hide RecordKept;
    assert e.kind == ObligationKind ==> RecordKept(w, after, e.id) by {
      if e.kind == ObligationKind && e.id !in w.obligations {
        NoRecordToKeep(w, after, e.id);
      }
    }
  }

  lemma NoRecordToKeep(w: Db, db: Db, o: string)
    requires o !in w.obligations
    ensures RecordKept(w, db, o)
  {
  }

  lemma NewBindingIsAnchored(h: Hasher, db: Db, id: string, a: Artifact, e: Entity, revision: int)
    requires e in CertifiedTargets(db, id, a.routeTarget)
    ensures AnchoredBinding(h, db, e, NewBinding(h, db, a, e, revision))
  {
    NewBindingIsHostBuilt(h, db, id, a, e, revision);
    ClosureSupportsItself(db, e);
    assert GroundedIn(h, db, e, NewBinding(h, db, a, e, revision));
  }

  lemma BindKeepsAnchored(h: Hasher, db: Db, revision: int)
    requires AllAnchored(h, db)
    ensures AllAnchored(h, Bound(h, db, revision))
  {
    var after := Bound(h, db, revision);
    assert RecordsKept(db, after);
    hide AnchoredBinding, CertifiedTargets, RecordsKept;
    forall a, e | a in after.artifacts && e in after.artifacts[a].bindings
      ensures AnchoredBinding(h, after, e, after.artifacts[a].bindings[e])
    {
      var row := db.artifacts[a];
      if IsNew(row, revision) && e in CertifiedTargets(db, a, row.routeTarget) && SubjectDigest(h, db, e) != "" {
        NewBindingIsAnchored(h, db, a, row, e, revision);
      }
      StillAnchored(h, db, after, e, after.artifacts[a].bindings[e]);
    }
  }

  lemma RebasedIsAnchored(h: Hasher, prev: Db, db: Db, before: Artifact, a: Artifact, e: Entity,
                          b: ProofTables.Binding, revision: int)
    requires CollisionFree(h) && AnchoredBinding(h, db, e, b)
    ensures AnchoredBinding(h, db, e, RebasedBinding(h, db, Promoted(prev, db), before, a, e, b, revision))
  {
    RebasedAnchored(h, prev, db, Promoted(prev, db), before, a, e, b, revision);
    hide Anchored, Rebasable;
  }

  lemma RebaseKeepsAnchored(h: Hasher, prev: Db, db: Db, revision: int)
    requires CollisionFree(h) && AllAnchored(h, db)
    ensures AllAnchored(h, Rebased(h, prev, db, revision))
  {
    var after := Rebased(h, prev, db, revision);
    assert RecordsKept(db, after);
    hide AnchoredBinding, RebasedBinding, RecordsKept;
    forall a, e | a in after.artifacts && e in after.artifacts[a].bindings
      ensures AnchoredBinding(h, after, e, after.artifacts[a].bindings[e])
    {
      if Considered(prev, db, a) {
        RebasedIsAnchored(h, prev, db, prev.artifacts[a], db.artifacts[a], e, db.artifacts[a].bindings[e], revision);
      }
      StillAnchored(h, db, after, e, after.artifacts[a].bindings[e]);
    }
  }

  /** A step that leaves bindings alone, or drops the artifact that holds them. */
  lemma OldBindingsAnchored(h: Hasher, db: Db, after: Db)
    requires AllAnchored(h, db) && KeepsBindings(db, after) && RecordsKept(db, after)
    ensures AllAnchored(h, after)
  {
    hide AnchoredBinding, RecordsKept;
    forall a, e | a in after.artifacts && e in after.artifacts[a].bindings
      ensures AnchoredBinding(h, after, e, after.artifacts[a].bindings[e])
    {
      StillAnchored(h, db, after, e, after.artifacts[a].bindings[e]);
    }
  }

  lemma StepKeepsAnchored(h: Hasher, db: Db, step: Step)
    requires CollisionFree(h) && AllAnchored(h, db) && Allowed(db, step)
    requires RecordsKept(db, Next(h, db, step))
    ensures AllAnchored(h, Next(h, db, step))
  {
    hide AllAnchored, RecordsKept;
    match step
    case Edit(after) => OldBindingsAnchored(h, db, after);
    case BindCertificates(revision) => BindKeepsAnchored(h, db, revision);
    case RebaseBindings(prev, revision) => RebaseKeepsAnchored(h, prev, db, revision);
    case Invalidate(cc, ci) =>
      assert Invalidated(db, cc, ci).artifacts == db.artifacts;
      OldBindingsAnchored(h, db, Next(h, db, step));
    case ReopenStale =>
      ReopenKeepsArtifacts(h, db, SortedIds(RefutedObligations(db)));
      OldBindingsAnchored(h, db, Next(h, db, step));
  }

  /** The host's own passes keep every resolution record. */
  lemma HostPassesKeepRecords(h: Hasher, db: Db, step: Step)
    requires !step.Edit?
    ensures RecordsKept(db, Next(h, db, step))
  {
    if step.ReopenStale? {
      ReopenKeepsRecords(h, db, SortedIds(RefutedObligations(db)));
    }
  }

  lemma {:induction false} ReopenKeepsRecords(h: Hasher, db: Db, ids: seq<string>)
    ensures RecordsKept(db, ReopenInTurn(h, db, ids))
  {
    if ids != [] {
      var before := ReopenInTurn(h, db, ids[..|ids| - 1]);
      ReopenKeepsRecords(h, db, ids[..|ids| - 1]);
      forall o | o in db.obligations ensures RecordKept(db, ReopenInTurn(h, db, ids), o) {
        RecordKeptTransitive(db, before, ReopenInTurn(h, db, ids), o);
      }
    }
  }

  lemma {:induction false} RunKeepsAnchored(h: Hasher, db: Db, steps: seq<Step>)
    requires CollisionFree(h) && AllAnchored(h, db) && AllAllowed(h, db, steps) && AllRecordsKept(h, db, steps)
    ensures AllAnchored(h, Run(h, db, steps))
    decreases |steps|
  {
    hide AllAnchored, Next, RecordsKept;
    if steps != [] {
      StepKeepsAnchored(h, db, steps[0]);
      RunKeepsAnchored(h, Next(h, db, steps[0]), steps[1..]);
    }
  }

  /** While no edit takes evidence out of a resolution record, every current binding of every kind,
      obligations included, lists only dependencies of its subject in the closure computed now. */
  lemma AllCurrentBindingsCoverClosure(h: Hasher, db: Db, steps: seq<Step>, a: string, e: Entity, n: Entity)
    requires CollisionFree(h) && AllAnchored(h, db) && AllAllowed(h, db, steps) && AllRecordsKept(h, db, steps)
    requires HasCurrentBinding(h, Run(h, db, steps), a, e)
    requires n in Run(h, db, steps).artifacts[a].bindings[e].dependencies
    ensures InClosure(Run(h, db, steps), e, n)
  {
    RunKeepsAnchored(h, db, steps);
    var now := Run(h, db, steps);
    hide Run, InClosure, Anchored;
    var b := now.artifacts[a].bindings[e];
    assert AnchoredBinding(h, now, e, b);
    AnchoredBindingInClosure(h, now, now.artifacts[a].sha, e, b);
  }

  lemma OnePassSufficesHere(h: Hasher, db: Db)
    requires HostBuilt(h, db)
    ensures var after := Next(h, db, ReopenStale);
      && (forall o | o in RefutedObligations(after) :: StillEvidenced(h, after, o))
      && Next(h, after, ReopenStale) == after
  {
    HostBuiltListsNoObligation(h, db);
    OnePassSuffices(h, db);
    hide HostBuilt, ReopenInTurn, StillEvidenced, SortedIds, RefutedObligations, NoObligationListed;
  }

  /** In every state of a run, one pass over the refuted obligations is a fixpoint. */
  lemma OnePassSufficesInRuns(h: Hasher, db: Db, steps: seq<Step>)
    requires CollisionFree(h) && HostBuilt(h, db) && AllAllowed(h, db, steps)
    ensures var now := Next(h, Run(h, db, steps), ReopenStale);
      && (forall o | o in RefutedObligations(now) :: StillEvidenced(h, now, o))
      && Next(h, now, ReopenStale) == now
  {
    hide *;
    RunKeepsHostBuilt(h, db, steps);
    OnePassSufficesHere(h, Run(h, db, steps));
  }

  lemma HostBuiltListsNoObligation(h: Hasher, db: Db)
    requires HostBuilt(h, db)
    ensures NoObligationListed(db)
    ensures forall e :: BoundCertified(db, e)
  {
    forall a, e | a in db.artifacts && e in db.artifacts[a].bindings
      ensures HostBinding(h, e, db.artifacts[a].bindings[e])
    {
    }
  }

  lemma ChallengedNotAssuredHere(h: Hasher, db: Db, cc: seq<string>, ci: seq<string>, claimId: string, routeId: string)
    requires HostBuilt(h, db) && ClaimVerified(db, claimId) && IsReached(db, cc, ci, claimId)
    ensures !Assured(h, Next(h, db, Invalidate(cc, ci)), HeterogeneousReview, claimId, routeId)
  {
    HostBuiltListsNoObligation(h, db);
    ChallengedClaimNotAssured(h, db, cc, ci, claimId, routeId);
    hide HostBuilt, Assured, Invalidated, IsReached, BoundCertified, ClaimVerified;
  }

  /** In every state of a run, invalidation leaves a challenged claim without any way to meet its
      heterogeneous-review requirement. */
  lemma ChallengedNotAssuredInRuns(h: Hasher, db: Db, steps: seq<Step>, cc: seq<string>, ci: seq<string>,
                                   claimId: string, routeId: string)
    requires CollisionFree(h) && HostBuilt(h, db) && AllAllowed(h, db, steps)
    requires ClaimVerified(Run(h, db, steps), claimId) && IsReached(Run(h, db, steps), cc, ci, claimId)
    ensures !Assured(h, Next(h, Run(h, db, steps), Invalidate(cc, ci)), HeterogeneousReview, claimId, routeId)
  {
    hide *;
    RunKeepsHostBuilt(h, db, steps);
    ChallengedNotAssuredHere(h, Run(h, db, steps), cc, ci, claimId, routeId);
  }

  /** A certificate that was current survives invalidation exactly when neither its own status nor
      the status of anything it lists was revoked. */
  lemma SurvivesInvalidation(h: Hasher, db: Db, cc: seq<string>, ci: seq<string>, a: string, e: Entity)
    requires CollisionFree(h) && HasCurrentBinding(h, db, a, e)
    ensures var after, b := Invalidated(db, cc, ci), db.artifacts[a].bindings[e];
      HasCurrentBinding(h, after, a, e)
      <==>
      && BindingStatusCurrent(after, e, b.certifiedStatus)
      && forall d | d in b.dependencies :: EntityStatus(after, d) == EntityStatus(db, d)
  {
    var after, b := Invalidated(db, cc, ci), db.artifacts[a].bindings[e];
    Revocation.ContentKept(db, cc, ci);
    hide Invalidated, SameSubject, BindingStatusCurrent, EntityStatus;
    SubjectDigestInjective(h, db, after, e);
    DependencyDigestInjective(h, db, map[], after, map[], b.dependencies);
    assert forall d :: StatusUnder(db, map[], d) == EntityStatus(db, d);
    assert forall d :: StatusUnder(after, map[], d) == EntityStatus(after, d);
  }
}
