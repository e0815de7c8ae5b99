/** Carrying reviews across promotions of verified claims to lifecycle "integrated". */
module Rebasing {
  import opened Ordering
  import opened ProofTables
  import opened Closure
  import opened Stability
  import opened Binding

  /** The claims promoted between the two states, with the status they had before. */
  predicate WasPromoted(prev: Db, db: Db, c: string) {
    && c in prev.claims && c in db.claims
    && Verified(prev.claims[c].validation) && prev.claims[c].lifecycle != Integrated
    && db.claims[c].lifecycle == Integrated && db.claims[c].validation == prev.claims[c].validation
  }

  function Promoted(prev: Db, db: Db): map<Entity, Status> {
    map e: Entity | e in AllEntities(prev) && e.kind == ClaimKind && WasPromoted(prev, db, e.id)
      :: prev.claims[e.id].validation
  }

  predicate Touches(deps: seq<Entity>, promoted: map<Entity, Status>) {
    exists d :: d in deps && d in promoted
  }

  function PromotedClaimIds(deps: seq<Entity>, promoted: map<Entity, Status>): seq<string> {
    SortedIds(set d | d in deps && d in promoted :: d.id)
  }

  /** The old digest is reproduced exactly by undoing the promotions, all else being current. */
  predicate Rebasable(h: Hasher, db: Db, promoted: map<Entity, Status>, before: Artifact, a: Artifact, e: Entity,
                      b: ProofTables.Binding)
  {
    && e in before.bindings && before.bindings[e] == b
    && b.version == 1
    && Touches(b.dependencies, promoted)
    && b.artifactSha == a.sha
    && b.subjectDigest == SubjectDigest(h, db, e)
    && BindingStatusCurrent(db, e, b.certifiedStatus)
    && b.dependencyDigest == DependencyDigestUnder(h, db, promoted, b.dependencies)
    && DependencyDigest(h, db, b.dependencies) != b.dependencyDigest
  }

  function RebasedBinding(h: Hasher, db: Db, promoted: map<Entity, Status>, before: Artifact, a: Artifact, e: Entity,
                          b: ProofTables.Binding, revision: int): ProofTables.Binding
  {
    if Rebasable(h, db, promoted, before, a, e, b) then
      var digest := DependencyDigest(h, db, b.dependencies);
      b.(dependencyDigest := digest,
         rebases := b.rebases
           + [Rebase(revision, b.dependencyDigest, digest, PromotedClaimIds(b.dependencies, promoted))])
    else b
  }

  /** The artifact rows the pass looks at: unchanged certificates. */
  predicate Considered(prev: Db, db: Db, id: string) {
    && id in prev.artifacts && IsCertificate(prev.artifacts[id].artifactType)
    && id in db.artifacts && db.artifacts[id].sha == prev.artifacts[id].sha
  }

  function RebasedArtifact(h: Hasher, prev: Db, db: Db, id: string, revision: int): Artifact
    requires id in db.artifacts
  {
    var a := db.artifacts[id];
    if Considered(prev, db, id) then
      a.(bindings := map e | e in a.bindings ::
        RebasedBinding(h, db, Promoted(prev, db), prev.artifacts[id], a, e, a.bindings[e], revision))
    else a
  }

  /** The state rebasing must leave. */
  function Rebased(h: Hasher, prev: Db, db: Db, revision: int): Db {
    WithArtifacts(db, map id | id in db.artifacts :: RebasedArtifact(h, prev, db, id, revision))
  }

  /** The inner loop: the bindings of one artifact. */
  method RebaseBindings(h: Hasher, db: Db, promoted: map<Entity, Status>, before: Artifact, a: Artifact, revision: int)
    returns (bindings: map<Entity, ProofTables.Binding>, changed: bool)
    ensures bindings
         == map e | e in a.bindings :: RebasedBinding(h, db, promoted, before, a, e, a.bindings[e], revision)
    ensures !changed ==> bindings == a.bindings
  {
    hide DependencyDigest, DependencyDigestUnder, SubjectDigest, BindingStatusCurrent, Touches, PromotedClaimIds;
    bindings, changed := a.bindings, false;
    var todo := a.bindings.Keys;
    while todo != {}
      invariant todo <= a.bindings.Keys && bindings.Keys == a.bindings.Keys
      invariant forall e | e in bindings && e in todo :: bindings[e] == a.bindings[e]
      invariant forall e | e in bindings && e !in todo ::
        bindings[e] == RebasedBinding(h, db, promoted, before, a, e, a.bindings[e], revision)
      invariant !changed ==> bindings == a.bindings
    {
      var e :| e in todo;
      todo := todo - {e};
      var b := a.bindings[e];
      if e in before.bindings && before.bindings[e] == b && b.version == 1 && Touches(b.dependencies, promoted) {
        var digest := DependencyDigest(h, db, b.dependencies);
        if b.artifactSha == a.sha && b.subjectDigest == SubjectDigest(h, db, e)
           && BindingStatusCurrent(db, e, b.certifiedStatus)
           && b.dependencyDigest == DependencyDigestUnder(h, db, promoted, b.dependencies)
           && digest != b.dependencyDigest {
          bindings := bindings[e := b.(
            dependencyDigest := digest,
            rebases := b.rebases
              + [Rebase(revision, b.dependencyDigest, digest, PromotedClaimIds(b.dependencies, promoted))])];
          changed := true;
        }
      }
    }
  }

  /** The outer loop's knowledge: the artifacts no longer to do are rebased, the others untouched. */
  ghost predicate RebasedBut(h: Hasher, prev: Db, db: Db, revision: int, todo: set<string>,
                             artifacts: map<string, Artifact>)
  {
    && artifacts.Keys == db.artifacts.Keys
    && forall id | id in db.artifacts ::
         artifacts[id] == if id in todo then db.artifacts[id] else RebasedArtifact(h, prev, db, id, revision)
  }

  lemma RebaseStart(h: Hasher, prev: Db, db: Db, revision: int)
    ensures RebasedBut(h, prev, db, revision, prev.artifacts.Keys, db.artifacts)
  {
    hide RebasedBinding, Promoted;
  }

  lemma RebaseSkip(h: Hasher, prev: Db, db: Db, revision: int, todo: set<string>, artifacts: map<string, Artifact>,
                   id: string)
    requires RebasedBut(h, prev, db, revision, todo, artifacts) && id in todo
    requires !Considered(prev, WithArtifacts(db, artifacts), id)
    ensures RebasedBut(h, prev, db, revision, todo - {id}, artifacts)
  {
    hide RebasedBinding, Promoted;
  }

  lemma RebaseVisit(h: Hasher, prev: Db, db: Db, revision: int, todo: set<string>, artifacts: map<string, Artifact>,
                    id: string, bindings: map<Entity, ProofTables.Binding>)
    requires RebasedBut(h, prev, db, revision, todo, artifacts) && id in todo
    requires Considered(prev, WithArtifacts(db, artifacts), id)
    requires var d, a := WithArtifacts(db, artifacts), artifacts[id];
             bindings == map e | e in a.bindings ::
               RebasedBinding(h, d, Promoted(prev, db), prev.artifacts[id], a, e, a.bindings[e], revision)
    ensures RebasedBut(h, prev, db, revision, todo - {id}, artifacts[id := artifacts[id].(bindings := bindings)])
    ensures bindings == artifacts[id].bindings ==> RebasedBut(h, prev, db, revision, todo - {id}, artifacts)
  {
    RebasedIgnoresArtifacts(h, db, artifacts, Promoted(prev, db), prev.artifacts[id], artifacts[id], revision);
    hide RebasedBinding, Promoted;
    assert artifacts[id] == db.artifacts[id];
    assert RebasedArtifact(h, prev, db, id, revision) == artifacts[id].(bindings := bindings);
    hide RebasedArtifact;
  }

  lemma RebaseDone(h: Hasher, prev: Db, db: Db, revision: int, artifacts: map<string, Artifact>)
    requires RebasedBut(h, prev, db, revision, {}, artifacts)
    ensures WithArtifacts(db, artifacts) == Rebased(h, prev, db, revision)
  {
    hide RebasedArtifact;
    assert artifacts == Rebased(h, prev, db, revision).artifacts;
  }

  lemma RebaseNothing(h: Hasher, prev: Db, db: Db, revision: int)
    requires Promoted(prev, db) == map[]
    ensures Rebased(h, prev, db, revision) == db
  {
    hide RebasedArtifact;
    forall id | id in db.artifacts ensures RebasedArtifact(h, prev, db, id, revision) == db.artifacts[id] {
      NothingPromoted(h, prev, db, id, revision);
    }
    assert Rebased(h, prev, db, revision).artifacts == db.artifacts;
  }

  /** rebase_dependency_lifecycle_bindings. Each row is read from the connection as the earlier
      iterations left it. */
  method RebaseLifecycleBindings(conn: ProofStore, prev: Db, revision: int)
    modifies conn`artifacts
    ensures conn.Snapshot() == Rebased(conn.digest, prev, old(conn.Snapshot()), revision)
  {
    hide RebasedBut, Rebased, RebasedBinding, Promoted, IsCertificate;
    ghost var db := conn.Snapshot();
    var promoted := Promoted(prev, conn.Snapshot());
    if promoted == map[] {
      RebaseNothing(conn.digest, prev, db, revision);
      return;
    }
    var todo := prev.artifacts.Keys;
    RebaseStart(conn.digest, prev, db, revision);
    while todo != {}
      invariant RebasedBut(conn.digest, prev, db, revision, todo, conn.artifacts)
    {
      var id :| id in todo;
      if Considered(prev, conn.Snapshot(), id) {
        var artifact := conn.artifacts[id];
        var bindings, changed :=
          RebaseBindings(conn.digest, conn.Snapshot(), promoted, prev.artifacts[id], artifact, revision);
        RebaseVisit(conn.digest, prev, db, revision, todo, conn.artifacts, id, bindings);
        if changed {
          conn.artifacts := conn.artifacts[id := artifact.(bindings := bindings)];
        }
      } else {
        RebaseSkip(conn.digest, prev, db, revision, todo, conn.artifacts, id);
      }
      todo := todo - {id};
    }
    RebaseDone(conn.digest, prev, db, revision, conn.artifacts);
  }

  /** What a binding is rewritten to does not depend on what other artifacts were rewritten to. */
  lemma RebasedIgnoresArtifacts(h: Hasher, db: Db, artifacts: map<string, Artifact>, promoted: map<Entity, Status>,
                                before: Artifact, a: Artifact, revision: int)
    ensures forall e | e in a.bindings ::
      RebasedBinding(h, WithArtifacts(db, artifacts), promoted, before, a, e, a.bindings[e], revision)
      == RebasedBinding(h, db, promoted, before, a, e, a.bindings[e], revision)
  {
    var d := WithArtifacts(db, artifacts);
    hide SubjectDigest, DependencyDigestUnder, PromotedClaimIds, Touches;
    forall e | e in a.bindings
      ensures RebasedBinding(h, d, promoted, before, a, e, a.bindings[e], revision)
           == RebasedBinding(h, db, promoted, before, a, e, a.bindings[e], revision)
    {
      var b := a.bindings[e];
      ArtifactsIrrelevant(h, db, artifacts, promoted, a.sha, e, b);
      ArtifactsIrrelevant(h, db, artifacts, map[], a.sha, e, b);
      assert BindingStatusCurrent(d, e, b.certifiedStatus) == BindingStatusCurrent(db, e, b.certifiedStatus);
    }
  }

  lemma NothingPromoted(h: Hasher, prev: Db, db: Db, id: string, revision: int)
    requires Promoted(prev, db) == map[] && id in db.artifacts
    ensures RebasedArtifact(h, prev, db, id, revision) == db.artifacts[id]
  {
    var a := db.artifacts[id];
    if Considered(prev, db, id) {
      assert RebasedArtifact(h, prev, db, id, revision).bindings == a.bindings;
    }
  }

  /** The status override of a promoted claim is the status its entity had before. */
  lemma PromotedStatus(prev: Db, db: Db, d: Entity)
    ensures d in Promoted(prev, db) ==>
      Promoted(prev, db)[d] == EntityStatus(prev, d) && EntityStatus(db, d) == Integrated != EntityStatus(prev, d)
  {
  }

  /** What the certificate covers is the same in both states, except for promotions of verified
      claims. */
  ghost predicate OnlyPromoted(prev: Db, db: Db, deps: seq<Entity>) {
    forall d | d in deps ::
      SameSubject(prev, db, d) && (EntityStatus(prev, d) == EntityStatus(db, d) || d in Promoted(prev, db))
  }

  lemma UndoingPromotions(h: Hasher, prev: Db, db: Db, deps: seq<Entity>)
    requires CollisionFree(h)
    ensures DependencyDigest(h, prev, deps) == DependencyDigestUnder(h, db, Promoted(prev, db), deps)
       <==> OnlyPromoted(prev, db, deps)
  {
    var promoted := Promoted(prev, db);
    DependencyDigestInjective(h, prev, map[], db, promoted, deps);
    forall d | d in deps
      ensures StatusUnder(prev, map[], d) == StatusUnder(db, promoted, d)
         <==> EntityStatus(prev, d) == EntityStatus(db, d) || d in promoted
    {
      PromotedStatus(prev, db, d);
    }
  }

  lemma NoPromotionTouched(h: Hasher, prev: Db, db: Db, deps: seq<Entity>)
    requires !Touches(deps, Promoted(prev, db))
    ensures DependencyDigestUnder(h, db, Promoted(prev, db), deps) == DependencyDigest(h, db, deps)
  {
    assert DependencyEntries(h, db, Promoted(prev, db), deps) == DependencyEntries(h, db, map[], deps);
  }

  /** The exact effect on a certificate that was current before the patch and whose binding the
      patch did not touch: afterwards it is current if and only if its artifact and subject are
      unchanged, its bound status still holds, and its dependencies differ by promotions only. */
  lemma RebaseExact(h: Hasher, prev: Db, db: Db, revision: int, id: string, e: Entity)
    requires CollisionFree(h)
    requires HasCurrentBinding(h, prev, id, e) && IsCertificate(prev.artifacts[id].artifactType)
    requires id in db.artifacts && e in db.artifacts[id].bindings
    requires db.artifacts[id].bindings[e] == prev.artifacts[id].bindings[e]
    ensures var b := prev.artifacts[id].bindings[e];
      HasCurrentBinding(h, Rebased(h, prev, db, revision), id, e)
      <==>
      && db.artifacts[id].sha == prev.artifacts[id].sha
      && SameSubject(prev, db, e)
      && BindingStatusCurrent(db, e, b.certifiedStatus)
      && OnlyPromoted(prev, db, b.dependencies)
  {
    var after := Rebased(h, prev, db, revision);
    var promoted := Promoted(prev, db);
    var b := prev.artifacts[id].bindings[e];
    var b' := after.artifacts[id].bindings[e];
    assert after.artifacts[id].sha == db.artifacts[id].sha;
    ArtifactsIrrelevant(h, db, after.artifacts, map[], db.artifacts[id].sha, e, b');
    SubjectDigestInjective(h, prev, db, e);
    UndoingPromotions(h, prev, db, b.dependencies);
    if !Touches(b.dependencies, promoted) {
      NoPromotionTouched(h, prev, db, b.dependencies);
    } else {
      TouchedDigestDiffers(h, prev, db, b.dependencies);
    }
  }

  lemma TouchedDigestDiffers(h: Hasher, prev: Db, db: Db, deps: seq<Entity>)
    requires CollisionFree(h) && Touches(deps, Promoted(prev, db))
    ensures DependencyDigest(h, prev, deps) != DependencyDigest(h, db, deps)
  {
    var d :| d in deps && d in Promoted(prev, db);
    PromotedStatus(prev, db, d);
    DependencyDigestInjective(h, prev, map[], db, map[], deps);
    assert StatusUnder(prev, map[], d) != StatusUnder(db, map[], d);
  }

  /** The patch did nothing but promote verified claims, leaving all bindings as they were. */
  ghost predicate PromotionsOnly(prev: Db, db: Db) {
    && db == prev.(claims := db.claims)
    && db.claims.Keys == prev.claims.Keys
    && forall c | c in db.claims && db.claims[c] != prev.claims[c] ::
         Verified(prev.claims[c].validation) && prev.claims[c].lifecycle != Integrated
         && db.claims[c] == prev.claims[c].(lifecycle := Integrated)
  }

  /** Promotions alone never cost a review: every current binding of every certificate stays
      current, whatever its subject and dependency list. */
  lemma PromotionsKeepEveryReview(h: Hasher, prev: Db, db: Db, revision: int, id: string, e: Entity)
    requires CollisionFree(h) && PromotionsOnly(prev, db)
    requires HasCurrentBinding(h, prev, id, e) && IsCertificate(prev.artifacts[id].artifactType)
    ensures HasCurrentBinding(h, Rebased(h, prev, db, revision), id, e)
  {
    hide Rebased, BindingStatusCurrent, EntityStatus, SameSubject, Promoted, DependencyDigest;
    var b := prev.artifacts[id].bindings[e];
    RebaseExact(h, prev, db, revision, id, e);
    forall d ensures SameSubject(prev, db, d)
      && (EntityStatus(prev, d) == EntityStatus(db, d) || d in Promoted(prev, db))
    {
      PromotionsOnlyAt(prev, db, d);
    }
    PromotionKeepsStatus(prev, db, e, b.certifiedStatus);
  }

  lemma PromotionsOnlyAt(prev: Db, db: Db, d: Entity)
    requires PromotionsOnly(prev, db)
    ensures SameSubject(prev, db, d)
    ensures EntityStatus(prev, d) == EntityStatus(db, d) || d in Promoted(prev, db)
  {
    if d.kind == ClaimKind && d.id in db.claims && db.claims[d.id] != prev.claims[d.id] {
      assert WasPromoted(prev, db, d.id);
    }
  }

  lemma PromotionKeepsStatus(prev: Db, db: Db, e: Entity, bound: Status)
    requires PromotionsOnly(prev, db) && BindingStatusCurrent(prev, e, bound)
    ensures BindingStatusCurrent(db, e, bound)
  {
  }

  /** A binding is rewritten only when undoing the promotions reproduces its old digest; then
      only the digest and the rebase record change, and the binding is current. */
  lemma RewrittenOnlyIfReproduced(h: Hasher, prev: Db, db: Db, revision: int, id: string, e: Entity)
    requires id in db.artifacts && e in db.artifacts[id].bindings
    requires Rebased(h, prev, db, revision).artifacts[id].bindings[e] != db.artifacts[id].bindings[e]
    ensures var b, b' := db.artifacts[id].bindings[e], Rebased(h, prev, db, revision).artifacts[id].bindings[e];
      && b.dependencyDigest == DependencyDigestUnder(h, db, Promoted(prev, db), b.dependencies)
      && b' == b.(dependencyDigest := b'.dependencyDigest, rebases := b'.rebases)
      && |b'.rebases| == |b.rebases| + 1 && b.rebases <= b'.rebases
      && b'.rebases[|b.rebases|].previousDigest == b.dependencyDigest
      && HasCurrentBinding(h, Rebased(h, prev, db, revision), id, e)
      && !HasCurrentBinding(h, db, id, e)
  {
    var after := Rebased(h, prev, db, revision);
    ArtifactsIrrelevant(h, db, after.artifacts, map[], db.artifacts[id].sha, e, after.artifacts[id].bindings[e]);
  }

  /** Rebasing keeps a binding grounded: a rewritten one is grounded in the current state, an
      obligation's in the current state with the obligations of the old one. */
  lemma RebasedGrounded(h: Hasher, prev: Db, db: Db, promoted: map<Entity, Status>, before: Artifact, a: Artifact,
                        e: Entity, b: ProofTables.Binding, revision: int)
    requires CollisionFree(h) && promoted == Promoted(prev, db)
    requires Grounded(h, e, b) && forall d | d in b.dependencies :: d.kind != ObligationKind
    ensures Grounded(h, e, RebasedBinding(h, db, promoted, before, a, e, b, revision))
  {
    hide *;
    var w := GroundOf(h, e, b);
    var w' := RebasedGround(h, prev, db, promoted, before, a, e, b, revision, w);
    GroundedBy(h, w', e, RebasedBinding(h, db, promoted, before, a, e, b, revision));
  }

  /** So does being anchored. */
  lemma RebasedAnchored(h: Hasher, prev: Db, db: Db, promoted: map<Entity, Status>, before: Artifact, a: Artifact,
                        e: Entity, b: ProofTables.Binding, revision: int)
    requires CollisionFree(h) && promoted == Promoted(prev, db)
    requires Anchored(h, db, e, b) && forall d | d in b.dependencies :: d.kind != ObligationKind
    ensures Anchored(h, db, e, RebasedBinding(h, db, promoted, before, a, e, b, revision))
  {
    hide GroundedIn, RebasedBinding, CollisionFree, Promoted;
    var w :| GroundedIn(h, w, e, b) && (e.kind == ObligationKind ==> RecordKept(w, db, e.id));
    var w' := RebasedGround(h, prev, db, promoted, before, a, e, b, revision, w);
  }

  lemma RebasedGround(h: Hasher, prev: Db, db: Db, promoted: map<Entity, Status>, before: Artifact, a: Artifact,
                      e: Entity, b: ProofTables.Binding, revision: int, w: Db)
    returns (w': Db)
    requires CollisionFree(h) && promoted == Promoted(prev, db)
    requires GroundedIn(h, w, e, b) && forall d | d in b.dependencies :: d.kind != ObligationKind
    ensures GroundedIn(h, w', e, RebasedBinding(h, db, promoted, before, a, e, b, revision))
    ensures e.kind == ObligationKind ==> w'.obligations == w.obligations
  {
    hide *;
    RewrittenFields(h, db, promoted, before, a, e, b, revision);
    w' := w;
    if Rebasable(h, db, promoted, before, a, e, b) {
      w' := Regrounded(h, prev, db, w, e, b, RebasedBinding(h, db, promoted, before, a, e, b, revision));
    }
  }

  lemma GroundOf(h: Hasher, e: Entity, b: ProofTables.Binding) returns (w: Db)
    requires Grounded(h, e, b)
    ensures GroundedIn(h, w, e, b)
  {
    hide GroundedIn;
    w :| GroundedIn(h, w, e, b);
  }

  lemma GroundedBy(h: Hasher, w: Db, e: Entity, b: ProofTables.Binding)
    requires GroundedIn(h, w, e, b)
    ensures Grounded(h, e, b)
  {
  }

  lemma RewrittenFields(h: Hasher, db: Db, promoted: map<Entity, Status>, before: Artifact, a: Artifact,
                        e: Entity, b: ProofTables.Binding, revision: int)
    ensures var b' := RebasedBinding(h, db, promoted, before, a, e, b, revision);
      if Rebasable(h, db, promoted, before, a, e, b) then
        && b.subjectDigest == b'.subjectDigest == SubjectDigest(h, db, e)
        && b.dependencies == b'.dependencies && b'.dependencyDigest == DependencyDigest(h, db, b.dependencies)
        && b.dependencyDigest == DependencyDigestUnder(h, db, promoted, b.dependencies)
      else b' == b
  {
  }

  lemma Regrounded(h: Hasher, prev: Db, db: Db, w: Db, e: Entity, b: ProofTables.Binding, b': ProofTables.Binding)
    returns (w': Db)
    requires CollisionFree(h) && GroundedIn(h, w, e, b)
    requires forall d | d in b.dependencies :: d.kind != ObligationKind
    requires b.subjectDigest == b'.subjectDigest == SubjectDigest(h, db, e)
    requires b.dependencies == b'.dependencies && b'.dependencyDigest == DependencyDigest(h, db, b.dependencies)
    requires b.dependencyDigest == DependencyDigestUnder(h, db, Promoted(prev, db), b.dependencies)
    ensures GroundedIn(h, w', e, b')
    ensures e.kind == ObligationKind ==> w'.obligations == w.obligations
  {
    w' := if e.kind == ObligationKind then db.(obligations := w.obligations) else db;
    ObligationsIrrelevant(h, db, w', b.dependencies);
    ReproducedEvidence(h, w, prev, db, b.dependencies);
    assert SameEvidence(w, w', b.dependencies) && SubjectDigest(h, w', e) == b.subjectDigest;
    SubjectDigestInjective(h, w, w', e);
    hide SubjectDigest, DependencyDigestUnder, DependencyDigest, SelfSupporting, SameEvidence, SameSubject, Promoted;
    Stability.SupportKept(w, w', e, b.dependencies);
  }

  /** A list without obligations does not depend on the obligation table. */
  lemma ObligationsIrrelevant(h: Hasher, d0: Db, d1: Db, deps: seq<Entity>)
    requires d1 == d0.(obligations := d1.obligations) && forall d | d in deps :: d.kind != ObligationKind
    ensures DependencyDigest(h, d0, deps) == DependencyDigest(h, d1, deps)
    ensures forall d | d in deps :: SameSubject(d0, d1, d) && EntityStatus(d0, d) == EntityStatus(d1, d)
  {
    forall d | d in deps ensures SameSubject(d0, d1, d) && EntityStatus(d0, d) == EntityStatus(d1, d)
                              && SubjectDigest(h, d0, d) == SubjectDigest(h, d1, d) {}
    assert DependencyEntries(h, d0, map[], deps) == DependencyEntries(h, d1, map[], deps);
  }

  lemma ReproducedEvidence(h: Hasher, w: Db, prev: Db, db: Db, deps: seq<Entity>)
    requires CollisionFree(h)
    requires DependencyDigest(h, w, deps) == DependencyDigestUnder(h, db, Promoted(prev, db), deps)
    ensures SameEvidence(w, db, deps)
  {
    var promoted := Promoted(prev, db);
    DependencyDigestInjective(h, w, map[], db, promoted, deps);
    forall d | d in deps
      ensures SameSubject(w, db, d) && (d.kind == InferenceKind ==> EntityStatus(w, d) == EntityStatus(db, d))
    {
      assert StatusUnder(w, map[], d) == StatusUnder(db, promoted, d);
    }
  }
}
