/** Attaching host-computed bindings to the certificates of one patch. */
module Binding {
  import opened Graphs
  import opened Ordering
  import opened ProofTables
  import opened Closure

  function WithArtifacts(db: Db, artifacts: map<string, Artifact>): Db {
    db.(artifacts := artifacts)
  }

  /** Digests, statuses and the currency of a binding do not depend on artifact rows. */
  lemma ArtifactsIrrelevant(h: Hasher, db: Db, artifacts: map<string, Artifact>, overrides: map<Entity, Status>,
                            sha: string, e: Entity, b: ProofTables.Binding)
    ensures var d := WithArtifacts(db, artifacts);
      && SubjectDigest(h, d, e) == SubjectDigest(h, db, e)
      && EntityStatus(d, e) == EntityStatus(db, e)
      && DependencyDigestUnder(h, d, overrides, b.dependencies)
         == DependencyDigestUnder(h, db, overrides, b.dependencies)
      && (BindingCurrent(h, d, sha, e, b) <==> BindingCurrent(h, db, sha, e, b))
  {
    var d := WithArtifacts(db, artifacts);
    assert DependencyEntries(h, d, overrides, b.dependencies) == DependencyEntries(h, db, overrides, b.dependencies);
    assert DependencyEntries(h, d, map[], b.dependencies) == DependencyEntries(h, db, map[], b.dependencies);
  }

  /** The entities whose certified status cites the artifact. */
  predicate IsTarget(db: Db, artifactId: string, routeTarget: string, e: Entity) {
    Present(db, e) &&
    match e.kind
    case ClaimKind => Certified(EntityStatus(db, e)) && artifactId in db.claims[e.id].evidence
    case InferenceKind => Certified(EntityStatus(db, e)) && artifactId in db.inferences[e.id].evidence
    case ObligationKind =>
      EntityStatus(db, e) == Refuted && artifactId != "" && artifactId in db.obligations[e.id].resolution.evidence
    case RouteKind =>
      && EntityStatus(db, e) == Integrated
      && (artifactId in db.routes[e.id].evidence || (routeTarget != "" && e.id == routeTarget))
  }

  function AllEntities(db: Db): (r: set<Entity>)
    ensures forall e :: e in r <==> Present(db, e)
  {
    (set c | c in db.claims :: Entity(ClaimKind, c))
    + (set i | i in db.inferences :: Entity(InferenceKind, i))
    + (set o | o in db.obligations :: Entity(ObligationKind, o))
    + (set r | r in db.routes :: Entity(RouteKind, r))
  }

  /** _certified_targets_using_artifact. */
  function CertifiedTargets(db: Db, artifactId: string, routeTarget: string): set<Entity> {
    set e | e in AllEntities(db) && IsTarget(db, artifactId, routeTarget, e)
  }

  predicate IsNew(a: Artifact, revision: int) {
    a.stateRevision == revision && IsCertificate(a.artifactType)
  }

  /** The binding a certificate must receive for one of its targets. */
  ghost function NewBinding(h: Hasher, db: Db, a: Artifact, e: Entity, revision: int): ProofTables.Binding {
    ProofTables.Binding(1, SubjectDigest(h, db, e), DependencyDigest(h, db, ClosureOf(db, e)), ClosureOf(db, e), a.sha,
                        EntityStatus(db, e), revision, a.reviewer, [])
  }

  ghost function BindingsFor(h: Hasher, db: Db, a: Artifact, revision: int, es: set<Entity>)
    : map<Entity, ProofTables.Binding>
  {
    a.bindings + map e | e in es && SubjectDigest(h, db, e) != "" :: NewBinding(h, db, a, e, revision)
  }

  ghost function BoundArtifact(h: Hasher, db: Db, id: string, a: Artifact, revision: int): Artifact {
    if IsNew(a, revision) then
      a.(bindings := BindingsFor(h, db, a, revision, CertifiedTargets(db, id, a.routeTarget)))
    else a
  }

  ghost function BoundAmong(h: Hasher, db: Db, revision: int, ids: set<string>): map<string, Artifact> {
    map id | id in db.artifacts ::
      if id in ids then BoundArtifact(h, db, id, db.artifacts[id], revision) else db.artifacts[id]
  }

  /** The state binding must leave: only the new certificates change. */
  ghost function Bound(h: Hasher, db: Db, revision: int): Db {
    WithArtifacts(db, map id | id in db.artifacts :: BoundArtifact(h, db, id, db.artifacts[id], revision))
  }

  lemma BindingsForStep(h: Hasher, db: Db, a: Artifact, revision: int, es: set<Entity>, e: Entity)
    ensures BindingsFor(h, db, a, revision, es + {e})
         == if SubjectDigest(h, db, e) == "" then BindingsFor(h, db, a, revision, es)
            else BindingsFor(h, db, a, revision, es)[e := NewBinding(h, db, a, e, revision)]
  {
    hide SubjectDigest, NewBinding;
  }

  lemma BindingsForNone(h: Hasher, db: Db, a: Artifact, revision: int)
    ensures BindingsFor(h, db, a, revision, {}) == a.bindings
  {
  }

  /** The inner loop: one certificate, each of its targets in turn. */
  method BindTargets(h: Hasher, db: Db, id: string, a: Artifact, revision: int)
    returns (bindings: map<Entity, ProofTables.Binding>)
    requires IsNew(a, revision)
    ensures bindings == BoundArtifact(h, db, id, a, revision).bindings
  {
    hide BindingsFor, SubjectDigest, DependencyDigest, EntityStatus, ClosureOf, CertifiedTargets;
    bindings := a.bindings;
    var targets := SortedEntities(CertifiedTargets(db, id, a.routeTarget));
    ghost var done: set<Entity> := {};
    BindingsForNone(h, db, a, revision);
    for k := 0 to |targets|
      invariant done == Elements(targets[..k])
      invariant bindings == BindingsFor(h, db, a, revision, done)
    {
      var e := targets[k];
      var subject := SubjectDigest(h, db, e);
      BindingsForStep(h, db, a, revision, done, e);
      if subject != "" {
        var closure := DependencyClosureIds(db, e);
        bindings := bindings[e := ProofTables.Binding(
          1, subject, DependencyDigest(h, db, closure), closure, a.sha,
          EntityStatus(db, e), revision, a.reviewer, [])];
      }
      done := done + {e};
    }
    assert targets[..|targets|] == targets;
  }

  lemma BoundAmongStep(h: Hasher, db: Db, revision: int, ids: set<string>, id: string)
    requires id in db.artifacts
    ensures BoundAmong(h, db, revision, ids + {id})
         == BoundAmong(h, db, revision, ids)[id := BoundArtifact(h, db, id, db.artifacts[id], revision)]
  {
    hide BoundArtifact;
  }

  lemma BoundAmongNone(h: Hasher, db: Db, revision: int)
    ensures BoundAmong(h, db, revision, {}) == db.artifacts
  {
  }

  lemma NothingBound(h: Hasher, db: Db, id: string, a: Artifact, revision: int)
    requires BoundArtifact(h, db, id, a, revision).bindings == map[]
    ensures BoundArtifact(h, db, id, a, revision) == a
  {
    if IsNew(a, revision) {
      assert a.bindings.Keys <= BindingsFor(h, db, a, revision, CertifiedTargets(db, id, a.routeTarget)).Keys;
      assert a.bindings == map[];
    }
  }

  lemma BoundAmongUnvisited(h: Hasher, db: Db, revision: int, ids: set<string>, id: string)
    requires id in db.artifacts && id !in ids
    ensures BoundAmong(h, db, revision, ids)[id := db.artifacts[id]] == BoundAmong(h, db, revision, ids)
  {
    hide BoundArtifact;
  }

  lemma BoundAmongNew(h: Hasher, db: Db, revision: int, ids: set<string>)
    requires forall id | id in db.artifacts :: id in ids <==> IsNew(db.artifacts[id], revision)
    ensures WithArtifacts(db, BoundAmong(h, db, revision, ids)) == Bound(h, db, revision)
  {
    hide BindingsFor;
    assert BoundAmong(h, db, revision, ids) == Bound(h, db, revision).artifacts;
  }

  lemma ClosureIgnoresArtifacts(db: Db, artifacts: map<string, Artifact>, e: Entity)
    ensures ClosureOf(WithArtifacts(db, artifacts), e) == ClosureOf(db, e)
  {
    var d := WithArtifacts(db, artifacts);
    forall x, y ensures Edge(d)(x, y) <==> Edge(db)(x, y) {}
    forall n ensures InClosure(d, e, n) <==> InClosure(db, e, n) {
      forall s | IsStart(db, e, s) ensures Reaches(Edge(d), s, n) <==> Reaches(Edge(db), s, n) {
        if Reaches(Edge(d), s, n) { ReachesMonotone(Edge(d), Edge(db), s, n); }
        if Reaches(Edge(db), s, n) { ReachesMonotone(Edge(db), Edge(d), s, n); }
      }
      assert forall s :: IsStart(d, e, s) <==> IsStart(db, e, s);
    }
    EntityTotalOrder();
    assert Elements(ClosureOf(d, e)) == Elements(ClosureOf(db, e));
    AscendingUnique(EntityLeq, ClosureOf(d, e), ClosureOf(db, e));
  }

  lemma NewBindingIgnoresArtifacts(h: Hasher, db: Db, artifacts: map<string, Artifact>, a: Artifact, e: Entity,
                                   revision: int)
    ensures var d := WithArtifacts(db, artifacts);
            NewBinding(h, d, a, e, revision) == NewBinding(h, db, a, e, revision)
            && SubjectDigest(h, d, e) == SubjectDigest(h, db, e)
  {
    ClosureIgnoresArtifacts(db, artifacts, e);
    hide ClosureOf;
    ArtifactsIrrelevant(h, db, artifacts, map[], a.sha, e, NewBinding(h, db, a, e, revision));
  }

  lemma TargetsIgnoreArtifacts(db: Db, artifacts: map<string, Artifact>, id: string, routeTarget: string)
    ensures CertifiedTargets(WithArtifacts(db, artifacts), id, routeTarget) == CertifiedTargets(db, id, routeTarget)
  {
    var d := WithArtifacts(db, artifacts);
    forall e ensures IsTarget(d, id, routeTarget, e) <==> IsTarget(db, id, routeTarget, e) {}
    assert AllEntities(d) == AllEntities(db);
    hide IsTarget, AllEntities;
  }

  lemma BindingsIgnoreArtifacts(h: Hasher, db: Db, artifacts: map<string, Artifact>, a: Artifact, revision: int,
                                es: set<Entity>)
    ensures BindingsFor(h, WithArtifacts(db, artifacts), a, revision, es) == BindingsFor(h, db, a, revision, es)
  {
    var d := WithArtifacts(db, artifacts);
    hide NewBinding, SubjectDigest, WithArtifacts;
    forall e | e in es
      ensures NewBinding(h, d, a, e, revision) == NewBinding(h, db, a, e, revision)
      ensures SubjectDigest(h, d, e) == SubjectDigest(h, db, e)
    {
      NewBindingIgnoresArtifacts(h, db, artifacts, a, e, revision);
    }
  }

  /** What one certificate is bound to does not depend on what others were bound to. */
  lemma BoundIgnoresArtifacts(h: Hasher, db: Db, artifacts: map<string, Artifact>, id: string, a: Artifact,
                              revision: int)
    ensures BoundArtifact(h, WithArtifacts(db, artifacts), id, a, revision) == BoundArtifact(h, db, id, a, revision)
  {
    TargetsIgnoreArtifacts(db, artifacts, id, a.routeTarget);
    BindingsIgnoreArtifacts(h, db, artifacts, a, revision, CertifiedTargets(db, id, a.routeTarget));
    hide BindingsFor, CertifiedTargets, WithArtifacts;
  }

  /** bind_new_certificates. The rows are fetched first; digests and closures are read from the
      connection as the earlier iterations left it. */
  method BindNewCertificates(conn: ProofStore, revision: int)
    modifies conn`artifacts
    ensures conn.Snapshot() == Bound(conn.digest, old(conn.Snapshot()), revision)
  {
    hide BindingsFor, BoundAmong, Bound;
    var db := conn.Snapshot();
    var rows := SortedIds(set id | id in db.artifacts && IsNew(db.artifacts[id], revision));
    ghost var done: set<string> := {};
    BoundAmongNone(conn.digest, db, revision);
    for k := 0 to |rows|
      invariant done == Elements(rows[..k])
      invariant conn.artifacts == BoundAmong(conn.digest, db, revision, done)
    {
      var id := rows[k];
      assert id in Elements(rows);
      var row := db.artifacts[id];
      BoundIgnoresArtifacts(conn.digest, db, conn.artifacts, id, row, revision);
      var bindings := BindTargets(conn.digest, conn.Snapshot(), id, row, revision);
      BoundAmongStep(conn.digest, db, revision, done, id);
      if bindings != map[] {
        conn.artifacts := conn.artifacts[id := row.(bindings := bindings)];
      } else {
        NothingBound(conn.digest, db, id, row, revision);
        BoundAmongUnvisited(conn.digest, db, revision, done, id);
      }
      done := done + {id};
    }
    assert rows[..|rows|] == rows;
    BoundAmongNew(conn.digest, db, revision, done);
  }

  /** A new certificate's target has a current binding at once, exactly when the claim's two
      status coordinates agree: a claim integrated without verified validation is refused. */
  lemma NewBindingCurrent(h: Hasher, db: Db, revision: int, id: string, e: Entity)
    requires CollisionFree(h)
    requires id in db.artifacts && IsNew(db.artifacts[id], revision)
    requires e in CertifiedTargets(db, id, db.artifacts[id].routeTarget)
    ensures HasCurrentBinding(h, Bound(h, db, revision), id, e)
       <==> (e.kind == ClaimKind && db.claims[e.id].lifecycle == Integrated ==> Verified(db.claims[e.id].validation))
  {
    var a := db.artifacts[id];
    var b := NewBinding(h, db, a, e, revision);
    assert SubjectDigest(h, db, e) != "";
    assert Bound(h, db, revision).artifacts[id].bindings[e] == b;
    ArtifactsIrrelevant(h, db, Bound(h, db, revision).artifacts, map[], a.sha, e, b);
  }

  /** A claim whose lifecycle says integrated although its validation was challenged, certified by a
      report of this revision. */
  function IntegratedUnverified(reviewer: Reviewer): Db {
    Db(map["c" := Claim("lemma", "statement", "", [], [], Challenged, Integrated, ["report"])],
       map[], map[], map[],
       map["report" := Artifact(VerificationReport, "sha", 7, reviewer, "", false, NoTarget, map[])])
  }

  /** The condition can fail: the report is bound to that claim, and the binding is refused at once. */
  lemma NewBindingRefused(h: Hasher, reviewer: Reviewer)
    requires CollisionFree(h)
    ensures var db, e := IntegratedUnverified(reviewer), Entity(ClaimKind, "c");
            && IsNew(db.artifacts["report"], 7) && e in CertifiedTargets(db, "report", "")
            && e in Bound(h, db, 7).artifacts["report"].bindings
            && !HasCurrentBinding(h, Bound(h, db, 7), "report", e)
  {
    var db, e := IntegratedUnverified(reviewer), Entity(ClaimKind, "c");
    assert "report" in db.claims["c"].evidence;
    assert e in CertifiedTargets(db, "report", "");
    NewBindingCurrent(h, db, 7, "report", e);
    assert SubjectDigest(h, db, e) != "";
    hide HasCurrentBinding, NewBinding;
  }

  /** Every other binding of every artifact is as current, or as stale, as it was. */
  lemma OtherBindingsKept(h: Hasher, db: Db, revision: int, id: string, e: Entity)
    requires id in db.artifacts ==>
      !IsNew(db.artifacts[id], revision) || e !in CertifiedTargets(db, id, db.artifacts[id].routeTarget)
    ensures HasCurrentBinding(h, Bound(h, db, revision), id, e) <==> HasCurrentBinding(h, db, id, e)
  {
    var after := Bound(h, db, revision);
    if id in db.artifacts {
      assert e in after.artifacts[id].bindings <==> e in db.artifacts[id].bindings;
      if e in db.artifacts[id].bindings {
        var b := db.artifacts[id].bindings[e];
        assert after.artifacts[id].bindings[e] == b;
        ArtifactsIrrelevant(h, db, after.artifacts, map[], db.artifacts[id].sha, e, b);
      }
    }
  }
}
