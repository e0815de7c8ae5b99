/** A binding that is current now still lists only current dependencies. */
module Stability {
  import opened Graphs
  import opened ProofTables
  import opened Closure

  /** Dependency edges between listed entities. */
  ghost function EdgeWithin(db: Db, deps: seq<Entity>): (Entity, Entity) -> bool {
    (a: Entity, b: Entity) => a in deps && b in deps && DependsOn(db, a, b)
  }

  ghost predicate ReachedWithin(db: Db, subject: Entity, deps: seq<Entity>, n: Entity) {
    exists s :: s in deps && IsStart(db, subject, s) && Reaches(EdgeWithin(db, deps), s, n)
  }

  /** Each listed entity is a dependency of the subject by way of listed entities only. */
  ghost predicate SelfSupporting(db: Db, subject: Entity, deps: seq<Entity>) {
    forall n | n in deps :: ReachedWithin(db, subject, deps, n)
  }

  lemma ClosureSupportsItself(db: Db, subject: Entity)
    ensures SelfSupporting(db, subject, ClosureOf(db, subject))
  {
    var deps := ClosureOf(db, subject);
    forall n | n in deps ensures ReachedWithin(db, subject, deps, n) {
      var s :| IsStart(db, subject, s) && Reaches(Edge(db), s, n);
      ReachesSelf(Edge(db), s);
      ReachesSelf(EdgeWithin(db, deps), s);
      forall x, y | Reaches(Edge(db), s, x) && Reaches(EdgeWithin(db, deps), s, x) && DependsOn(db, x, y)
        ensures Reaches(Edge(db), s, y) && Reaches(EdgeWithin(db, deps), s, y)
      {
        ReachesExtend(Edge(db), s, x, y);
        assert InClosure(db, subject, x) && InClosure(db, subject, y);
        ReachesExtend(EdgeWithin(db, deps), s, x, y);
      }
      ReachesInduction(Edge(db), x => Reaches(Edge(db), s, x) && Reaches(EdgeWithin(db, deps), s, x), s, n);
    }
  }

  lemma SelfSupportingInClosure(db: Db, subject: Entity, deps: seq<Entity>, n: Entity)
    requires SelfSupporting(db, subject, deps) && n in deps
    ensures InClosure(db, subject, n)
  {
    hide SelfSupporting, IsStart, Reaches;
    var s := SupportingStart(db, subject, deps, n);
    ReachesMonotone(EdgeWithin(db, deps), Edge(db), s, n);
  }

  /** The evidence a dependency list records is the same in both states: contents, and the
      statuses of inferences. Claim and route statuses do not carry any edge. */
  ghost predicate SameEvidence(d0: Db, d1: Db, deps: seq<Entity>) {
    forall e | e in deps ::
      SameSubject(d0, d1, e) && (e.kind == InferenceKind ==> EntityStatus(d0, e) == EntityStatus(d1, e))
  }

  lemma EdgeKept(d0: Db, d1: Db, deps: seq<Entity>, a: Entity, b: Entity)
    requires SameEvidence(d0, d1, deps)
    requires EdgeWithin(d0, deps)(a, b)
    ensures EdgeWithin(d1, deps)(a, b)
  {
    assert SameSubject(d0, d1, a) && SameSubject(d0, d1, b);
  }

  /** Unchanged evidence keeps every recorded path, so the closure can only have grown. */
  lemma ReachedWithinKept(d0: Db, d1: Db, subject: Entity, deps: seq<Entity>, s: Entity, n: Entity)
    requires SameEvidence(d0, d1, deps)
    requires Reaches(EdgeWithin(d0, deps), s, n)
    ensures Reaches(EdgeWithin(d1, deps), s, n)
  {
    forall x, y | EdgeWithin(d0, deps)(x, y) ensures EdgeWithin(d1, deps)(x, y) {
      EdgeKept(d0, d1, deps, x, y);
    }
    ReachesMonotone(EdgeWithin(d0, deps), EdgeWithin(d1, deps), s, n);
  }

  lemma StartKept(d0: Db, d1: Db, subject: Entity, s: Entity)
    requires subject.kind == ObligationKind ==> d0.obligations == d1.obligations
    requires SameSubject(d0, d1, subject) && SameSubject(d0, d1, s)
    requires s.kind == InferenceKind ==> EntityStatus(d0, s) == EntityStatus(d1, s)
    requires IsStart(d0, subject, s)
    ensures IsStart(d1, subject, s)
  {
  }

  /** For an obligation the starts come from its row, which its content does not cover. */
  lemma SupportKept(d0: Db, d1: Db, subject: Entity, deps: seq<Entity>)
    requires subject.kind == ObligationKind ==> d0.obligations == d1.obligations
    requires SameSubject(d0, d1, subject) && SameEvidence(d0, d1, deps)
    requires SelfSupporting(d0, subject, deps)
    ensures SelfSupporting(d1, subject, deps)
  {
    hide SameSubject, IsStart, EntityStatus, Reaches;
    forall n | n in deps ensures ReachedWithin(d1, subject, deps, n) {
      var s := SupportingStart(d0, subject, deps, n);
      StartKept(d0, d1, subject, s);
      ReachedWithinKept(d0, d1, subject, deps, s, n);
    }
  }

  /** The binding's digests were taken in state `w`, where its list supported itself. */
  ghost predicate GroundedIn(h: Hasher, w: Db, e: Entity, b: Binding) {
    && b.subjectDigest == SubjectDigest(h, w, e)
    && b.dependencyDigest == DependencyDigest(h, w, b.dependencies)
    && SelfSupporting(w, e, b.dependencies)
  }

  ghost predicate Grounded(h: Hasher, e: Entity, b: Binding) {
    exists w :: GroundedIn(h, w, e, b)
  }

  /** Two states in which the same binding has the right digests agree on all it covers. */
  lemma EqualDigestsSameEvidence(h: Hasher, d0: Db, d1: Db, e: Entity, b: Binding)
    requires CollisionFree(h)
    requires b.subjectDigest == SubjectDigest(h, d0, e) == SubjectDigest(h, d1, e)
    requires b.dependencyDigest == DependencyDigest(h, d0, b.dependencies) == DependencyDigest(h, d1, b.dependencies)
    ensures SameSubject(d0, d1, e)
    ensures forall n | n in b.dependencies :: SameSubject(d0, d1, n) && EntityStatus(d0, n) == EntityStatus(d1, n)
  {
    SubjectDigestInjective(h, d0, d1, e);
    DependencyDigestInjective(h, d0, map[], d1, map[], b.dependencies);
    forall n | n in b.dependencies ensures SameSubject(d0, d1, n) && EntityStatus(d0, n) == EntityStatus(d1, n) {
      assert StatusUnder(d0, map[], n) == StatusUnder(d1, map[], n);
    }
  }

  /** Everything a current claim, inference or route binding lists is in the closure computed now. */
  lemma CurrentBindingInClosure(h: Hasher, db: Db, sha: string, e: Entity, b: Binding)
    requires CollisionFree(h) && e.kind != ObligationKind
    requires Grounded(h, e, b) && BindingCurrent(h, db, sha, e, b)
    ensures SelfSupporting(db, e, b.dependencies)
    ensures forall n | n in b.dependencies :: InClosure(db, e, n)
  {
    var w :| GroundedIn(h, w, e, b);
    EqualDigestsSameEvidence(h, w, db, e, b);
    SupportKept(w, db, e, b.dependencies);
    forall n | n in b.dependencies ensures InClosure(db, e, n) {
      SelfSupportingInClosure(db, e, b.dependencies, n);
    }
  }

  lemma InClosureAlong(d0: Db, d1: Db, e: Entity, deps: seq<Entity>, s: Entity, n: Entity)
    requires SameEvidence(d0, d1, deps)
    requires InClosure(d1, e, s) && Reaches(EdgeWithin(d0, deps), s, n)
    ensures InClosure(d1, e, n)
  {
    forall x, y | InClosure(d1, e, x) && EdgeWithin(d0, deps)(x, y) ensures InClosure(d1, e, y) {
      EdgeKept(d0, d1, deps, x, y);
      var t :| IsStart(d1, e, t) && Reaches(Edge(d1), t, x);
      ReachesExtend(Edge(d1), t, x, y);
    }
    ReachesInduction(EdgeWithin(d0, deps), x => InClosure(d1, e, x), s, n);
  }

  lemma StartsInClosure(db: Db, subject: Entity, s: Entity)
    requires IsStart(db, subject, s)
    ensures InClosure(db, subject, s)
  {
    ReachesSelf(Edge(db), s);
  }

  /** Of the entities an obligation's binding lists, those its record started from in the state that
      grounds the binding decide whether the whole list is in the closure. */
  ghost predicate DecidedByStarts(w: Db, db: Db, e: Entity, deps: seq<Entity>) {
    (forall n | n in deps :: InClosure(db, e, n)) <==> (forall s | s in deps && IsStart(w, e, s) :: InClosure(db, e, s))
  }

  /** For an obligation the subject digest does not cover the resolution record the closure
      starts from. Its stored list is still in the closure exactly when every listed entity the
      record then started from still is. */
  lemma CurrentObligationBinding(h: Hasher, w: Db, db: Db, sha: string, e: Entity, b: Binding)
    requires CollisionFree(h) && e.kind == ObligationKind
    requires GroundedIn(h, w, e, b) && BindingCurrent(h, db, sha, e, b)
    ensures DecidedByStarts(w, db, e, b.dependencies)
  {
    hide SelfSupporting, InClosure, IsStart, SameSubject, EntityStatus;
    EqualDigestsSameEvidence(h, w, db, e, b);
    if forall s | s in b.dependencies && IsStart(w, e, s) :: InClosure(db, e, s) {
      ListKeptFromStarts(w, db, e, b.dependencies);
    }
  }

  lemma ListKeptFromStarts(w: Db, db: Db, e: Entity, deps: seq<Entity>)
    requires SelfSupporting(w, e, deps) && SameEvidence(w, db, deps)
    requires forall s | s in deps && IsStart(w, e, s) :: InClosure(db, e, s)
    ensures forall n | n in deps :: InClosure(db, e, n)
  {
    hide *;
    forall n | n in deps ensures InClosure(db, e, n) {
      var s := SupportingStart(w, e, deps, n);
      InClosureAlong(w, db, e, deps, s, n);
    }
  }

  /** The obligation's resolution record still names every claim, inference and route it named. */
  predicate RecordKept(d0: Db, d1: Db, o: string) {
    o in d0.obligations ==>
      && o in d1.obligations
      && var r0, r1 := d0.obligations[o].resolution, d1.obligations[o].resolution;
         && (forall c | c in r0.claimIds :: c in r1.claimIds)
         && (forall i | i in r0.inferenceIds :: i in r1.inferenceIds)
         && (forall r | r in r0.routeIds :: r in r1.routeIds)
  }

  lemma RecordKeptTransitive(d0: Db, d1: Db, d2: Db, o: string)
    requires RecordKept(d0, d1, o) && RecordKept(d1, d2, o)
    ensures RecordKept(d0, d2, o)
  {
  }

  /** What an edit can be checked for: while the record keeps naming what it named, a current
      obligation binding lists only entities of the closure. */
  lemma ObligationListKept(h: Hasher, w: Db, db: Db, sha: string, e: Entity, b: Binding)
    requires CollisionFree(h) && e.kind == ObligationKind
    requires GroundedIn(h, w, e, b) && BindingCurrent(h, db, sha, e, b)
    requires RecordKept(w, db, e.id)
    ensures forall n | n in b.dependencies :: InClosure(db, e, n)
  {
    EqualDigestsSameEvidence(h, w, db, e, b);
    hide SelfSupporting, InClosure, EntityStatus, DependencyDigest, SubjectDigest;
    forall s | s in b.dependencies && IsStart(w, e, s) ensures InClosure(db, e, s) {
      StartsInClosure(db, e, s);
    }
    CurrentObligationBinding(h, w, db, sha, e, b);
  }

  /** Grounded, for an obligation in a state whose record the present one keeps. */
  ghost predicate Anchored(h: Hasher, db: Db, e: Entity, b: Binding) {
    exists w :: GroundedIn(h, w, e, b) && (e.kind == ObligationKind ==> RecordKept(w, db, e.id))
  }

  /** An anchored current binding of any kind lists only entities of the closure. */
  lemma AnchoredBindingInClosure(h: Hasher, db: Db, sha: string, e: Entity, b: Binding)
    requires CollisionFree(h) && Anchored(h, db, e, b) && BindingCurrent(h, db, sha, e, b)
    ensures forall n | n in b.dependencies :: InClosure(db, e, n)
  {
    hide GroundedIn, BindingCurrent, RecordKept, InClosure;
    var w :| GroundedIn(h, w, e, b) && (e.kind == ObligationKind ==> RecordKept(w, db, e.id));
    if e.kind == ObligationKind {
      ObligationListKept(h, w, db, sha, e, b);
    } else {
      CurrentBindingInClosure(h, db, sha, e, b);
    }
  }

  lemma SupportingStart(db: Db, subject: Entity, deps: seq<Entity>, n: Entity) returns (s: Entity)
    requires SelfSupporting(db, subject, deps) && n in deps
    ensures s in deps && IsStart(db, subject, s) && Reaches(EdgeWithin(db, deps), s, n)
  {
    s :| s in deps && IsStart(db, subject, s) && Reaches(EdgeWithin(db, deps), s, n);
  }

  const RefutedByClaim := Obligation("", "", "gap", "gap", "blocking", Refuted, Resolution(["c"], [], [], []))

  const RefutedByNothing := RefutedByClaim.(resolution := Resolution([], [], [], []))

  function StateWith(o: Obligation): Db {
    Db(map[], map[], map[], map["o" := o], map[])
  }

  lemma ExampleClosures()
    ensures InClosure(StateWith(RefutedByClaim), Entity(ObligationKind, "o"), Entity(ClaimKind, "c"))
    ensures !InClosure(StateWith(RefutedByNothing), Entity(ObligationKind, "o"), Entity(ClaimKind, "c"))
  {
    var e, n := Entity(ObligationKind, "o"), Entity(ClaimKind, "c");
    assert "c" in RefutedByClaim.resolution.claimIds;
    StartsInClosure(StateWith(RefutedByClaim), e, n);
    forall s ensures !IsStart(StateWith(RefutedByNothing), e, s) {
      OwnerListMember("", "", s);
    }
  }

  lemma ExampleDigests(h: Hasher, deps: seq<Entity>)
    requires CollisionFree(h)
    ensures var w, db, e := StateWith(RefutedByClaim), StateWith(RefutedByNothing), Entity(ObligationKind, "o");
      && SubjectDigest(h, w, e) == SubjectDigest(h, db, e)
      && DependencyDigest(h, w, deps) == DependencyDigest(h, db, deps)
      && BindingStatusCurrent(db, e, Refuted)
  {
    var w, db := StateWith(RefutedByClaim), StateWith(RefutedByNothing);
    forall n | n in deps ensures SameSubject(w, db, n) && StatusUnder(w, map[], n) == StatusUnder(db, map[], n) {}
    DependencyDigestInjective(h, w, map[], db, map[], deps);
  }

  /** The condition can fail: dropping a claim from the resolution record of a refuted
      obligation leaves its binding current while the listed claim is no longer a dependency. */
  lemma ObligationListCanGoStale(h: Hasher, reviewer: Reviewer) returns (w: Db, db: Db, e: Entity, b: Binding)
    requires CollisionFree(h)
    ensures GroundedIn(h, w, e, b) && b.dependencies == ClosureOf(w, e)
    ensures BindingCurrent(h, db, "", e, b)
    ensures exists n :: n in b.dependencies && !InClosure(db, e, n)
  {
    e := Entity(ObligationKind, "o");
    w, db := StateWith(RefutedByClaim), StateWith(RefutedByNothing);
    var deps := ClosureOf(w, e);
    b := Binding(1, SubjectDigest(h, w, e), DependencyDigest(h, w, deps), deps, "", Refuted, 0, reviewer, []);
    ClosureSupportsItself(w, e);
    ExampleClosures();
    ExampleDigests(h, deps);
    hide InClosure, SelfSupporting, StateWith, EntityStatus, DependencyDigest, SubjectDigest;
    assert Entity(ClaimKind, "c") in b.dependencies;
  }
}
