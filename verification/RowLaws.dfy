/** The certificate passes restated on the rows: what they reach as least sets, and what they leave
    in every row, without the functions that compute it. */
module RowLaws {
  import opened Ordering
  import opened Graphs
  import opened ProofTables
  import opened Closure
  import opened Invalidation
  import opened Currency

  // ----- The closure -----

  /** `s` holds everything the subject directly rests on. */
  ghost predicate HoldsStarts(db: Db, subject: Entity, s: set<Entity>) {
    match subject.kind
    case RouteKind => subject.id != "" ==> subject in s
    case ClaimKind => HoldsDerivations(db, subject.id, s)
    case InferenceKind => HoldsPremises(db, subject.id, s)
    case ObligationKind =>
      subject.id in db.obligations ==>
        var o := db.obligations[subject.id];
        && (o.ownerId != "" && o.ownerType == "claim" ==> Entity(ClaimKind, o.ownerId) in s)
        && (o.ownerId != "" && o.ownerType == "route" ==> Entity(RouteKind, o.ownerId) in s)
        && (o.ownerId != "" && o.ownerType == "inference" ==> Entity(InferenceKind, o.ownerId) in s)
        && (forall c | c in o.resolution.claimIds && c != "" :: Entity(ClaimKind, c) in s)
        && (forall i | i in o.resolution.inferenceIds && i != "" :: Entity(InferenceKind, i) in s)
        && (forall r | r in o.resolution.routeIds && r != "" :: Entity(RouteKind, r) in s)
  }

  /** `s` holds every verified derivation of the claim. */
  ghost predicate HoldsDerivations(db: Db, c: string, s: set<Entity>) {
    forall i | i in db.inferences && i != "" && db.inferences[i].conclusion == c
               && (db.inferences[i].validation == InformallyVerified
                   || db.inferences[i].validation == FormallyVerified) ::
      Entity(InferenceKind, i) in s
  }

  /** `s` holds every premise and every condition of the inference. */
  ghost predicate HoldsPremises(db: Db, i: string, s: set<Entity>) {
    i in db.inferences ==>
      && (forall c | c in db.inferences[i].premises && c != "" :: Entity(ClaimKind, c) in s)
      && (forall c | c in db.inferences[i].conditionClaims && c != "" :: Entity(ClaimKind, c) in s)
  }

  /** `s` holds everything the entity directly rests on. */
  ghost predicate HoldsNext(db: Db, n: Entity, s: set<Entity>) {
    && (n.kind == ClaimKind ==> HoldsDerivations(db, n.id, s))
    && (n.kind == InferenceKind ==> HoldsPremises(db, n.id, s))
    && (n.kind == RouteKind ==>
          forall i | i in db.inferences && i != "" && db.inferences[i].routeId == n.id :: Entity(InferenceKind, i) in s)
  }

  ghost predicate ClosedUnderDependency(db: Db, s: set<Entity>) {
    forall n | n in s :: HoldsNext(db, n, s)
  }

  /** The closure is the least set that holds what the subject directly rests on and is closed. */
  lemma ClosureIsLeast(db: Db, subject: Entity)
    ensures var closure := Elements(ClosureOf(db, subject));
            HoldsStarts(db, subject, closure) && ClosedUnderDependency(db, closure)
    ensures forall s | HoldsStarts(db, subject, s) && ClosedUnderDependency(db, s) ::
              Elements(ClosureOf(db, subject)) <= s
  {
    var closure := Elements(ClosureOf(db, subject));
    assert forall n :: n in closure <==> InClosure(db, subject, n);
    hide ClosureOf;
    ClosureHolds(db, subject, closure);
    forall s | HoldsStarts(db, subject, s) && ClosedUnderDependency(db, s) ensures closure <= s {
      forall n | n in closure ensures n in s {
        HoldsClosure(db, subject, s, n);
      }
    }
  }

  lemma ClosureHolds(db: Db, subject: Entity, closure: set<Entity>)
    requires forall n :: n in closure <==> InClosure(db, subject, n)
    ensures HoldsStarts(db, subject, closure) && ClosedUnderDependency(db, closure)
  {
    forall n | IsStart(db, subject, n) ensures n in closure {
      ReachesSelf(Edge(db), n);
    }
    forall n, m | n in closure && DependsOn(db, n, m) ensures m in closure {
      var s :| IsStart(db, subject, s) && Reaches(Edge(db), s, n);
      ReachesExtend(Edge(db), s, n, m);
    }
    hide InClosure, Reaches;
    EdgesAreHeld(db, closure);
    StartsAreHeld(db, subject, closure);
  }

  lemma EdgesAreHeld(db: Db, s: set<Entity>)
    ensures (forall n, m | n in s && DependsOn(db, n, m) :: m in s) <==> ClosedUnderDependency(db, s)
  {
    forall n | n in s ensures (forall m | DependsOn(db, n, m) :: m in s) <==> HoldsNext(db, n, s) {
      NextAreHeld(db, n, s);
    }
    hide DependsOn, HoldsNext;
  }

  lemma NextAreHeld(db: Db, n: Entity, s: set<Entity>)
    ensures (forall m | DependsOn(db, n, m) :: m in s) <==> HoldsNext(db, n, s)
  {
    if forall m | DependsOn(db, n, m) :: m in s {
      forall i | i in db.inferences && DependsOn(db, n, Entity(InferenceKind, i))
        ensures Entity(InferenceKind, i) in s
      {
      }
      forall c | DependsOn(db, n, Entity(ClaimKind, c)) ensures Entity(ClaimKind, c) in s {}
    }
  }

  lemma StartsAreHeld(db: Db, subject: Entity, s: set<Entity>)
    ensures (forall m | IsStart(db, subject, m) :: m in s) <==> HoldsStarts(db, subject, s)
  {
    match subject.kind
    case ClaimKind => NextAreHeld(db, subject, s);
    case InferenceKind => NextAreHeld(db, subject, s);
    case RouteKind =>
      if forall m | IsStart(db, subject, m) :: m in s {
        assert subject.id != "" ==> IsStart(db, subject, subject);
      }
    case ObligationKind =>
      if forall m | IsStart(db, subject, m) :: m in s {
        forall id ensures IsStart(db, subject, Entity(ClaimKind, id)) ==> Entity(ClaimKind, id) in s {}
        forall id ensures IsStart(db, subject, Entity(InferenceKind, id)) ==> Entity(InferenceKind, id) in s {}
        forall id ensures IsStart(db, subject, Entity(RouteKind, id)) ==> Entity(RouteKind, id) in s {}
      }
      if HoldsStarts(db, subject, s) {
        forall m | IsStart(db, subject, m) ensures m in s {
          assert m == Entity(m.kind, m.id);
        }
      }
  }

  lemma HoldsClosure(db: Db, subject: Entity, s: set<Entity>, n: Entity)
    requires HoldsStarts(db, subject, s) && ClosedUnderDependency(db, s) && InClosure(db, subject, n)
    ensures n in s
  {
    EdgesAreHeld(db, s);
    StartsAreHeld(db, subject, s);
    hide HoldsStarts, ClosedUnderDependency, IsStart, DependsOn;
    var start :| IsStart(db, subject, start) && Reaches(Edge(db), start, n);
    ReachesInduction(Edge(db), x => x in s, start, n);
  }

  // ----- Invalidation -----

  /** `s` holds the named claims and the conclusions of the named inferences. */
  ghost predicate HoldsChanged(db: Db, cc: seq<string>, ci: seq<string>, s: set<string>) {
    && (forall c | c in cc && c != "" :: c in s)
    && (forall i | i in ci && i != "" && i in db.inferences :: db.inferences[i].conclusion in s)
  }

  /** `s` holds the conclusion of every inference, of whatever status, that uses one of its claims. */
  ghost predicate ClosedUnderUse(db: Db, s: set<string>) {
    forall i, c | i in db.inferences && (c in db.inferences[i].premises || c in db.inferences[i].conditionClaims)
                  && c in s ::
      db.inferences[i].conclusion in s
  }

  /** What invalidation reaches is the least set that holds the changes and is closed. */
  lemma ReachedIsLeast(db: Db, cc: seq<string>, ci: seq<string>)
    ensures HoldsChanged(db, cc, ci, Reached(db, cc, ci)) && ClosedUnderUse(db, Reached(db, cc, ci))
    ensures forall s | HoldsChanged(db, cc, ci, s) && ClosedUnderUse(db, s) :: Reached(db, cc, ci) <= s
  {
    hide *;
    ReachedHolds(db, cc, ci);
    forall s | HoldsChanged(db, cc, ci, s) && ClosedUnderUse(db, s) ensures Reached(db, cc, ci) <= s {
      HoldsReached(db, cc, ci, s);
    }
  }

  lemma ReachedHolds(db: Db, cc: seq<string>, ci: seq<string>)
    ensures HoldsChanged(db, cc, ci, Reached(db, cc, ci)) && ClosedUnderUse(db, Reached(db, cc, ci))
  {
    var seeds, reached := Seeds(db, cc, ci), Reached(db, cc, ci);
    forall c | c in seeds ensures c in reached { FromStart(Downstream(db), seeds, c); }
    SeedsAreHeld(db, cc, ci, reached);
    forall i, c | i in db.inferences && Uses(db.inferences[i], c) && c in reached
      ensures db.inferences[i].conclusion in reached
    {
      assert Supports(db, c, db.inferences[i].conclusion);
      FromExtend(Downstream(db), seeds, c, db.inferences[i].conclusion);
    }
    hide Reached, Seeds, HoldsChanged, ReachesFrom;
  }

  lemma HoldsReached(db: Db, cc: seq<string>, ci: seq<string>, s: set<string>)
    requires HoldsChanged(db, cc, ci, s) && ClosedUnderUse(db, s)
    ensures Reached(db, cc, ci) <= s
  {
    SeedsAreHeld(db, cc, ci, s);
    forall a, b | a in s && Downstream(db)(a, b) ensures b in s {
      var i :| i in db.inferences && Uses(db.inferences[i], a) && db.inferences[i].conclusion == b;
    }
    hide Seeds, HoldsChanged, ClosedUnderUse, ReachesFrom;
    forall c | c in Reached(db, cc, ci) ensures c in s {
      FromInduction(Downstream(db), x => x in s, Seeds(db, cc, ci), c);
    }
  }

  lemma SeedsAreHeld(db: Db, cc: seq<string>, ci: seq<string>, s: set<string>)
    ensures HoldsChanged(db, cc, ci, s) <==> Seeds(db, cc, ci) <= s
  {
    if Seeds(db, cc, ci) <= s {
      forall i | i in ci && i != "" && i in db.inferences ensures db.inferences[i].conclusion in s {
        assert db.inferences[i].conclusion in Conclusions(db, Nonempty(ci));
      }
    }
  }

  /** The validation is one of the two verified ones. */
  ghost predicate HasVerified(v: Status) {
    v == InformallyVerified || v == FormallyVerified
  }

  /** Every row after an invalidation: a reached verified claim is challenged and no longer integrated,
      a verified inference that was named or uses a reached claim is challenged, an integrated route
      concluding a reached claim is active; nothing else differs in any table. */
  lemma InvalidatedRows(db: Db, cc: seq<string>, ci: seq<string>)
    ensures var after := Invalidated(db, cc, ci);
      && after.claims.Keys == db.claims.Keys && after.inferences.Keys == db.inferences.Keys
      && after.routes.Keys == db.routes.Keys
      && after.obligations == db.obligations && after.artifacts == db.artifacts
    ensures forall c | c in db.claims ::
      var c0, c1 := db.claims[c], Invalidated(db, cc, ci).claims[c];
      if HasVerified(c0.validation) && c in Reached(db, cc, ci) then
        && c1.validation == Challenged && c1.lifecycle != Integrated
        && c1.lifecycle == (if c0.lifecycle == Integrated then Active else c0.lifecycle)
        && c1.kind == c0.kind && c1.statement == c0.statement && c1.hypotheses == c0.hypotheses
        && c1.conditions == c0.conditions && c1.parentIds == c0.parentIds && c1.evidence == c0.evidence
      else c1 == c0
    ensures forall i | i in db.inferences ::
      var i0, i1 := db.inferences[i], Invalidated(db, cc, ci).inferences[i];
      if HasVerified(i0.validation)
         && ((i in ci && i != "")
             || exists c :: c in Reached(db, cc, ci) && (c in i0.premises || c in i0.conditionClaims)) then
        && i1.validation == Challenged
        && i1.routeId == i0.routeId && i1.conclusion == i0.conclusion && i1.premises == i0.premises
        && i1.explanation == i0.explanation && i1.conditions == i0.conditions
        && i1.conditionClaims == i0.conditionClaims && i1.evidence == i0.evidence
      else i1 == i0
    ensures forall r | r in db.routes ::
      var r0, r1 := db.routes[r], Invalidated(db, cc, ci).routes[r];
      if r0.status == Integrated && r0.conclusion in Reached(db, cc, ci) then
        && r1.status == Active
        && r1.conclusion == r0.conclusion && r1.strategy == r0.strategy && r1.relation == r0.relation
        && r1.assumptions == r0.assumptions && r1.conditions == r0.conditions && r1.evidence == r0.evidence
      else r1 == r0
  {
    var reached := Reached(db, cc, ci);
    hide Reached;
    forall i | i in db.inferences
      ensures (exists c :: c in reached && Uses(db.inferences[i], c))
         <==> exists c :: c in reached && (c in db.inferences[i].premises || c in db.inferences[i].conditionClaims)
    {
    }
  }

  /** As a dependency, a revoked claim is challenged whatever it was. */
  lemma RevokedStatus(db: Db, cc: seq<string>, ci: seq<string>, c: string)
    requires c in db.claims && HasVerified(db.claims[c].validation) && c in Reached(db, cc, ci)
    ensures EntityStatus(Invalidated(db, cc, ci), Entity(ClaimKind, c)) == Challenged
  {
    InvalidatedRows(db, cc, ci);
    hide Invalidated, Reached;
  }

  /** No certificate outlives what it lists: a binding that lists a revoked claim or a revoked
      inference is not current after the invalidation, of whatever entity it is. */
  lemma ListedRevocationMakesStale(h: Hasher, db: Db, cc: seq<string>, ci: seq<string>, a: string, e: Entity, n: Entity)
    requires CollisionFree(h) && HasCurrentBinding(h, db, a, e)
    requires n in db.artifacts[a].bindings[e].dependencies
    requires || (n.kind == ClaimKind && n.id in db.claims && HasVerified(db.claims[n.id].validation)
                 && n.id in Reached(db, cc, ci))
             || (n.kind == InferenceKind && n.id in db.inferences && HasVerified(db.inferences[n.id].validation)
                 && ((n.id in ci && n.id != "")
                     || exists c :: c in Reached(db, cc, ci) && (c in db.inferences[n.id].premises
                                                                 || c in db.inferences[n.id].conditionClaims)))
    ensures !HasCurrentBinding(h, Invalidated(db, cc, ci), a, e)
  {
    InvalidatedRows(db, cc, ci);
    hide Invalidated, Reached, HasCurrentBinding;
    var after := Invalidated(db, cc, ci);
    CurrentHasRow(h, db, a, e);
    assert HasRow(db, n) && HasRow(after, n) && !SameStatusFields(db, after, n);
    EditMakesStale(h, db, after, a, e, n);
  }

  lemma CurrentHasRow(h: Hasher, db: Db, a: string, e: Entity)
    requires HasCurrentBinding(h, db, a, e)
    ensures a in db.artifacts && e in db.artifacts[a].bindings
  {
  }
}
