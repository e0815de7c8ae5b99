/** Transitive proof dependencies: the closure a certificate is bound to. */
module Closure {
  import opened Ordering
  import opened Graphs
  import opened ProofTables

  function InferencesOfRoute(db: Db, routeId: string): set<string> {
    set i | i in db.inferences && db.inferences[i].routeId == routeId
  }

  function VerifiedDerivations(db: Db, claimId: string): set<string> {
    set i | i in db.inferences && db.inferences[i].conclusion == claimId && Verified(db.inferences[i].validation)
  }

  function Entities(kind: Kind, ids: seq<string>): seq<Entity> {
    seq(|ids|, k requires 0 <= k < |ids| => Entity(kind, ids[k]))
  }

  /** The entities one call of `add` recurses into, in order. */
  function SuccessorList(db: Db, e: Entity): seq<Entity> {
    match e.kind
    case RouteKind => Entities(InferenceKind, SortedIds(InferencesOfRoute(db, e.id)))
    case ClaimKind => Entities(InferenceKind, SortedIds(VerifiedDerivations(db, e.id)))
    case InferenceKind =>
      if e.id !in db.inferences then [] else
        Entities(ClaimKind, db.inferences[e.id].premises + db.inferences[e.id].conditionClaims)
    case ObligationKind => []
  }

  /** The entities the closure of a subject starts from, in order. */
  function StartList(db: Db, subject: Entity): seq<Entity> {
    match subject.kind
    case RouteKind => [subject]
    case InferenceKind => SuccessorList(db, subject)
    case ClaimKind => SuccessorList(db, subject)
    case ObligationKind =>
      if subject.id !in db.obligations then [] else
        var o := db.obligations[subject.id];
        OwnerList(o.ownerType, o.ownerId)
        + Entities(ClaimKind, o.resolution.claimIds)
        + Entities(InferenceKind, o.resolution.inferenceIds)
        + Entities(RouteKind, o.resolution.routeIds)
  }

  function OwnerList(ownerType: string, ownerId: string): seq<Entity> {
    if ownerType == "claim" then [Entity(ClaimKind, ownerId)]
    else if ownerType == "route" then [Entity(RouteKind, ownerId)]
    else if ownerType == "inference" then [Entity(InferenceKind, ownerId)]
    else []
  }

  /** The dependency edges, stated on the rows: a route to each of its inferences, a claim
      to each of its verified derivations, an inference to its premises and conditions. */
  predicate DependsOn(db: Db, a: Entity, b: Entity) {
    && b.id != ""
    && match (a.kind, b.kind)
       case (RouteKind, InferenceKind) => b.id in db.inferences && db.inferences[b.id].routeId == a.id
       case (ClaimKind, InferenceKind) =>
         b.id in db.inferences && db.inferences[b.id].conclusion == a.id && Verified(db.inferences[b.id].validation)
       case (InferenceKind, ClaimKind) => a.id in db.inferences && Uses(db.inferences[a.id], b.id)
       case _ => false
  }

  predicate Uses(i: Inference, claimId: string) {
    claimId in i.premises || claimId in i.conditionClaims
  }

  /** Where the closure of a subject starts. */
  predicate IsStart(db: Db, subject: Entity, b: Entity) {
    && b.id != ""
    && match subject.kind
       case RouteKind => b == subject
       case ObligationKind =>
         subject.id in db.obligations &&
         var o := db.obligations[subject.id];
         || (b.id == o.ownerId && o.ownerType == KindName(b.kind) && b.kind != ObligationKind)
         || (b.kind == ClaimKind && b.id in o.resolution.claimIds)
         || (b.kind == InferenceKind && b.id in o.resolution.inferenceIds)
         || (b.kind == RouteKind && b.id in o.resolution.routeIds)
       case _ => DependsOn(db, subject, b)
  }

  function KindName(k: Kind): string {
    match k
    case ClaimKind => "claim"
    case InferenceKind => "inference"
    case ObligationKind => "proof_obligation"
    case RouteKind => "route"
  }

  ghost function Edge(db: Db): (Entity, Entity) -> bool {
    (a: Entity, b: Entity) => DependsOn(db, a, b)
  }

  ghost predicate InClosure(db: Db, subject: Entity, n: Entity) {
    exists s :: IsStart(db, subject, s) && Reaches(Edge(db), s, n)
  }

  /** The closure as a list in ascending key order. */
  ghost function ClosureOf(db: Db, subject: Entity): (ids: seq<Entity>)
    ensures Ascending(EntityLeq, ids) && NoDuplicates(ids)
    ensures forall n :: n in ids <==> InClosure(db, subject, n)
  {
    var members := set n | n in Targets(db) + Elements(StartList(db, subject)) && InClosure(db, subject, n);
    ClosureIsFinite(db, subject);
    var ids := SortedEntities(members);
    assert forall n :: n in ids <==> n in Elements(ids);
    ids
  }

  lemma ClosureIsFinite(db: Db, subject: Entity)
    ensures forall n | InClosure(db, subject, n) :: n in Targets(db) + Elements(StartList(db, subject))
  {
    forall n | InClosure(db, subject, n) ensures n in Targets(db) + Elements(StartList(db, subject)) {
      var s :| IsStart(db, subject, s) && Reaches(Edge(db), s, n);
      var m := ReachesLast(Edge(db), s, n);
      if s == n {
        StartListIsStart(db, subject, n);
      } else {
        EdgeIntoTargets(db, m, n);
      }
    }
  }

  /** Every entity a dependency edge can lead to. */
  function Targets(db: Db): set<Entity> {
    (set i | i in db.inferences :: Entity(InferenceKind, i))
    + (set i, c | i in db.inferences && c in db.inferences[i].premises + db.inferences[i].conditionClaims ::
         Entity(ClaimKind, c))
  }

  lemma EntitiesMember(kind: Kind, ids: seq<string>, e: Entity)
    ensures e in Entities(kind, ids) <==> e.kind == kind && e.id in ids
  {
    if e.kind == kind && e.id in ids {
      var k :| 0 <= k < |ids| && ids[k] == e.id;
      assert Entities(kind, ids)[k] == e;
    }
  }

  lemma SuccessorListIsEdge(db: Db, a: Entity, b: Entity)
    requires b.id != ""
    ensures b in SuccessorList(db, a) <==> DependsOn(db, a, b)
  {
    match a.kind
    case RouteKind =>
      EntitiesMember(InferenceKind, SortedIds(InferencesOfRoute(db, a.id)), b);
      assert b.id in SortedIds(InferencesOfRoute(db, a.id))
        <==> b.id in Elements(SortedIds(InferencesOfRoute(db, a.id)));
    case ClaimKind =>
      EntitiesMember(InferenceKind, SortedIds(VerifiedDerivations(db, a.id)), b);
      assert b.id in SortedIds(VerifiedDerivations(db, a.id))
        <==> b.id in Elements(SortedIds(VerifiedDerivations(db, a.id)));
    case InferenceKind =>
      if a.id in db.inferences {
        EntitiesMember(ClaimKind, db.inferences[a.id].premises + db.inferences[a.id].conditionClaims, b);
      }
    case ObligationKind =>
  }

  lemma StartListIsStart(db: Db, subject: Entity, b: Entity)
    requires b.id != ""
    ensures b in StartList(db, subject) <==> IsStart(db, subject, b)
  {
    match subject.kind
    case RouteKind =>
    case InferenceKind => SuccessorListIsEdge(db, subject, b);
    case ClaimKind => SuccessorListIsEdge(db, subject, b);
    case ObligationKind =>
      if subject.id in db.obligations {
        var o := db.obligations[subject.id];
        EntitiesMember(ClaimKind, o.resolution.claimIds, b);
        EntitiesMember(InferenceKind, o.resolution.inferenceIds, b);
        EntitiesMember(RouteKind, o.resolution.routeIds, b);
        OwnerListMember(o.ownerType, o.ownerId, b);
      }
  }

  lemma OwnerListMember(ownerType: string, ownerId: string, b: Entity)
    ensures b in OwnerList(ownerType, ownerId)
       <==> b.id == ownerId && ownerType == KindName(b.kind) && b.kind != ObligationKind
  {
    assert "claim"[0] != "inference"[0] && "claim"[0] != "route"[0] && "inference"[0] != "route"[0];
  }

  lemma EdgeIntoTargets(db: Db, a: Entity, b: Entity)
    requires DependsOn(db, a, b)
    ensures b in Targets(db)
  {
    if a.kind == InferenceKind {
      assert b.id in db.inferences[a.id].premises + db.inferences[a.id].conditionClaims;
    }
  }

  /** The depth-first walk: `ordered` and `seen` are shared by all activations of Add. */
  class Walk {
    const db: Db
    var ordered: seq<Entity>
    var seen: set<Entity>

    constructor (db: Db)
      ensures this.db == db && ordered == [] && seen == {}
    {
      this.db := db;
      ordered := [];
      seen := {};
    }

    ghost predicate Valid()
      reads this
    {
      seen == Elements(ordered) && NoDuplicates(ordered)
    }

    /** Adds `e` and all it depends on that is not yet seen. When the call returns, every
        entity it added has all its dependencies in `seen`, cycles included. */
    method Add(e: Entity, ghost universe: set<Entity>)
      requires Valid() && seen <= universe
      requires Targets(db) <= universe && (e.id != "" ==> e in universe)
      modifies this
      ensures Valid() && old(seen) <= seen <= universe
      ensures if e.id == "" then seen == old(seen) else e in seen
      ensures forall n | n in seen - old(seen) :: n.id != "" && Reaches(Edge(db), e, n)
      ensures forall n, m | n in seen - old(seen) && DependsOn(db, n, m) :: m in seen
      decreases universe - seen, 0
    {
      if e.id == "" || e in seen {
        return;
      }
      hide DependsOn, SuccessorList, Targets, Reaches;
      ghost var before := seen;
      seen := seen + {e};
      ordered := ordered + [e];
      assert seen == Elements(ordered);
      ReachesSelf(Edge(db), e);
      var next := SuccessorList(db, e);
      for k := 0 to |next|
        invariant Valid() && before + {e} <= seen <= universe
        invariant forall j | 0 <= j < k && next[j].id != "" :: next[j] in seen
        invariant forall n | n in seen - before :: n.id != "" && Reaches(Edge(db), e, n)
        invariant forall n, m | n in seen - before - {e} && DependsOn(db, n, m) :: m in seen
      {
        if next[k].id != "" {
          SuccessorListIsEdge(db, e, next[k]);
          EdgeIntoTargets(db, e, next[k]);
        }
        ghost var inner := seen;
        Add(next[k], universe);
        forall n | n in seen - before ensures n.id != "" && Reaches(Edge(db), e, n) {
          if n !in inner {
            ReachesPrepend(Edge(db), e, next[k], n);
          }
        }
      }
      forall m | DependsOn(db, e, m) ensures m in seen {
        SuccessorListIsEdge(db, e, m);
      }
    }
  }

  /** A walk that has added every start and all that its members depend on holds the closure. */
  lemma WalkIsClosure(db: Db, subject: Entity, starts: seq<Entity>, collected: set<Entity>)
    requires starts == StartList(db, subject)
    requires forall j | 0 <= j < |starts| && starts[j].id != "" :: starts[j] in collected
    requires forall n | n in collected :: InClosure(db, subject, n)
    requires forall n, m | n in collected && DependsOn(db, n, m) :: m in collected
    ensures SortedEntities(collected) == ClosureOf(db, subject)
  {
    var ids := SortedEntities(collected);
    forall n ensures n in ids <==> InClosure(db, subject, n) {
      assert n in ids <==> n in Elements(ids);
      if InClosure(db, subject, n) {
        var s :| IsStart(db, subject, s) && Reaches(Edge(db), s, n);
        StartListIsStart(db, subject, s);
        ReachesInduction(Edge(db), x => x in collected, s, n);
      }
    }
    EntityTotalOrder();
    AscendingUnique(EntityLeq, ids, ClosureOf(db, subject));
  }

  lemma StartReaches(db: Db, subject: Entity, s: Entity, n: Entity)
    requires s in StartList(db, subject) && s.id != "" && Reaches(Edge(db), s, n)
    ensures InClosure(db, subject, n)
  {
    StartListIsStart(db, subject, s);
  }

  /** dependency_closure_ids: exactly what is reachable from the subject's starting
      entities, in ascending key order and without repetition. */
  method DependencyClosureIds(db: Db, subject: Entity) returns (ids: seq<Entity>)
    ensures forall n :: n in ids <==> InClosure(db, subject, n)
    ensures Ascending(EntityLeq, ids)
    ensures ids == ClosureOf(db, subject)
  {
    var starts := StartList(db, subject);
    hide DependsOn, StartList, IsStart, InClosure, Targets;
    var walk := new Walk(db);
    ghost var universe := Targets(db) + Elements(starts);
    for k := 0 to |starts|
      invariant walk.Valid() && walk.db == db && walk.seen <= universe
      invariant forall j | 0 <= j < k && starts[j].id != "" :: starts[j] in walk.seen
      invariant forall n | n in walk.seen :: InClosure(db, subject, n)
      invariant forall n, m | n in walk.seen && DependsOn(db, n, m) :: m in walk.seen
    {
      ghost var before := walk.seen;
      walk.Add(starts[k], universe);
      forall n | n in walk.seen ensures InClosure(db, subject, n) {
        if n !in before {
          StartReaches(db, subject, starts[k], n);
        }
      }
    }
    ids := SortedEntities(walk.seen);
    WalkIsClosure(db, subject, starts, walk.seen);
  }
}
