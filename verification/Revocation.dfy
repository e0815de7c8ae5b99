/** What invalidation guarantees about the certificates and routes it leaves standing. */
module Revocation {
  import opened Ordering
  import opened Graphs
  import opened ProofTables
  import opened Closure
  import opened Invalidation
  import opened Integration

  predicate InferenceVerified(db: Db, i: string) {
    i in db.inferences && Verified(db.inferences[i].validation)
  }

  predicate RouteIntegrated(db: Db, r: string) {
    r in db.routes && db.routes[r].status == Integrated
  }

  /** Exactly the reached claims, the changed inferences and the inferences using a reached
      claim lose verification; exactly the routes concluding a reached claim lose integration. */
  lemma RevokedExactly(db: Db, cc: seq<string>, ci: seq<string>)
    ensures var after := Invalidated(db, cc, ci);
      && (forall c :: ClaimVerified(after, c) <==> ClaimVerified(db, c) && !IsReached(db, cc, ci, c))
      && (forall i :: InferenceVerified(after, i) <==>
            InferenceVerified(db, i) && i !in Nonempty(ci)
            && !exists c :: Uses(db.inferences[i], c) && IsReached(db, cc, ci, c))
      && (forall r :: RouteIntegrated(after, r) <==>
            RouteIntegrated(db, r) && !IsReached(db, cc, ci, db.routes[r].conclusion))
  {
    var reached := Reached(db, cc, ci);
    forall i | i in db.inferences
      ensures (exists c :: c in reached && Uses(db.inferences[i], c))
         <==> exists c :: Uses(db.inferences[i], c) && IsReached(db, cc, ci, c)
    {
    }
  }

  /** Invalidation rewrites statuses only: all content, and every status outside the three
      revocations, is as before. */
  lemma ContentKept(db: Db, cc: seq<string>, ci: seq<string>)
    ensures var after := Invalidated(db, cc, ci);
      && (forall e :: SameSubject(db, after, e))
      && (forall c | c in db.claims && !ClaimVerified(db, c) :: after.claims[c] == db.claims[c])
      && (forall i | i in db.inferences && !InferenceVerified(db, i) :: after.inferences[i] == db.inferences[i])
      && (forall r | r in db.routes && !RouteIntegrated(db, r) :: after.routes[r] == db.routes[r])
      && after.obligations == db.obligations && after.artifacts == db.artifacts
  {
  }

  lemma SupportsKept(db: Db, cc: seq<string>, ci: seq<string>)
    ensures forall a, b :: Supports(Invalidated(db, cc, ci), a, b) <==> Supports(db, a, b)
  {
    var after := Invalidated(db, cc, ci);
    forall a, b ensures Supports(after, a, b) <==> Supports(db, a, b) {
      RevokeKeepsStructure(db, Reached(db, cc, ci), Touched(db, ci, Reached(db, cc, ci)));
      if Supports(db, a, b) {
        var i :| i in db.inferences && Uses(db.inferences[i], a) && db.inferences[i].conclusion == b;
        assert i in after.inferences && Uses(after.inferences[i], a) && after.inferences[i].conclusion == b;
      }
      if Supports(after, a, b) {
        var i :| i in after.inferences && Uses(after.inferences[i], a) && after.inferences[i].conclusion == b;
        assert i in db.inferences && Uses(db.inferences[i], a) && db.inferences[i].conclusion == b;
      }
    }
  }

  lemma ReachedIn(d0: Db, d1: Db, seeds: set<string>, c: string)
    requires forall a, b :: Supports(d0, a, b) ==> Supports(d1, a, b)
    requires ReachesFrom(Downstream(d0), seeds, c)
    ensures ReachesFrom(Downstream(d1), seeds, c)
  {
    var a :| a in seeds && Reaches(Downstream(d0), a, c);
    ReachesMonotone(Downstream(d0), Downstream(d1), a, c);
  }

  /** A second run with the same arguments changes nothing and reports nothing. */
  lemma SecondRunChangesNothing(db: Db, cc: seq<string>, ci: seq<string>, report: seq<Change>)
    requires var once := Invalidated(db, cc, ci); Reports(once, Invalidated(once, cc, ci), report)
    ensures Invalidated(Invalidated(db, cc, ci), cc, ci) == Invalidated(db, cc, ci)
    ensures report == []
  {
    var once := Invalidated(db, cc, ci);
    var reached := Reached(db, cc, ci);
    SupportsKept(db, cc, ci);
    RevokeKeepsStructure(db, reached, Touched(db, ci, reached));
    assert Seeds(once, cc, ci) == Seeds(db, cc, ci);
    forall c ensures IsReached(once, cc, ci, c) <==> IsReached(db, cc, ci, c) {
      var seeds := Seeds(db, cc, ci);
      if IsReached(db, cc, ci, c) { ReachedIn(db, once, seeds, c); }
      if IsReached(once, cc, ci, c) { ReachedIn(once, db, seeds, c); }
    }
    assert Reached(once, cc, ci) == reached;
    assert Touched(once, ci, reached) == Touched(db, ci, reached);
    RevokeTwice(db, reached, Touched(db, ci, reached));
    NothingToReport(once, report);
  }

  lemma RevokeTwice(db: Db, cs: set<string>, infs: set<string>)
    ensures Revoke(Revoke(db, cs, infs), cs, infs) == Revoke(db, cs, infs)
  {
    var once := Revoke(db, cs, infs);
    var twice := Revoke(once, cs, infs);
    assert twice.claims == once.claims;
    assert twice.inferences == once.inferences;
    assert twice.routes == once.routes;
  }

  lemma NothingToReport(db: Db, changes: seq<Change>)
    requires Reports(db, db, changes)
    ensures changes == []
  {
    assert forall ch :: ch !in changes;
    assert Elements(changes) == {};
    NoElements(changes);
  }

  /** Where a dependency stands in the invalidation graph. */
  ghost predicate LeadsTo(db: Db, n: Entity, c: string) {
    match n.kind
    case ClaimKind => Reaches(Downstream(db), n.id, c)
    case InferenceKind => n.id in db.inferences && Reaches(Downstream(db), db.inferences[n.id].conclusion, c)
    case _ => false
  }

  lemma LeadsToKept(db: Db, c: string, a: Entity, b: Entity)
    requires LeadsTo(db, a, c) && DependsOn(db, a, b)
    ensures LeadsTo(db, b, c)
  {
    if a.kind == InferenceKind {
      assert Supports(db, b.id, db.inferences[a.id].conclusion);
      ReachesPrepend(Downstream(db), b.id, db.inferences[a.id].conclusion, c);
    }
  }

  /** Invalidation covers certification: whatever a claim's certificate transitively rests on,
      through verified derivations only, leads back to that claim along the unrestricted edges
      that invalidation follows. */
  lemma ClosureIsUpstream(db: Db, c: string, n: Entity)
    requires InClosure(db, Entity(ClaimKind, c), n)
    ensures LeadsTo(db, n, c)
  {
    var s :| IsStart(db, Entity(ClaimKind, c), s) && Reaches(Edge(db), s, n);
    ReachesSelf(Downstream(db), c);
    forall x, y | LeadsTo(db, x, c) && DependsOn(db, x, y) ensures LeadsTo(db, y, c) {
      LeadsToKept(db, c, x, y);
    }
    ReachesInduction(Edge(db), x => LeadsTo(db, x, c), s, n);
  }

  lemma ReachesCompose(db: Db, seeds: set<string>, x: string, c: string)
    requires ReachesFrom(Downstream(db), seeds, x) && Reaches(Downstream(db), x, c)
    ensures ReachesFrom(Downstream(db), seeds, c)
  {
    forall a, b | ReachesFrom(Downstream(db), seeds, a) && Supports(db, a, b)
      ensures ReachesFrom(Downstream(db), seeds, b)
    {
      FromExtend(Downstream(db), seeds, a, b);
    }
    ReachesInduction(Downstream(db), a => ReachesFrom(Downstream(db), seeds, a), x, c);
  }

  /** No claim stays verified while a reached claim, or a changed inference, is among what its
      certificate rested on before the change. */
  lemma DependentClaimsRevoked(db: Db, cc: seq<string>, ci: seq<string>, c: string, n: Entity)
    requires InClosure(db, Entity(ClaimKind, c), n)
    requires (n.kind == ClaimKind && IsReached(db, cc, ci, n.id)) || (n.kind == InferenceKind && n.id in Nonempty(ci))
    ensures !ClaimVerified(Invalidated(db, cc, ci), c)
  {
    var seeds := Seeds(db, cc, ci);
    ClosureIsUpstream(db, c, n);
    if n.kind == ClaimKind {
      ReachesCompose(db, seeds, n.id, c);
    } else {
      FromStart(Downstream(db), seeds, db.inferences[n.id].conclusion);
      ReachesCompose(db, seeds, db.inferences[n.id].conclusion, c);
    }
    RevokedExactly(db, cc, ci);
  }

  /** Inside a closure only verified inferences occur, except those a route names itself. */
  lemma ClosureInferences(db: Db, subject: Entity, j: string)
    requires subject.kind != ObligationKind
    requires InClosure(db, subject, Entity(InferenceKind, j))
    ensures j in db.inferences
    ensures Verified(db.inferences[j].validation)
         || (subject.kind == RouteKind && db.inferences[j].routeId == subject.id)
  {
    var n := Entity(InferenceKind, j);
    var s :| IsStart(db, subject, s) && Reaches(Edge(db), s, n);
    var m := ReachesLast(Edge(db), s, n);
    if s != n && m.kind == RouteKind {
      var k := ReachesLast(Edge(db), s, m);
      assert s == m;
    }
  }

  /** After invalidation no verified claim or inference, whatever it is, has a reached claim
      anywhere in its recomputed closure. */
  lemma NoReachedClaimInside(db: Db, cc: seq<string>, ci: seq<string>, subject: Entity, x: string)
    requires subject.kind == ClaimKind || subject.kind == InferenceKind
    requires IsReached(db, cc, ci, x)
    requires var after := Invalidated(db, cc, ci);
      if subject.kind == ClaimKind then ClaimVerified(after, subject.id) else InferenceVerified(after, subject.id)
    ensures !InClosure(Invalidated(db, cc, ci), subject, Entity(ClaimKind, x))
  {
    var after := Invalidated(db, cc, ci);
    var n := Entity(ClaimKind, x);
    RevokedExactly(db, cc, ci);
    RevokeKeepsStructure(db, Reached(db, cc, ci), Touched(db, ci, Reached(db, cc, ci)));
    if InClosure(after, subject, n) {
      var user := ClosureUser(after, subject, n);
      assert Uses(db.inferences[user], x);
      assert !InferenceVerified(after, user);
      if subject != Entity(InferenceKind, user) {
        ClosureInferences(after, subject, user);
      }
      assert false;
    }
  }

  /** A claim in a closure is there because an inference uses it: the subject itself or an
      inference of the closure. */
  lemma ClosureUser(db: Db, subject: Entity, n: Entity) returns (user: string)
    requires subject.kind != ObligationKind && n.kind == ClaimKind
    requires InClosure(db, subject, n)
    ensures user in db.inferences && Uses(db.inferences[user], n.id) && n.id != ""
    ensures subject == Entity(InferenceKind, user) || InClosure(db, subject, Entity(InferenceKind, user))
  {
    var s :| IsStart(db, subject, s) && Reaches(Edge(db), s, n);
    var m := ReachesLast(Edge(db), s, n);
    if s == n {
      user := subject.id;
    } else {
      user := m.id;
    }
  }

  /** A route's closure also holds its unverified inferences, so a route can keep a reached
      claim below it: exactly when one of the route's own inferences uses a reached claim. */
  lemma ReachedClaimBelowRoute(db: Db, cc: seq<string>, ci: seq<string>, r: string, x: string)
    requires IsReached(db, cc, ci, x) && r != "" && x != ""
    ensures InClosure(Invalidated(db, cc, ci), Entity(RouteKind, r), Entity(ClaimKind, x))
       <==> exists i :: i in db.inferences && i != "" && db.inferences[i].routeId == r && Uses(db.inferences[i], x)
  {
    var after := Invalidated(db, cc, ci);
    var subject, n := Entity(RouteKind, r), Entity(ClaimKind, x);
    RevokedExactly(db, cc, ci);
    RevokeKeepsStructure(db, Reached(db, cc, ci), Touched(db, ci, Reached(db, cc, ci)));
    forall i | i in db.inferences ensures after.inferences[i].routeId == db.inferences[i].routeId {}
    if InClosure(after, subject, n) {
      var user := ClosureUser(after, subject, n);
      ClosureInferences(after, subject, user);
      assert Uses(db.inferences[user], x);
      assert !InferenceVerified(after, user);
      ClosureNonempty(after, subject, Entity(InferenceKind, user));
      assert user in db.inferences && user != "" && db.inferences[user].routeId == r && Uses(db.inferences[user], x);
    }
    if i :| i in db.inferences && i != "" && db.inferences[i].routeId == r && Uses(db.inferences[i], x) {
      var m := Entity(InferenceKind, i);
      assert DependsOn(after, subject, m) && DependsOn(after, m, n);
      ReachesSelf(Edge(after), subject);
      ReachesExtend(Edge(after), subject, subject, m);
      ReachesExtend(Edge(after), subject, m, n);
      assert IsStart(after, subject, subject);
    }
  }

  /** A route with one unverified inference, from the verified claim "x" to the claim "goal". */
  function DraftRoute(): Db {
    Db(map["x" := Claim("lemma", "x holds", "", [], [], InformallyVerified, Active, []),
           "goal" := Claim("lemma", "the goal holds", "", [], [], Active, Active, [])],
       map["i" := Inference("r", "goal", ["x"], "x gives the goal", [], [], Active, [])],
       map["r" := Route("goal", "direct", "sufficient", [], [], Active, [])],
       map[], map[])
  }

  /** Such a route exists: "x" is reached and revoked, and is still below the route afterwards. */
  lemma ReachedClaimStaysBelow()
    ensures IsReached(DraftRoute(), ["x"], [], "x")
    ensures !ClaimVerified(Invalidated(DraftRoute(), ["x"], []), "x")
    ensures InClosure(Invalidated(DraftRoute(), ["x"], []), Entity(RouteKind, "r"), Entity(ClaimKind, "x"))
  {
    var db := DraftRoute();
    assert "x" in ["x"] && "x" in Seeds(db, ["x"], []);
    FromStart(Downstream(db), Seeds(db, ["x"], []), "x");
    RevokedExactly(db, ["x"], []);
    assert "x" in db.inferences["i"].premises && Uses(db.inferences["i"], "x");
    ReachedClaimBelowRoute(db, ["x"], [], "r", "x");
    hide Invalidated, InClosure, IsReached;
  }

  lemma ClosureNonempty(db: Db, subject: Entity, n: Entity)
    requires InClosure(db, subject, n)
    ensures n.id != ""
  {
    var s :| IsStart(db, subject, s) && Reaches(Edge(db), s, n);
    var m := ReachesLast(Edge(db), s, n);
  }

  /** Every verified inference rests on verified premises and conditions only. */
  ghost predicate WellSupported(db: Db) {
    forall i, c | InferenceVerified(db, i) && Uses(db.inferences[i], c) && c != "" :: ClaimVerified(db, c)
  }

  /** Invalidation keeps support: verified inferences still rest on verified claims, and every
      claim that stays verified keeps every verified derivation it had. */
  lemma SupportKept(db: Db, cc: seq<string>, ci: seq<string>)
    ensures WellSupported(db) ==> WellSupported(Invalidated(db, cc, ci))
    ensures forall c | ClaimVerified(Invalidated(db, cc, ci), c) ::
      VerifiedDerivations(Invalidated(db, cc, ci), c) == VerifiedDerivations(db, c)
  {
    var after := Invalidated(db, cc, ci);
    RevokedExactly(db, cc, ci);
    RevokeKeepsStructure(db, Reached(db, cc, ci), Touched(db, ci, Reached(db, cc, ci)));
    forall c | ClaimVerified(after, c) ensures VerifiedDerivations(after, c) == VerifiedDerivations(db, c) {
      forall i | i in VerifiedDerivations(db, c) ensures InferenceVerified(after, i) {
        UnreachedKeepsInference(db, cc, ci, i);
      }
    }
    if WellSupported(db) {
      forall i, c | InferenceVerified(after, i) && Uses(after.inferences[i], c) && c != ""
        ensures ClaimVerified(after, c)
      {
        assert Uses(db.inferences[i], c);
        assert ClaimVerified(db, c);
      }
    }
  }

  /** An inference loses verification only together with its conclusion. */
  lemma UnreachedKeepsInference(db: Db, cc: seq<string>, ci: seq<string>, i: string)
    requires InferenceVerified(db, i)
    requires !IsReached(db, cc, ci, db.inferences[i].conclusion)
    ensures InferenceVerified(Invalidated(db, cc, ci), i)
  {
    RevokedExactly(db, cc, ci);
    var seeds := Seeds(db, cc, ci);
    if i in Nonempty(ci) {
      FromStart(Downstream(db), seeds, db.inferences[i].conclusion);
    } else if c :| Uses(db.inferences[i], c) && IsReached(db, cc, ci, c) {
      assert Supports(db, c, db.inferences[i].conclusion);
      FromExtend(Downstream(db), seeds, c, db.inferences[i].conclusion);
    }
  }

  /** A route that is still integrated afterwards evaluates exactly as it did before, with the
      same terminal inferences. */
  lemma IntegrationKept(db: Db, cc: seq<string>, ci: seq<string>, r: string)
    requires RouteIntegrated(Invalidated(db, cc, ci), r)
    ensures Passes(Invalidated(db, cc, ci), r) <==> Passes(db, r)
    ensures TerminalInferences(Invalidated(db, cc, ci), r) == TerminalInferences(db, r)
  {
    var after := Invalidated(db, cc, ci);
    RevokedExactly(db, cc, ci);
    RevokeKeepsStructure(db, Reached(db, cc, ci), Touched(db, ci, Reached(db, cc, ci)));
    var goal := db.routes[r].conclusion;
    assert after.routes[r] == db.routes[r];
    forall i | i in db.inferences ensures after.inferences[i].routeId == db.inferences[i].routeId {}
    forall i | i in db.inferences ensures Terminal(after, r, i) <==> Terminal(db, r, i) {
      if Terminal(db, r, i) {
        UnreachedKeepsInference(db, cc, ci, i);
        forall c | c in after.inferences[i].premises ensures ClaimVerified(after, c) {
          assert Uses(db.inferences[i], c);
        }
      }
      if Terminal(after, r, i) {
        assert InferenceVerified(after, i);
      }
    }
    assert forall o | o in db.obligations :: Blocks(after, r, o) <==> Blocks(db, r, o);
  }
}
