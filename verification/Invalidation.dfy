/** Revoking downstream certification after a change of proof content. */
module Invalidation {
  import opened Ordering
  import opened Graphs
  import opened ProofTables
  import opened Closure

  datatype Change = Change(entity: Entity, newStatus: Status)

  /** Invalidation follows every inference that uses a claim, whatever the inference's status. */
  ghost predicate Supports(db: Db, a: string, b: string) {
    exists i :: i in db.inferences && Uses(db.inferences[i], a) && db.inferences[i].conclusion == b
  }

  ghost function Downstream(db: Db): (string, string) -> bool {
    (a: string, b: string) => Supports(db, a, b)
  }

  function NonemptyList(ids: seq<string>): (r: seq<string>)
    ensures Elements(r) == Nonempty(ids)
  {
    if ids == [] then [] else
      var rest := NonemptyList(ids[1..]);
      assert forall c :: c in ids <==> c == ids[0] || c in ids[1..];
      assert forall c :: c in rest <==> c in Elements(rest);
      if ids[0] == "" then rest else [ids[0]] + rest
  }

  function Nonempty(ids: seq<string>): set<string> {
    set c | c in ids && c != ""
  }

  function Conclusions(db: Db, infs: set<string>): set<string> {
    set i | i in infs && i in db.inferences :: db.inferences[i].conclusion
  }

  /** The claims invalidation starts from. */
  function Seeds(db: Db, changedClaims: seq<string>, changedInferences: seq<string>): set<string> {
    Nonempty(changedClaims) + Conclusions(db, Nonempty(changedInferences))
  }

  ghost predicate IsReached(db: Db, changedClaims: seq<string>, changedInferences: seq<string>, c: string) {
    ReachesFrom(Downstream(db), Seeds(db, changedClaims, changedInferences), c)
  }

  /** All claims reached from the seeds. */
  ghost function Reached(db: Db, changedClaims: seq<string>, changedInferences: seq<string>): (r: set<string>)
    ensures forall c :: c in r <==> IsReached(db, changedClaims, changedInferences, c)
  {
    var seeds := Seeds(db, changedClaims, changedInferences);
    var r := set c | c in seeds + Conclusions(db, db.inferences.Keys)
                     && IsReached(db, changedClaims, changedInferences, c);
    assert forall c | IsReached(db, changedClaims, changedInferences, c) :: c in r by {
      forall c | IsReached(db, changedClaims, changedInferences, c) ensures c in r {
        var b := FromLast(Downstream(db), seeds, c);
      }
    }
    r
  }

  /** The inferences whose certification a set of reached claims takes away. */
  ghost function Touched(db: Db, changedInferences: seq<string>, cs: set<string>): set<string> {
    set i | i in db.inferences && (i in Nonempty(changedInferences) || exists c :: c in cs && Uses(db.inferences[i], c))
  }

  function ChallengedClaim(c: Claim): Claim {
    if Verified(c.validation) then
      c.(validation := Challenged, lifecycle := if c.lifecycle == Integrated then Active else c.lifecycle)
    else c
  }

  function ChallengedInference(i: Inference): Inference {
    if Verified(i.validation) then i.(validation := Challenged) else i
  }

  function ReopenedRoute(r: Route): Route {
    if r.status == Integrated then r.(status := Active) else r
  }

  /** The tables after certification of the claims `cs` and the inferences `infs` is taken away. */
  function Revoke(db: Db, cs: set<string>, infs: set<string>): Db {
    db.(claims := map c | c in db.claims :: if c in cs then ChallengedClaim(db.claims[c]) else db.claims[c],
        inferences := map i | i in db.inferences ::
          if i in infs then ChallengedInference(db.inferences[i]) else db.inferences[i],
        routes := map r | r in db.routes ::
          if db.routes[r].conclusion in cs then ReopenedRoute(db.routes[r]) else db.routes[r])
  }

  /** The state invalidation must leave. */
  ghost function Invalidated(db: Db, changedClaims: seq<string>, changedInferences: seq<string>): Db {
    var reached := Reached(db, changedClaims, changedInferences);
    Revoke(db, reached, Touched(db, changedInferences, reached))
  }

  /** The validation status of `e` differs between the two states. */
  predicate StatusChanged(d0: Db, d1: Db, e: Entity) {
    match e.kind
    case ClaimKind => e.id in d0.claims && e.id in d1.claims && d0.claims[e.id].validation != d1.claims[e.id].validation
    case InferenceKind =>
      e.id in d0.inferences && e.id in d1.inferences && d0.inferences[e.id].validation != d1.inferences[e.id].validation
    case _ => false
  }

  /** Each entity whose validation changed is reported once, as challenged, and nothing else is. */
  ghost predicate Reports(d0: Db, d1: Db, changes: seq<Change>) {
    && NoDuplicates(changes)
    && forall ch :: ch in changes <==> StatusChanged(d0, d1, ch.entity) && ch.newStatus == Challenged
  }

  function DependentInferences(db: Db, c: string): set<string> {
    set i | i in db.inferences && Uses(db.inferences[i], c)
  }

  /** One claim row, and the integrated routes that conclude it, lose their certification. */
  function RevokeClaim(db: Db, c: string): Db {
    db.(claims := if c in db.claims then db.claims[c := ChallengedClaim(db.claims[c])] else db.claims,
        routes := map r | r in db.routes ::
          if db.routes[r].conclusion == c then ReopenedRoute(db.routes[r]) else db.routes[r])
  }

  function RevokeInference(db: Db, i: string): Db
    requires i in db.inferences
  {
    db.(inferences := db.inferences[i := ChallengedInference(db.inferences[i])])
  }

  /** The report line for an entity that is about to be challenged. */
  function Line(db: Db, e: Entity): seq<Change> {
    if (e.kind == ClaimKind && e.id in db.claims && Verified(db.claims[e.id].validation))
       || (e.kind == InferenceKind && e.id in db.inferences && Verified(db.inferences[e.id].validation))
    then [Change(e, Challenged)] else []
  }

  lemma RevokeClaimStep(d0: Db, cs: set<string>, infs: set<string>, c: string)
    ensures RevokeClaim(Revoke(d0, cs, infs), c) == Revoke(d0, cs + {c}, infs)
  {
    var d, e := RevokeClaim(Revoke(d0, cs, infs), c), Revoke(d0, cs + {c}, infs);
    assert d.claims == e.claims;
    assert d.routes == e.routes;
    assert d.inferences == e.inferences;
  }

  /** Revocation changes statuses only. */
  lemma RevokeKeepsStructure(d0: Db, cs: set<string>, infs: set<string>)
    ensures var d := Revoke(d0, cs, infs);
      && d.claims.Keys == d0.claims.Keys && d.inferences.Keys == d0.inferences.Keys && d.routes.Keys == d0.routes.Keys
      && (forall i | i in d0.inferences ::
            && d.inferences[i].conclusion == d0.inferences[i].conclusion
            && d.inferences[i].premises == d0.inferences[i].premises
            && d.inferences[i].conditionClaims == d0.inferences[i].conditionClaims)
  {
  }

  lemma RevokeKeepsDependents(d0: Db, cs: set<string>, infs: set<string>, c: string)
    ensures DependentInferences(Revoke(d0, cs, infs), c) == DependentInferences(d0, c)
  {
    RevokeKeepsStructure(d0, cs, infs);
  }

  lemma RevokeNothing(d0: Db)
    ensures Revoke(d0, {}, {}) == d0 && Reports(d0, d0, [])
  {
    assert Revoke(d0, {}, {}).claims == d0.claims;
    assert Revoke(d0, {}, {}).inferences == d0.inferences;
    assert Revoke(d0, {}, {}).routes == d0.routes;
  }

  lemma RevokeInferenceStep(d0: Db, cs: set<string>, infs: set<string>, i: string)
    requires i in d0.inferences
    ensures RevokeInference(Revoke(d0, cs, infs), i) == Revoke(d0, cs, infs + {i})
  {
    var d, e := RevokeInference(Revoke(d0, cs, infs), i), Revoke(d0, cs, infs + {i});
    assert d.claims == e.claims;
    assert d.inferences == e.inferences;
  }

  /** One more entity challenged, one more line in the report. */
  lemma ReportStep(d0: Db, cs: set<string>, infs: set<string>, changes: seq<Change>, e: Entity, d': Db)
    requires Reports(d0, Revoke(d0, cs, infs), changes)
    requires (e.kind == ClaimKind && d' == Revoke(d0, cs + {e.id}, infs))
          || (e.kind == InferenceKind && d' == Revoke(d0, cs, infs + {e.id}))
    ensures Reports(d0, d', changes + Line(Revoke(d0, cs, infs), e))
  {
    var d := Revoke(d0, cs, infs);
    var reported := changes + Line(d, e);
    forall ch ensures ch in reported <==> StatusChanged(d0, d', ch.entity) && ch.newStatus == Challenged {
      assert ch in reported <==> ch in changes || ch in Line(d, e);
    }
    if Line(d, e) != [] {
      assert Change(e, Challenged) !in changes;
    }
  }

  /** The revocation of one inference row, as both loops of the pass do it. */
  method ChallengeInferenceRow(conn: ProofStore, i: string, changes: seq<Change>) returns (reported: seq<Change>)
    requires i in conn.inferences
    modifies conn`inferences
    ensures conn.Snapshot() == RevokeInference(old(conn.Snapshot()), i)
    ensures reported == changes + Line(old(conn.Snapshot()), Entity(InferenceKind, i))
  {
    reported := changes;
    var row := conn.inferences[i];
    if Verified(row.validation) {
      conn.inferences := conn.inferences[i := row.(validation := Challenged)];
      reported := reported + [Change(Entity(InferenceKind, i), Challenged)];
    } else {
      assert conn.inferences == conn.inferences[i := row];
    }
  }

  /** The revocation of one claim row and of the integrated routes that conclude it. */
  method ChallengeClaimRow(conn: ProofStore, c: string, changes: seq<Change>) returns (reported: seq<Change>)
    modifies conn`claims, conn`routes
    ensures conn.Snapshot() == RevokeClaim(old(conn.Snapshot()), c)
    ensures reported == changes + Line(old(conn.Snapshot()), Entity(ClaimKind, c))
  {
    reported := changes;
    if c in conn.claims && Verified(conn.claims[c].validation) {
      var row := conn.claims[c];
      conn.claims := conn.claims[c := row.(
        validation := Challenged,
        lifecycle := if row.lifecycle == Integrated then Active else row.lifecycle)];
      reported := reported + [Change(Entity(ClaimKind, c), Challenged)];
    } else if c in conn.claims {
      assert conn.claims == conn.claims[c := conn.claims[c]];
    }
    conn.routes := map r | r in conn.routes ::
      if conn.routes[r].conclusion == c && conn.routes[r].status == Integrated
      then conn.routes[r].(status := Active) else conn.routes[r];
    assert conn.routes == RevokeClaim(old(conn.Snapshot()), c).routes;
  }

  /** All dependents of one claim: their certification goes, their conclusions are to be visited. */
  method ChallengeDependents(conn: ProofStore, c: string, changes: seq<Change>, ghost d0: Db, ghost cs: set<string>,
                             ghost infs: set<string>)
    returns (reported: seq<Change>, found: seq<string>)
    requires conn.Snapshot() == Revoke(d0, cs, infs) && Reports(d0, conn.Snapshot(), changes)
    modifies conn`inferences
    ensures conn.Snapshot() == Revoke(d0, cs, infs + DependentInferences(d0, c))
    ensures Reports(d0, conn.Snapshot(), reported)
    ensures Elements(found) == Conclusions(d0, DependentInferences(d0, c))
  {
    hide Reports, Revoke, RevokeInference, Line, Conclusions, RevokeInference, Uses;
    reported, found := changes, [];
    RevokeKeepsDependents(d0, cs, infs, c);
    var rows := SortedIds(DependentInferences(conn.Snapshot(), c));
    ghost var done: set<string> := {};
    assert infs + done == infs;
    ConclusionsNone(d0);
    for k := 0 to |rows|
      invariant done == Elements(rows[..k])
      invariant conn.Snapshot() == Revoke(d0, cs, infs + done)
      invariant Reports(d0, conn.Snapshot(), reported)
      invariant Elements(found) == Conclusions(d0, done)
    {
      assert rows[k] in Elements(rows);
      RevokeKeepsStructure(d0, cs, infs + done);
      RevokeInferenceStep(d0, cs, infs + done, rows[k]);
      ReportStep(d0, cs, infs + done, reported, Entity(InferenceKind, rows[k]),
                   Revoke(d0, cs, infs + done + {rows[k]}));
      assert infs + done + {rows[k]} == infs + (done + {rows[k]});
      var conclusion := conn.inferences[rows[k]].conclusion;
      reported := ChallengeInferenceRow(conn, rows[k], reported);
      ConclusionsStep(d0, done, rows[k]);
      QueueAppend(found, [conclusion]);
      found := found + [conclusion];
      done := done + {rows[k]};
    }
    assert rows[..|rows|] == rows;
  }

  /** The changed inferences themselves, and the claims the worklist starts with. */
  method ChallengeChanged(conn: ProofStore, changedClaims: seq<string>, changedInferences: seq<string>)
    returns (changes: seq<Change>, queue: seq<string>)
    modifies conn`inferences
    ensures conn.Snapshot()
         == Revoke(old(conn.Snapshot()), {}, Touched(old(conn.Snapshot()), changedInferences, {}))
    ensures Reports(old(conn.Snapshot()), conn.Snapshot(), changes)
    ensures Elements(queue) == Seeds(old(conn.Snapshot()), changedClaims, changedInferences)
  {
    hide Reports, Revoke, RevokeInference, Line, Conclusions;
    ghost var d0 := conn.Snapshot();
    queue := NonemptyList(changedClaims);
    changes := [];
    RevokeNothing(d0);
    ConclusionsNone(d0);
    ghost var done: set<string> := {};
    var ids := SortedIds(Nonempty(changedInferences));
    for k := 0 to |ids|
      invariant done == set i | i in ids[..k] && i in d0.inferences
      invariant conn.Snapshot() == Revoke(d0, {}, done)
      invariant Reports(d0, conn.Snapshot(), changes)
      invariant Elements(queue) == Nonempty(changedClaims) + Conclusions(d0, done)
    {
      RevokeKeepsStructure(d0, {}, done);
      if ids[k] in conn.inferences {
        var conclusion := conn.inferences[ids[k]].conclusion;
        RevokeInferenceStep(d0, {}, done, ids[k]);
        ReportStep(d0, {}, done, changes, Entity(InferenceKind, ids[k]), Revoke(d0, {}, done + {ids[k]}));
        changes := ChallengeInferenceRow(conn, ids[k], changes);
        ConclusionsStep(d0, done, ids[k]);
        QueueAppend(queue, [conclusion]);
        queue := queue + [conclusion];
        done := done + {ids[k]};
      }
    }
    forall i ensures i in ids <==> i in Nonempty(changedInferences) { assert i in ids <==> i in Elements(ids); }
    assert done == Touched(d0, changedInferences, {});
    ConclusionsPresent(d0, Nonempty(changedInferences), done);
  }

  lemma ConclusionsBounded(db: Db, infs: set<string>)
    ensures Conclusions(db, infs) <= Conclusions(db, db.inferences.Keys)
  {
  }

  lemma ConclusionsNone(db: Db)
    ensures Conclusions(db, {}) == {}
  {
  }

  lemma ConclusionsPresent(db: Db, infs: set<string>, present: set<string>)
    requires present == set i | i in infs && i in db.inferences
    ensures Conclusions(db, present) == Conclusions(db, infs)
  {
  }

  lemma ConclusionsStep(db: Db, infs: set<string>, i: string)
    requires i in db.inferences
    ensures Conclusions(db, infs + {i}) == Conclusions(db, infs) + {db.inferences[i].conclusion}
  {
  }

  lemma TouchedStep(db: Db, changedInferences: seq<string>, cs: set<string>, c: string)
    ensures Touched(db, changedInferences, cs + {c}) == Touched(db, changedInferences, cs) + DependentInferences(db, c)
  {
  }

  lemma DependentsAreSupported(db: Db, a: string, b: string)
    ensures b in Conclusions(db, DependentInferences(db, a)) <==> Supports(db, a, b)
  {
    if Supports(db, a, b) {
      var i :| i in db.inferences && Uses(db.inferences[i], a) && db.inferences[i].conclusion == b;
      assert i in DependentInferences(db, a);
    }
  }

  /** The worklist invariant: what is seen or pending is reached, covers the seeds, and
      whatever a seen claim supports is seen or pending. */
  ghost predicate Worklist(db: Db, seeds: set<string>, seen: set<string>, pending: set<string>) {
    && seeds <= seen + pending <= seeds + Conclusions(db, db.inferences.Keys)
    && (forall c | c in seen + pending :: ReachesFrom(Downstream(db), seeds, c))
    && (forall a, b | a in seen && Supports(db, a, b) :: b in seen + pending)
  }

  lemma WorklistStarts(db: Db, seeds: set<string>)
    ensures Worklist(db, seeds, {}, seeds)
  {
    forall c | c in seeds ensures ReachesFrom(Downstream(db), seeds, c) { FromStart(Downstream(db), seeds, c); }
  }

  lemma WorklistSkip(db: Db, seeds: set<string>, seen: set<string>, pending: set<string>, c: string, rest: set<string>)
    requires Worklist(db, seeds, seen, pending)
    requires c in seen && pending == {c} + rest
    ensures Worklist(db, seeds, seen, rest)
  {
    hide Supports, ReachesFrom, Conclusions;
    assert seen + pending == seen + rest;
  }

  lemma FoundIsReached(db: Db, seeds: set<string>, c: string, found: set<string>)
    requires ReachesFrom(Downstream(db), seeds, c)
    requires forall b :: b in found <==> Supports(db, c, b)
    ensures forall b | b in found :: ReachesFrom(Downstream(db), seeds, b)
  {
    forall b | b in found ensures ReachesFrom(Downstream(db), seeds, b) {
      FromExtend(Downstream(db), seeds, c, b);
    }
  }

  lemma WorklistVisit(db: Db, seeds: set<string>, seen: set<string>, pending: set<string>, c: string, rest: set<string>,
                      found: set<string>)
    requires Worklist(db, seeds, seen, pending)
    requires pending == {c} + rest
    requires found <= Conclusions(db, db.inferences.Keys)
    requires forall b :: b in found <==> Supports(db, c, b)
    ensures Worklist(db, seeds, seen + {c}, rest + found)
  {
    hide Supports, ReachesFrom, Conclusions;
    assert c in seen + pending;
    FoundIsReached(db, seeds, c, found);
    assert seen + {c} + (rest + found) == seen + pending + found;
  }

  /** When nothing is pending, exactly the reached claims have been seen. */
  lemma WorklistDone(db: Db, changedClaims: seq<string>, changedInferences: seq<string>, seen: set<string>)
    requires Worklist(db, Seeds(db, changedClaims, changedInferences), seen, {})
    ensures seen == Reached(db, changedClaims, changedInferences)
  {
    var seeds := Seeds(db, changedClaims, changedInferences);
    assert seen + {} == seen;
    forall c ensures c in seen <==> c in Reached(db, changedClaims, changedInferences) {
      if IsReached(db, changedClaims, changedInferences, c) {
        FromInduction(Downstream(db), x => x in seen, seeds, c);
      }
    }
  }

  /** invalidate_dependents: a worklist over a possibly cyclic graph. */
  method InvalidateDependents(conn: ProofStore, changedClaims: seq<string>, changedInferences: seq<string>)
    returns (changes: seq<Change>)
    modifies conn`claims, conn`inferences, conn`routes
    ensures conn.Snapshot() == Invalidated(old(conn.Snapshot()), changedClaims, changedInferences)
    ensures Reports(old(conn.Snapshot()), conn.Snapshot(), changes)
  {
    hide Reports, Revoke, RevokeClaim, Line, Touched, Worklist, Elements, Conclusions, DependentInferences;
    ghost var d0 := conn.Snapshot();
    ghost var seeds := Seeds(d0, changedClaims, changedInferences);
    ghost var horizon := seeds + Conclusions(d0, d0.inferences.Keys);
    var queue: seq<string>;
    changes, queue := ChallengeChanged(conn, changedClaims, changedInferences);
    WorklistStarts(d0, seeds);

    var seen: set<string> := {};
    while queue != []
      invariant conn.Snapshot() == Revoke(d0, seen, Touched(d0, changedInferences, seen))
      invariant Reports(d0, conn.Snapshot(), changes)
      invariant Worklist(d0, seeds, seen, Elements(queue))
      decreases horizon - seen, |queue|
    {
      var claimId := queue[0];
      QueueHead(queue);
      WorklistBounded(d0, seeds, seen, Elements(queue));
      ghost var pending := Elements(queue);
      queue := queue[1..];
      if claimId in seen {
        WorklistSkip(d0, seeds, seen, pending, claimId, Elements(queue));
      } else {
        RevokeClaimStep(d0, seen, Touched(d0, changedInferences, seen), claimId);
        ReportStep(d0, seen, Touched(d0, changedInferences, seen), changes, Entity(ClaimKind, claimId),
                   Revoke(d0, seen + {claimId}, Touched(d0, changedInferences, seen)));
        changes := ChallengeClaimRow(conn, claimId, changes);
        TouchedStep(d0, changedInferences, seen, claimId);
        var found: seq<string>;
        changes, found := ChallengeDependents(conn, claimId, changes, d0, seen + {claimId},
                                              Touched(d0, changedInferences, seen));
        forall b ensures b in Conclusions(d0, DependentInferences(d0, claimId)) <==> Supports(d0, claimId, b) {
          DependentsAreSupported(d0, claimId, b);
        }
        ConclusionsBounded(d0, DependentInferences(d0, claimId));
        WorklistVisit(d0, seeds, seen, pending, claimId, Elements(queue), Elements(found));
        QueueAppend(queue, found);
        seen := seen + {claimId};
        queue := queue + found;
      }
    }
    QueueEmpty();
    WorklistDone(d0, changedClaims, changedInferences, seen);
  }

  lemma WorklistBounded(db: Db, seeds: set<string>, seen: set<string>, pending: set<string>)
    requires Worklist(db, seeds, seen, pending)
    ensures seen + pending <= seeds + Conclusions(db, db.inferences.Keys)
  {
  }

  lemma QueueHead(queue: seq<string>)
    requires queue != []
    ensures queue[0] in Elements(queue) && Elements(queue) == {queue[0]} + Elements(queue[1..])
  {
  }

  lemma QueueAppend(a: seq<string>, b: seq<string>)
    ensures Elements(a + b) == Elements(a) + Elements(b)
  {
  }

  lemma QueueEmpty()
    ensures Elements<string>([]) == {}
  {
  }
}
