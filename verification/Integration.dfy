/** Whether a route may be integrated into its conclusion. */
module Integration {
  import opened Ordering
  import opened ProofTables
  import opened Wrappers

  datatype Lack =
    | NotSufficient
    | ConclusionUnverified
    | BlockingObligation
    | NoInferences
    | NoTerminalInference

  datatype Evaluation =
    | UnknownRoute
    | Evaluation(claimId: string, integrates: bool, missing: seq<Lack>, terminal: seq<string>)

  predicate ClaimVerified(db: Db, c: string) {
    c in db.claims && Verified(db.claims[c].validation)
  }

  /** A verified inference of the route that concludes the route's claim from verified premises. */
  predicate Terminal(db: Db, routeId: string, i: string)
    requires routeId in db.routes
  {
    && i in db.inferences
    && db.inferences[i].routeId == routeId
    && db.inferences[i].conclusion == db.routes[routeId].conclusion
    && Verified(db.inferences[i].validation)
    && forall c | c in db.inferences[i].premises :: ClaimVerified(db, c)
  }

  predicate Blocked(db: Db, routeId: string)
    requires routeId in db.routes
  {
    exists o :: o in db.obligations && Blocks(db, routeId, o)
  }

  predicate Blocks(db: Db, routeId: string, o: string)
    requires routeId in db.routes && o in db.obligations
  {
    var row := db.obligations[o];
    row.status == Active && row.severity == "blocking"
    && (row.ownerId == routeId || row.ownerId == db.routes[routeId].conclusion)
  }

  function TerminalInferences(db: Db, routeId: string): set<string>
    requires routeId in db.routes
  {
    set i | i in db.inferences && Terminal(db, routeId, i)
  }

  /** The route passes: sufficient, its conclusion verified, unblocked, with a terminal inference. */
  predicate Passes(db: Db, routeId: string) {
    && routeId in db.routes
    && db.routes[routeId].relation == "sufficient"
    && ClaimVerified(db, db.routes[routeId].conclusion)
    && !Blocked(db, routeId)
    && TerminalInferences(db, routeId) != {}
  }

  /** What a known route can lack. */
  predicate Lacks(db: Db, routeId: string, lack: Lack)
    requires routeId in db.routes
  {
    || (lack == NotSufficient && db.routes[routeId].relation != "sufficient")
    || (lack == ConclusionUnverified && !ClaimVerified(db, db.routes[routeId].conclusion))
    || (lack == BlockingObligation && Blocked(db, routeId))
    || (lack == NoInferences && !HasInference(db, routeId))
    || (lack == NoTerminalInference && HasInference(db, routeId) && TerminalInferences(db, routeId) == {})
  }

  predicate HasInference(db: Db, routeId: string) {
    exists i :: i in db.inferences && db.inferences[i].routeId == routeId
  }

  /** evaluate_route_for_integration. */
  method EvaluateRoute(db: Db, routeId: string) returns (r: Evaluation)
    ensures r.UnknownRoute? <==> routeId !in db.routes
    ensures r.Evaluation? ==>
      && r.claimId == db.routes[routeId].conclusion
      && (r.integrates <==> Passes(db, routeId))
      && (r.integrates <==> r.missing == [])
      && (forall lack :: lack in r.missing <==> Lacks(db, routeId, lack))
      && r.terminal == SortedIds(TerminalInferences(db, routeId))
  {
    if routeId !in db.routes {
      return UnknownRoute;
    }
    var route := db.routes[routeId];
    var debts := set o | o in db.obligations && Blocks(db, routeId, o);
    var members := set i | i in db.inferences && db.inferences[i].routeId == routeId;
    var terminal := TerminalInferences(db, routeId);
    Blockers(db, routeId, debts);
    Members(db, routeId, members);
    PassesIff(db, routeId);
    hide Blocked, Blocks, HasInference, TerminalInferences, Terminal, ClaimVerified, Passes, SortedIds, Lacks;
    var missing := ListLacks(db, routeId, debts != {}, members != {}, terminal != {});
    r := Evaluation(route.conclusion, missing == [], missing, SortedIds(terminal));
    if missing != [] {
      assert Lacks(db, routeId, missing[0]);
    }
  }

  method ListLacks(db: Db, routeId: string, blocked: bool, inferred: bool, concluded: bool) returns (missing: seq<Lack>)
    requires routeId in db.routes
    requires blocked == Blocked(db, routeId) && inferred == HasInference(db, routeId)
    requires concluded == (TerminalInferences(db, routeId) != {})
    ensures forall lack :: lack in missing <==> Lacks(db, routeId, lack)
  {
    hide Blocked, HasInference, TerminalInferences, ClaimVerified;
    var route := db.routes[routeId];
    missing := If(route.relation != "sufficient", NotSufficient)
      + If(!ClaimVerified(db, route.conclusion), ConclusionUnverified) + If(blocked, BlockingObligation)
      + If(!inferred, NoInferences) + If(inferred && !concluded, NoTerminalInference);
  }

  lemma Blockers(db: Db, routeId: string, debts: set<string>)
    requires routeId in db.routes && debts == set o | o in db.obligations && Blocks(db, routeId, o)
    ensures debts != {} <==> Blocked(db, routeId)
  {
    if o :| o in db.obligations && Blocks(db, routeId, o) {
      assert o in debts;
    }
  }

  lemma Members(db: Db, routeId: string, members: set<string>)
    requires routeId in db.routes && members == set i | i in db.inferences && db.inferences[i].routeId == routeId
    ensures members != {} <==> HasInference(db, routeId)
  {
    if i :| i in db.inferences && db.inferences[i].routeId == routeId {
      assert i in members;
    }
  }

  lemma PassesIff(db: Db, routeId: string)
    requires routeId in db.routes
    ensures Passes(db, routeId) <==> forall lack :: !Lacks(db, routeId, lack)
  {
    if forall lack :: !Lacks(db, routeId, lack) {
      assert !Lacks(db, routeId, NotSufficient) && !Lacks(db, routeId, ConclusionUnverified);
      assert !Lacks(db, routeId, BlockingObligation) && !Lacks(db, routeId, NoInferences);
      assert !Lacks(db, routeId, NoTerminalInference);
    }
    if TerminalInferences(db, routeId) != {} {
      var i :| i in TerminalInferences(db, routeId);
    }
  }
}
