/** Binding, rebasing, reopening, integration and assurance restated on the rows. */
module PassLaws {
  import opened Ordering
  import opened ProofTables
  import opened Closure
  import opened Invalidation
  import opened Currency
  import opened RowLaws
  import opened Binding
  import opened Rebasing
  import opened Obligations
  import opened Integration
  import opened Assurance

  // ----- Binding -----

  /** The statuses a certificate may vouch for. */
  ghost predicate HasCertified(v: Status) {
    v == InformallyVerified || v == FormallyVerified || v == Refuted || v == Integrated
  }

  /** The row cites the artifact as evidence of a certified status. */
  ghost predicate Cites(db: Db, e: Entity, a: string, routeTarget: string) {
    match e.kind
    case ClaimKind =>
      && e.id in db.claims && a in db.claims[e.id].evidence
      && (db.claims[e.id].lifecycle == Integrated || HasCertified(db.claims[e.id].validation))
    case InferenceKind =>
      && e.id in db.inferences && a in db.inferences[e.id].evidence
      && HasCertified(db.inferences[e.id].validation)
    case ObligationKind =>
      && e.id in db.obligations && a != "" && a in db.obligations[e.id].resolution.evidence
      && db.obligations[e.id].status == Refuted
    case RouteKind =>
      && e.id in db.routes && db.routes[e.id].status == Integrated
      && (a in db.routes[e.id].evidence || (routeTarget != "" && routeTarget == e.id))
  }

  /** The status of the row, an integrated claim's being that. */
  ghost predicate StatusOfRow(db: Db, e: Entity, v: Status) {
    || (e.kind == ClaimKind && e.id in db.claims
        && v == if db.claims[e.id].lifecycle == Integrated then Integrated else db.claims[e.id].validation)
    || (e.kind == InferenceKind && e.id in db.inferences && v == db.inferences[e.id].validation)
    || (e.kind == ObligationKind && e.id in db.obligations && v == db.obligations[e.id].status)
    || (e.kind == RouteKind && e.id in db.routes && v == db.routes[e.id].status)
  }

  lemma TargetsOnRows(db: Db, a: string, routeTarget: string, e: Entity)
    ensures e in CertifiedTargets(db, a, routeTarget) <==> Cites(db, e, a, routeTarget)
  {
  }

  /** Every artifact row after binding: a certificate of this revision gets, for exactly the rows that
      cite it, a binding over their digest and closure, with its own digest, their status, the
      revision and its reviewer; no other binding and no other field of any artifact differs. */
  lemma BoundRows(h: Hasher, db: Db, revision: int, id: string)
    requires CollisionFree(h) && id in db.artifacts
    ensures var a0 := db.artifacts[id];
      var isNew := a0.stateRevision == revision
        && (a0.artifactType == VerificationReport || a0.artifactType == IntegrationReport
            || a0.artifactType == FormalBackendResult || a0.artifactType == ConfirmedCounterexample);
      && id in Bound(h, db, revision).artifacts
      && var a1 := Bound(h, db, revision).artifacts[id];
         && a1 == a0.(bindings := a1.bindings)
         && forall e ::
              if isNew && Cites(db, e, id, a0.routeTarget) then
                && e in a1.bindings && a1.bindings[e].version == 1
                && a1.bindings[e].subjectDigest == SubjectDigest(h, db, e)
                && a1.bindings[e].dependencies == ClosureOf(db, e)
                && a1.bindings[e].dependencyDigest == DependencyDigest(h, db, ClosureOf(db, e))
                && a1.bindings[e].artifactSha == a0.sha && StatusOfRow(db, e, a1.bindings[e].certifiedStatus)
                && a1.bindings[e].boundRevision == revision && a1.bindings[e].reviewer == a0.reviewer
                && a1.bindings[e].rebases == []
              else
                (e in a1.bindings <==> e in a0.bindings) && (e in a0.bindings ==> a1.bindings[e] == a0.bindings[e])
  {
    var a0 := db.artifacts[id];
    forall e ensures e in CertifiedTargets(db, id, a0.routeTarget) <==> Cites(db, e, id, a0.routeTarget) {
      TargetsOnRows(db, id, a0.routeTarget, e);
    }
    forall e | e in CertifiedTargets(db, id, a0.routeTarget) ensures SubjectDigest(h, db, e) != "" {
      SubjectDigestOnRows(h, db, db, e);
    }
    forall e | e in CertifiedTargets(db, id, a0.routeTarget) ensures StatusOfRow(db, e, EntityStatus(db, e)) {}
    hide CertifiedTargets, Cites, SubjectDigest, DependencyDigest, EntityStatus, StatusOfRow, ClosureOf;
  }

  // ----- Rebasing -----

  /** A claim row that was promoted: verified and not integrated before, integrated with the same
      validation now, and otherwise the same on its certified fields. */
  ghost predicate PromotedRow(prev: Db, db: Db, d: Entity) {
    && d.kind == ClaimKind && SameCertifiedFields(prev, db, d)
    && HasVerified(prev.claims[d.id].validation) && prev.claims[d.id].lifecycle != Integrated
    && db.claims[d.id].lifecycle == Integrated && db.claims[d.id].validation == prev.claims[d.id].validation
  }

  lemma PromotedOnRows(prev: Db, db: Db, d: Entity)
    requires SameCertifiedFields(prev, db, d)
    ensures d in Promoted(prev, db) <==> PromotedRow(prev, db, d)
  {
  }

  /** What a certificate survives, on the rows: after the rebase it is current iff its artifact digest
      and the certified fields of its subject are as before, the subject's status fits, and every
      listed entity is undisturbed or was promoted. */
  lemma RebasedRows(h: Hasher, prev: Db, db: Db, revision: int, id: string, e: Entity)
    requires CollisionFree(h)
    requires HasCurrentBinding(h, prev, id, e) && IsCertificate(prev.artifacts[id].artifactType)
    requires id in db.artifacts && e in db.artifacts[id].bindings
    requires db.artifacts[id].bindings[e] == prev.artifacts[id].bindings[e]
    ensures HasCurrentBinding(h, Rebased(h, prev, db, revision), id, e)
      <==>
      && db.artifacts[id].sha == prev.artifacts[id].sha
      && (SameCertifiedFields(prev, db, e) || (!HasRow(prev, e) && !HasRow(db, e)))
      && StatusFieldsFit(db, e, prev.artifacts[id].bindings[e].certifiedStatus)
      && forall d | d in prev.artifacts[id].bindings[e].dependencies ::
           Undisturbed(prev, db, d) || PromotedRow(prev, db, d)
  {
    RebaseExact(h, prev, db, revision, id, e);
    SameSubjectOnRows(prev, db, e);
    SameSubjectOnRows(db, prev, e);
    StatusFieldsDecide(db, e, prev.artifacts[id].bindings[e].certifiedStatus);
    forall d
      ensures SameSubject(prev, db, d) && (EntityStatus(prev, d) == EntityStatus(db, d) || d in Promoted(prev, db))
         <==> Undisturbed(prev, db, d) || PromotedRow(prev, db, d)
    {
      PromotedOrUndisturbed(prev, db, d);
    }
    hide SameSubject, SameCertifiedFields, Promoted, Undisturbed, PromotedRow, StatusFieldsFit, BindingStatusCurrent,
         EntityStatus, Rebased, HasRow;
  }

  lemma PromotedOrUndisturbed(prev: Db, db: Db, d: Entity)
    ensures SameSubject(prev, db, d) && (EntityStatus(prev, d) == EntityStatus(db, d) || d in Promoted(prev, db))
       <==> Undisturbed(prev, db, d) || PromotedRow(prev, db, d)
  {
    SameSubjectOnRows(prev, db, d);
    SameSubjectOnRows(db, prev, d);
    if HasRow(prev, d) && HasRow(db, d) {
      SameStatusOnRows(prev, db, d);
    }
    if SameCertifiedFields(prev, db, d) {
      PromotedOnRows(prev, db, d);
    }
    hide SameSubject, SameStatusFields;
  }

  /** The claim was promoted. */
  ghost predicate PromotedClaim(prev: Db, db: Db, c: string) {
    && c in prev.claims && c in db.claims
    && HasVerified(prev.claims[c].validation) && prev.claims[c].lifecycle != Integrated
    && db.claims[c].lifecycle == Integrated && db.claims[c].validation == prev.claims[c].validation
  }

  /** The binding is one that the rebase rewrites: recorded for a certificate whose digest has not changed since
      and carried over as it was, with a subject, status and artifact digest that are current, it lists a
      promoted claim, and its digest is the old one exactly with the promotions undone. */
  ghost predicate Carried(h: Hasher, prev: Db, db: Db, id: string, e: Entity) {
    && id in prev.artifacts && id in db.artifacts && db.artifacts[id].sha == prev.artifacts[id].sha
    && (prev.artifacts[id].artifactType == VerificationReport || prev.artifacts[id].artifactType == IntegrationReport
        || prev.artifacts[id].artifactType == FormalBackendResult
        || prev.artifacts[id].artifactType == ConfirmedCounterexample)
    && e in prev.artifacts[id].bindings && e in db.artifacts[id].bindings
    && db.artifacts[id].bindings[e] == prev.artifacts[id].bindings[e]
    && var b := db.artifacts[id].bindings[e];
       && b.version == 1 && b.artifactSha == db.artifacts[id].sha && b.subjectDigest == SubjectDigest(h, db, e)
       && StatusFieldsFit(db, e, b.certifiedStatus)
       && (exists c :: Entity(ClaimKind, c) in b.dependencies && PromotedClaim(prev, db, c))
       && b.dependencyDigest == DependencyDigestUnder(h, db, Promoted(prev, db), b.dependencies)
       && b.dependencyDigest != DependencyDigest(h, db, b.dependencies)
  }

  /** Every binding after the rebase: a carried one gets the present digest of its list and a record of the
      revision, both digests and the listed promoted claims in ascending order, and keeps everything
      else, its reviewer and bound revision included; no other binding and no other field of any
      artifact differs. */
  lemma RebasedRecords(h: Hasher, prev: Db, db: Db, revision: int, id: string)
    requires id in db.artifacts
    ensures var after := Rebased(h, prev, db, revision);
      && after == db.(artifacts := after.artifacts) && after.artifacts.Keys == db.artifacts.Keys
      && after.artifacts[id] == db.artifacts[id].(bindings := after.artifacts[id].bindings)
      && after.artifacts[id].bindings.Keys == db.artifacts[id].bindings.Keys
      && forall e | e in db.artifacts[id].bindings ::
           var b, b' := db.artifacts[id].bindings[e], after.artifacts[id].bindings[e];
           if Carried(h, prev, db, id, e) then
             && b' == b.(dependencyDigest := DependencyDigest(h, db, b.dependencies), rebases := b'.rebases)
             && exists ids :: b'.rebases
                              == b.rebases + [Rebase(revision, b.dependencyDigest, b'.dependencyDigest, ids)]
                              && ListsPromoted(prev, db, b.dependencies, ids)
           else b' == b
  {
    var promoted, a := Promoted(prev, db), db.artifacts[id];
    forall e | e in a.bindings
      ensures (Considered(prev, db, id) && Rebasable(h, db, promoted, prev.artifacts[id], a, e, a.bindings[e]))
         <==> Carried(h, prev, db, id, e)
      ensures var deps := a.bindings[e].dependencies; ListsPromoted(prev, db, deps, PromotedClaimIds(deps, promoted))
    {
      CarriedIsRebasable(h, prev, db, id, e);
      PromotedIdsOnRows(prev, db, a.bindings[e].dependencies);
    }
    hide Considered, Rebasable, Carried, ListsPromoted, PromotedClaimIds, Promoted, DependencyDigest;
  }

  /** In ascending order, the promoted claims of a list. */
  ghost predicate ListsPromoted(prev: Db, db: Db, deps: seq<Entity>, ids: seq<string>) {
    && (forall c :: c in ids <==> Entity(ClaimKind, c) in deps && PromotedClaim(prev, db, c))
    && forall i, j | 0 <= i < j < |ids| :: TextBefore(ids[i], ids[j])
  }

  lemma PromotedClaimsOnRows(prev: Db, db: Db, d: Entity)
    ensures d in Promoted(prev, db) <==> d.kind == ClaimKind && PromotedClaim(prev, db, d.id)
  {
  }

  lemma PromotedIdsOnRows(prev: Db, db: Db, deps: seq<Entity>)
    ensures ListsPromoted(prev, db, deps, PromotedClaimIds(deps, Promoted(prev, db)))
  {
    var promoted, ids := Promoted(prev, db), PromotedClaimIds(deps, Promoted(prev, db));
    forall d ensures d in promoted <==> d.kind == ClaimKind && PromotedClaim(prev, db, d.id) {
      PromotedClaimsOnRows(prev, db, d);
    }
    hide Promoted, PromotedClaim;
    forall c ensures c in ids <==> Entity(ClaimKind, c) in deps && PromotedClaim(prev, db, c) {
      assert c in ids <==> c in Elements(ids);
      if c in ids {
        var d :| d in deps && d in promoted && d.id == c;
        assert d == Entity(ClaimKind, c);
      }
      if Entity(ClaimKind, c) in deps && PromotedClaim(prev, db, c) {
        assert Entity(ClaimKind, c) in promoted;
      }
    }
    forall i, j | 0 <= i < j < |ids| ensures TextBefore(ids[i], ids[j]) {
      assert IdLeq(ids[i], ids[j]) && ids[i] != ids[j];
      IdLeqOnText(ids[i], ids[j]);
    }
  }

  lemma CarriedIsRebasable(h: Hasher, prev: Db, db: Db, id: string, e: Entity)
    requires id in db.artifacts && e in db.artifacts[id].bindings
    ensures (Considered(prev, db, id)
             && Rebasable(h, db, Promoted(prev, db), prev.artifacts[id], db.artifacts[id], e,
                          db.artifacts[id].bindings[e]))
       <==> Carried(h, prev, db, id, e)
  {
    var b := db.artifacts[id].bindings[e];
    StatusFieldsDecide(db, e, b.certifiedStatus);
    forall d ensures d in Promoted(prev, db) <==> d.kind == ClaimKind && PromotedClaim(prev, db, d.id) {
      PromotedClaimsOnRows(prev, db, d);
    }
    hide Promoted, PromotedClaim, StatusFieldsFit, BindingStatusCurrent, DependencyDigestUnder, DependencyDigest,
         SubjectDigest;
    if c :| Entity(ClaimKind, c) in b.dependencies && PromotedClaim(prev, db, c) {
      assert Entity(ClaimKind, c) in Promoted(prev, db);
    }
  }

  // ----- Reopening -----

  /** Every obligation row after the pass: a refuted one without a named evidence artifact whose
      binding for it is current is active again, and nothing else differs. */
  lemma ReopenedRows(h: Hasher, db: Db)
    requires NoObligationListed(db)
    ensures var after := ReopenInTurn(h, db, SortedIds(RefutedObligations(db)));
      && after == db.(obligations := after.obligations) && after.obligations.Keys == db.obligations.Keys
      && forall o | o in db.obligations ::
           after.obligations[o] ==
             if db.obligations[o].status == Refuted
                && !exists a :: a in db.obligations[o].resolution.evidence && a != ""
                                && HasCurrentBinding(h, db, a, Entity(ObligationKind, o))
             then db.obligations[o].(status := Active) else db.obligations[o]
  {
    var ids := SortedIds(RefutedObligations(db));
    InTurnIsAtOnce(h, db, ids);
    forall o | o in db.obligations
      ensures o in ids && IsStale(h, db, o) <==>
              (&& db.obligations[o].status == Refuted
               && !exists a :: a in db.obligations[o].resolution.evidence && a != ""
                               && HasCurrentBinding(h, db, a, Entity(ObligationKind, o)))
    {
      assert o in ids <==> o in Elements(ids);
    }
    hide HasCurrentBinding, ReopenInTurn, IsStale, NoObligationListed;
  }

  /** The artifact's binding for the obligation lists a claim that the invalidation revokes. */
  ghost predicate ListsRevoked(db: Db, cc: seq<string>, ci: seq<string>, a: string, o: string) {
    var e := Entity(ObligationKind, o);
    && a in db.artifacts && e in db.artifacts[a].bindings
    && exists c :: Entity(ClaimKind, c) in db.artifacts[a].bindings[e].dependencies && c in db.claims
                   && HasVerified(db.claims[c].validation) && c in Reached(db, cc, ci)
  }

  /** Evidence falls with what it rests on: when every bound evidence artifact of a refuted obligation
      is current and lists a claim that the invalidation revokes, the pass that follows reopens the
      obligation. */
  lemma RefutationFalls(h: Hasher, db: Db, cc: seq<string>, ci: seq<string>, o: string)
    requires CollisionFree(h) && NoObligationListed(db)
    requires o in db.obligations && db.obligations[o].status == Refuted
    requires forall a | a in db.obligations[o].resolution.evidence && a in db.artifacts
                        && Entity(ObligationKind, o) in db.artifacts[a].bindings ::
               HasCurrentBinding(h, db, a, Entity(ObligationKind, o)) && ListsRevoked(db, cc, ci, a, o)
    ensures var after := Invalidated(db, cc, ci);
            var reopened := ReopenInTurn(h, after, SortedIds(RefutedObligations(after)));
            o in reopened.obligations && reopened.obligations[o].status == Active
  {
    var after, e := Invalidated(db, cc, ci), Entity(ObligationKind, o);
    InvalidatedRows(db, cc, ci);
    forall a | a in db.obligations[o].resolution.evidence ensures !HasCurrentBinding(h, after, a, e) {
      if a in db.artifacts && e in db.artifacts[a].bindings {
        RevokedListed(h, db, cc, ci, a, o);
      }
    }
    ReopenedRows(h, after);
    hide Invalidated, Reached, ReopenInTurn, ListsRevoked;
  }

  lemma RevokedListed(h: Hasher, db: Db, cc: seq<string>, ci: seq<string>, a: string, o: string)
    requires CollisionFree(h) && HasCurrentBinding(h, db, a, Entity(ObligationKind, o))
    requires ListsRevoked(db, cc, ci, a, o)
    ensures !HasCurrentBinding(h, Invalidated(db, cc, ci), a, Entity(ObligationKind, o))
  {
    var e := Entity(ObligationKind, o);
    var c :| Entity(ClaimKind, c) in db.artifacts[a].bindings[e].dependencies && c in db.claims
             && HasVerified(db.claims[c].validation) && c in Reached(db, cc, ci);
    ListedRevocationMakesStale(h, db, cc, ci, a, e, Entity(ClaimKind, c));
  }

  // ----- Integration -----

  /** A route passes, on the rows: it is sufficient, its conclusion is verified, no active blocking
      obligation is owned by it or by its conclusion, and one of its inferences is verified, concludes
      that claim and has only verified premises. */
  lemma PassesOnRows(db: Db, r: string)
    requires r in db.routes
    ensures var goal := db.routes[r].conclusion;
      Passes(db, r) <==>
      && db.routes[r].relation == "sufficient"
      && goal in db.claims && HasVerified(db.claims[goal].validation)
      && (forall o | o in db.obligations ::
            !(db.obligations[o].status == Active && db.obligations[o].severity == "blocking"
              && (db.obligations[o].ownerId == r || db.obligations[o].ownerId == goal)))
      && (exists i :: i in db.inferences && db.inferences[i].routeId == r && db.inferences[i].conclusion == goal
            && HasVerified(db.inferences[i].validation)
            && forall c | c in db.inferences[i].premises :: c in db.claims && HasVerified(db.claims[c].validation))
  {
    if Passes(db, r) {
      var i :| i in TerminalInferences(db, r);
      assert Terminal(db, r, i);
    }
    if i :| i in db.inferences && Terminal(db, r, i) {
      assert i in TerminalInferences(db, r);
    }
  }

  /** The terminal inferences are exactly those. */
  lemma TerminalOnRows(db: Db, r: string, i: string)
    requires r in db.routes
    ensures i in TerminalInferences(db, r) <==>
      && i in db.inferences && db.inferences[i].routeId == r
      && db.inferences[i].conclusion == db.routes[r].conclusion
      && HasVerified(db.inferences[i].validation)
      && forall c | c in db.inferences[i].premises :: c in db.claims && HasVerified(db.claims[c].validation)
  {
  }

  /** What a known route is found to lack. */
  lemma LacksOnRows(db: Db, r: string, lack: Lack)
    requires r in db.routes
    ensures var goal := db.routes[r].conclusion;
      Lacks(db, r, lack) <==>
        match lack
        case NotSufficient => db.routes[r].relation != "sufficient"
        case ConclusionUnverified => !(goal in db.claims && HasVerified(db.claims[goal].validation))
        case BlockingObligation =>
          exists o :: o in db.obligations && db.obligations[o].status == Active
                      && db.obligations[o].severity == "blocking"
                      && (db.obligations[o].ownerId == r || db.obligations[o].ownerId == goal)
        case NoInferences => forall i | i in db.inferences :: db.inferences[i].routeId != r
        case NoTerminalInference =>
          && (exists i :: i in db.inferences && db.inferences[i].routeId == r)
          && forall i | i in db.inferences && db.inferences[i].routeId == r ::
               !(db.inferences[i].conclusion == goal && HasVerified(db.inferences[i].validation)
                 && forall c | c in db.inferences[i].premises ::
                      c in db.claims && HasVerified(db.claims[c].validation))
  {
    if lack == NoTerminalInference {
      if i :| i in db.inferences && Terminal(db, r, i) {
        assert i in TerminalInferences(db, r);
      }
      if TerminalInferences(db, r) != {} {
        var i :| i in TerminalInferences(db, r);
        assert Terminal(db, r, i);
      }
    }
  }

  // ----- Assurance -----

  /** Some report or formal result of the reviewer class has a current binding for the entity. */
  ghost predicate Reviewed(h: Hasher, db: Db, class_: string, e: Entity) {
    exists a :: a in db.artifacts
      && (db.artifacts[a].artifactType == VerificationReport || db.artifacts[a].artifactType == FormalBackendResult)
      && db.artifacts[a].reviewer.independenceClass == class_ && HasCurrentBinding(h, db, a, e)
  }

  /** The class has reviewed the claim and every inference of the route. */
  ghost predicate ReviewedThroughout(h: Hasher, db: Db, class_: string, claimId: string, routeId: string) {
    && Reviewed(h, db, class_, Entity(ClaimKind, claimId))
    && forall i | i in db.inferences && db.inferences[i].routeId == routeId ::
         Reviewed(h, db, class_, Entity(InferenceKind, i))
  }

  /** When the summary is satisfied, on the rows: without a designation always; for a heterogeneous review
      when a host-checked formal result aimed at this
      claim's present digest has a current binding for it, or one human class, or two different model
      classes, have reviewed the claim and every inference of the route. */
  lemma AssuredOnRows(h: Hasher, db: Db, level: Level, claimId: string, routeId: string)
    ensures Assured(h, db, level, claimId, routeId) <==>
      || level == StandardLevel
      || (exists a :: a in db.artifacts && db.artifacts[a].artifactType == FormalBackendResult
            && db.artifacts[a].hostChecked
            && db.artifacts[a].formalTarget
               == FormalTarget("claim", claimId, SubjectDigest(h, db, Entity(ClaimKind, claimId)))
            && HasCurrentBinding(h, db, a, Entity(ClaimKind, claimId)))
      || (exists c :: "human:" <= c && ReviewedThroughout(h, db, c, claimId, routeId))
      || (exists c, d :: c != d && c != "" && d != ""
            && !("human:" <= c) && !("formal:" <= c) && !("human:" <= d) && !("formal:" <= d)
            && ReviewedThroughout(h, db, c, claimId, routeId) && ReviewedThroughout(h, db, d, claimId, routeId))
  {
    var reviews, keys := ReviewsAmong(db, db.artifacts.Keys), RelevantKeys(db, claimId, routeId);
    forall c
      ensures CompleteClass(h, db, reviews, keys, c) <==> c != "" && ReviewedThroughout(h, db, c, claimId, routeId)
    {
      CompleteOnRows(h, db, c, claimId, routeId);
    }
    forall a ensures FormalCertificate(h, db, claimId, a) <==>
      a in db.artifacts && db.artifacts[a].artifactType == FormalBackendResult && db.artifacts[a].hostChecked
      && db.artifacts[a].formalTarget
         == FormalTarget("claim", claimId, SubjectDigest(h, db, Entity(ClaimKind, claimId)))
      && HasCurrentBinding(h, db, a, Entity(ClaimKind, claimId))
    {
    }
    hide CompleteClass, ReviewedThroughout, FormalCertificate, HasCurrentBinding, SubjectDigest, ReviewsAmong,
         RelevantKeys;
  }

  lemma CompleteOnRows(h: Hasher, db: Db, class_: string, claimId: string, routeId: string)
    ensures CompleteClass(h, db, ReviewsAmong(db, db.artifacts.Keys), RelevantKeys(db, claimId, routeId), class_)
       <==> class_ != "" && ReviewedThroughout(h, db, class_, claimId, routeId)
  {
    var reviews, keys := ReviewsAmong(db, db.artifacts.Keys), RelevantKeys(db, claimId, routeId);
    forall e ensures Covers(h, db, reviews, class_, e) <==> Reviewed(h, db, class_, e) {}
    hide Covers, Reviewed;
    assert Entity(ClaimKind, claimId) in keys;
    forall i | i in db.inferences && db.inferences[i].routeId == routeId ensures Entity(InferenceKind, i) in keys {
      assert i in InferencesOfRoute(db, routeId);
    }
  }

  /** The artifact is a report or formal result with a current binding for the claim or an inference of the
      route. */
  ghost predicate Relevant(h: Hasher, db: Db, a: string, claimId: string, routeId: string) {
    && a in db.artifacts
    && (db.artifacts[a].artifactType == VerificationReport || db.artifacts[a].artifactType == FormalBackendResult)
    && (HasCurrentBinding(h, db, a, Entity(ClaimKind, claimId))
        || exists i :: i in db.inferences && db.inferences[i].routeId == routeId
                       && HasCurrentBinding(h, db, a, Entity(InferenceKind, i)))
  }

  /** What the summary lists, on the rows. */
  lemma SummaryOnRows(h: Hasher, db: Db, claimId: string, routeId: string, r: Summary)
    requires Reported(h, db, claimId, routeId, r)
    ensures forall a :: a in r.reviewIds <==> Relevant(h, db, a, claimId, routeId)
    ensures forall c :: c in r.completeClasses <==> c != "" && ReviewedThroughout(h, db, c, claimId, routeId)
    ensures forall c :: c in r.partialClasses <==>
      && c != "" && !ReviewedThroughout(h, db, c, claimId, routeId)
      && exists a :: Relevant(h, db, a, claimId, routeId) && db.artifacts[a].reviewer.independenceClass == c
    ensures forall a :: a in r.humanIds <==>
      && Relevant(h, db, a, claimId, routeId) && "human:" <= db.artifacts[a].reviewer.independenceClass
      && ReviewedThroughout(h, db, db.artifacts[a].reviewer.independenceClass, claimId, routeId)
  {
    assert forall x | Relevant(h, db, x, claimId, routeId) :: x in db.artifacts;
    hide CompleteClass, PartialClass, ReviewedThroughout, Relevant, Covers, ReviewsAmong, RelevantKeys, HumanReview,
         CurrentKeys, FormalCertificate, InScanOrder;
    forall a ensures a in r.reviewIds <==> Relevant(h, db, a, claimId, routeId) {
      RelevantOnRows(h, db, a, claimId, routeId);
    }
    forall c ensures c in r.completeClasses <==> c != "" && ReviewedThroughout(h, db, c, claimId, routeId) {
      CompleteOnRows(h, db, c, claimId, routeId);
    }
    forall c
      ensures c in r.partialClasses <==>
        && c != "" && !ReviewedThroughout(h, db, c, claimId, routeId)
        && exists a :: Relevant(h, db, a, claimId, routeId) && db.artifacts[a].reviewer.independenceClass == c
    {
      PartialOnRows(h, db, c, claimId, routeId);
    }
    forall a
      ensures a in r.humanIds <==>
        && Relevant(h, db, a, claimId, routeId) && "human:" <= db.artifacts[a].reviewer.independenceClass
        && ReviewedThroughout(h, db, db.artifacts[a].reviewer.independenceClass, claimId, routeId)
    {
      HumanOnRows(h, db, claimId, routeId, r, a);
    }
  }

  lemma PartialOnRows(h: Hasher, db: Db, class_: string, claimId: string, routeId: string)
    ensures PartialClass(h, db, ReviewsAmong(db, db.artifacts.Keys), RelevantKeys(db, claimId, routeId), class_) <==>
      && class_ != "" && !ReviewedThroughout(h, db, class_, claimId, routeId)
      && exists a :: Relevant(h, db, a, claimId, routeId) && db.artifacts[a].reviewer.independenceClass == class_
  {
    CompleteOnRows(h, db, class_, claimId, routeId);
    CoveredOnRows(h, db, class_, claimId, routeId);
    hide CompleteClass, ReviewedThroughout, Relevant, Covers, ReviewsAmong, RelevantKeys;
  }

  lemma HumanOnRows(h: Hasher, db: Db, claimId: string, routeId: string, r: Summary, a: string)
    requires Reported(h, db, claimId, routeId, r)
    requires forall c :: c in r.completeClasses <==> c != "" && ReviewedThroughout(h, db, c, claimId, routeId)
    ensures a in r.humanIds <==>
      && Relevant(h, db, a, claimId, routeId) && "human:" <= db.artifacts[a].reviewer.independenceClass
      && ReviewedThroughout(h, db, db.artifacts[a].reviewer.independenceClass, claimId, routeId)
  {
    RelevantOnRows(h, db, a, claimId, routeId);
    assert Relevant(h, db, a, claimId, routeId) ==> a in db.artifacts;
    assert !("human:" <= "");
    var reviews, keys := ReviewsAmong(db, db.artifacts.Keys), RelevantKeys(db, claimId, routeId);
    hide CompleteClass, PartialClass, ReviewedThroughout, Relevant, ReviewsAmong, RelevantKeys, CurrentKeys,
         FormalCertificate, InScanOrder;
    assert a in r.humanIds <==> exists c :: c in r.completeClasses && a in reviews && HumanReview(h, db, keys, a, c);
    if a in reviews && CurrentKeys(h, db, a, keys) != {} {
      var c := db.artifacts[a].reviewer.independenceClass;
      assert HumanReview(h, db, keys, a, c) <==> "human:" <= c;
    }
  }

  lemma RelevantOnRows(h: Hasher, db: Db, a: string, claimId: string, routeId: string)
    ensures a in ReviewsAmong(db, db.artifacts.Keys) && CurrentKeys(h, db, a, RelevantKeys(db, claimId, routeId)) != {}
       <==> Relevant(h, db, a, claimId, routeId)
  {
    var keys := RelevantKeys(db, claimId, routeId);
    hide HasCurrentBinding;
    if CurrentKeys(h, db, a, keys) != {} {
      var k :| k in CurrentKeys(h, db, a, keys);
    }
    if HasCurrentBinding(h, db, a, Entity(ClaimKind, claimId)) {
      assert Entity(ClaimKind, claimId) in CurrentKeys(h, db, a, keys);
    }
    if i :| i in db.inferences && db.inferences[i].routeId == routeId
            && HasCurrentBinding(h, db, a, Entity(InferenceKind, i)) {
      assert i in InferencesOfRoute(db, routeId);
      assert Entity(InferenceKind, i) in CurrentKeys(h, db, a, keys);
    }
  }

  lemma CoveredOnRows(h: Hasher, db: Db, class_: string, claimId: string, routeId: string)
    ensures var reviews, keys := ReviewsAmong(db, db.artifacts.Keys), RelevantKeys(db, claimId, routeId);
      (exists k :: k in keys && Covers(h, db, reviews, class_, k)) <==>
        exists a :: Relevant(h, db, a, claimId, routeId) && db.artifacts[a].reviewer.independenceClass == class_
  {
    var reviews, keys := ReviewsAmong(db, db.artifacts.Keys), RelevantKeys(db, claimId, routeId);
    forall a ensures a in reviews && CurrentKeys(h, db, a, keys) != {} <==> Relevant(h, db, a, claimId, routeId) {
      RelevantOnRows(h, db, a, claimId, routeId);
    }
    hide HasCurrentBinding, Relevant, RelevantKeys;
    if k :| k in keys && Covers(h, db, reviews, class_, k) {
      var a :| a in reviews && a in db.artifacts && db.artifacts[a].reviewer.independenceClass == class_
               && HasCurrentBinding(h, db, a, k);
      assert k in CurrentKeys(h, db, a, keys);
    }
    if a :| Relevant(h, db, a, claimId, routeId) && db.artifacts[a].reviewer.independenceClass == class_ {
      var k :| k in CurrentKeys(h, db, a, keys);
      assert Covers(h, db, reviews, class_, k);
    }
  }
}
