/** What a digest and a current binding say about the rows themselves. */
module Currency {
  import opened ProofTables

  /** The two states hold rows for the entity that agree on every certified field: all but the
      statuses and the evidence; of an obligation its owner, its text and its type. */
  ghost predicate SameCertifiedFields(d0: Db, d1: Db, e: Entity) {
    match e.kind
    case ClaimKind =>
      && e.id in d0.claims && e.id in d1.claims
      && var c0, c1 := d0.claims[e.id], d1.claims[e.id];
         c1 == c0.(validation := c1.validation, lifecycle := c1.lifecycle, evidence := c1.evidence)
    case InferenceKind =>
      && e.id in d0.inferences && e.id in d1.inferences
      && var i0, i1 := d0.inferences[e.id], d1.inferences[e.id];
         i1 == i0.(validation := i1.validation, evidence := i1.evidence)
    case RouteKind =>
      && e.id in d0.routes && e.id in d1.routes
      && var r0, r1 := d0.routes[e.id], d1.routes[e.id];
         r1 == r0.(status := r1.status, evidence := r1.evidence)
    case ObligationKind =>
      && e.id in d0.obligations && e.id in d1.obligations
      && var o0, o1 := d0.obligations[e.id], d1.obligations[e.id];
         && o0.ownerType == o1.ownerType && o0.ownerId == o1.ownerId
         && o0.obligation == o1.obligation && o0.obligationType == o1.obligationType
  }

  ghost predicate HasRow(db: Db, e: Entity) {
    || (e.kind == ClaimKind && e.id in db.claims) || (e.kind == InferenceKind && e.id in db.inferences)
    || (e.kind == RouteKind && e.id in db.routes) || (e.kind == ObligationKind && e.id in db.obligations)
  }

  /** Rows with equal status as dependencies see it: a claim that is integrated counts as that,
      whatever its validation. */
  ghost predicate SameStatusFields(d0: Db, d1: Db, e: Entity) {
    match e.kind
    case ClaimKind =>
      e.id in d0.claims && e.id in d1.claims ==>
        var c0, c1 := d0.claims[e.id], d1.claims[e.id];
        if c0.lifecycle == Integrated then c1.lifecycle == Integrated || c1.validation == Integrated
        else if c1.lifecycle == Integrated then c0.validation == Integrated
        else c0.validation == c1.validation
    case InferenceKind =>
      e.id in d0.inferences && e.id in d1.inferences ==>
        d0.inferences[e.id].validation == d1.inferences[e.id].validation
    case RouteKind => e.id in d0.routes && e.id in d1.routes ==> d0.routes[e.id].status == d1.routes[e.id].status
    case ObligationKind =>
      e.id in d0.obligations && e.id in d1.obligations ==> d0.obligations[e.id].status == d1.obligations[e.id].status
  }

  /** An entity has the same digest in two states exactly when both lack its row or their rows agree
      on every certified field; and it has none exactly when it has no row. */
  lemma SubjectDigestOnRows(h: Hasher, d0: Db, d1: Db, e: Entity)
    requires CollisionFree(h)
    ensures SubjectDigest(h, d0, e) == SubjectDigest(h, d1, e)
       <==> SameCertifiedFields(d0, d1, e) || (!HasRow(d0, e) && !HasRow(d1, e))
    ensures SubjectDigest(h, d0, e) == "" <==> !HasRow(d0, e)
  {
    SubjectDigestInjective(h, d0, d1, e);
    SubjectDigestInjective(h, d0, d0, e);
    SameSubjectOnRows(d0, d1, e);
    hide SameCertifiedFields, SameSubject, SubjectContent;
  }

  lemma SameSubjectOnRows(d0: Db, d1: Db, e: Entity)
    ensures SameSubject(d0, d1, e) <==> SameCertifiedFields(d0, d1, e) || (!HasRow(d0, e) && !HasRow(d1, e))
    ensures Present(d0, e) <==> HasRow(d0, e)
  {
  }

  lemma SameStatusOnRows(d0: Db, d1: Db, e: Entity)
    requires HasRow(d0, e) && HasRow(d1, e)
    ensures EntityStatus(d0, e) == EntityStatus(d1, e) <==> SameStatusFields(d0, d1, e)
  {
  }

  /** The listed entity is, for a dependency digest, as it was. */
  ghost predicate Undisturbed(d0: Db, d1: Db, e: Entity) {
    (SameCertifiedFields(d0, d1, e) && SameStatusFields(d0, d1, e)) || (!HasRow(d0, e) && !HasRow(d1, e))
  }

  /** A list has the same digest in two states exactly when each listed entity is undisturbed. */
  lemma DependencyDigestOnRows(h: Hasher, d0: Db, d1: Db, deps: seq<Entity>)
    requires CollisionFree(h)
    ensures DependencyDigest(h, d0, deps) == DependencyDigest(h, d1, deps)
       <==> forall n | n in deps :: Undisturbed(d0, d1, n)
  {
    DependencyDigestInjective(h, d0, map[], d1, map[], deps);
    forall n ensures SameSubject(d0, d1, n) && StatusUnder(d0, map[], n) == StatusUnder(d1, map[], n)
                <==> Undisturbed(d0, d1, n)
    {
      SameSubjectOnRows(d0, d1, n);
      SameSubjectOnRows(d1, d0, n);
      if HasRow(d0, n) && HasRow(d1, n) {
        SameStatusOnRows(d0, d1, n);
      }
      hide SameCertifiedFields, SameStatusFields, SameSubject, HasRow;
    }
  }

  /** The subject's own status, as a binding that certifies `bound` needs it: an integrated claim must
      have verified validation and may be certified by that or as integrated; everything else must
      have the very status. */
  ghost predicate StatusFieldsFit(db: Db, e: Entity, bound: Status) {
    match e.kind
    case ClaimKind =>
      && e.id in db.claims
      && var c := db.claims[e.id];
         if c.lifecycle == Integrated then
           (c.validation == InformallyVerified || c.validation == FormallyVerified)
           && (bound == c.validation || bound == Integrated)
         else bound == c.validation
    case InferenceKind => bound == if e.id in db.inferences then db.inferences[e.id].validation else Missing
    case RouteKind => bound == if e.id in db.routes then db.routes[e.id].status else Missing
    case ObligationKind => bound == if e.id in db.obligations then db.obligations[e.id].status else Missing
  }

  /** When a current binding stays current, on the rows alone: the artifact and the certified fields
      of the subject are as they were, its status fits, and every listed entity is undisturbed. */
  lemma CurrencyOnRows(h: Hasher, d0: Db, d1: Db, sha0: string, sha1: string, e: Entity, b: Binding)
    requires CollisionFree(h) && BindingCurrent(h, d0, sha0, e, b)
    ensures b.version == 1 && b.artifactSha == sha0
    ensures BindingCurrent(h, d1, sha1, e, b)
       <==> && sha1 == sha0
            && (SameCertifiedFields(d0, d1, e) || (!HasRow(d0, e) && !HasRow(d1, e)))
            && StatusFieldsFit(d1, e, b.certifiedStatus)
            && forall n | n in b.dependencies :: Undisturbed(d0, d1, n)
  {
    SubjectDigestOnRows(h, d0, d1, e);
    DependencyDigestOnRows(h, d0, d1, b.dependencies);
    StatusFieldsDecide(d1, e, b.certifiedStatus);
    hide Undisturbed, SameCertifiedFields, HasRow, SubjectDigest, DependencyDigest, BindingStatusCurrent,
         StatusFieldsFit;
  }

  lemma StatusFieldsDecide(db: Db, e: Entity, bound: Status)
    ensures BindingStatusCurrent(db, e, bound) <==> StatusFieldsFit(db, e, bound)
  {
  }

  /** The law a caller relies on: editing any certified field of the subject, or any certified field or
      status of a listed entity, makes a current binding stale. */
  lemma EditMakesStale(h: Hasher, d0: Db, d1: Db, a: string, e: Entity, n: Entity)
    requires CollisionFree(h) && HasCurrentBinding(h, d0, a, e)
    requires a in d1.artifacts && e in d1.artifacts[a].bindings
    requires d1.artifacts[a].bindings[e] == d0.artifacts[a].bindings[e]
    requires n == e || n in d0.artifacts[a].bindings[e].dependencies
    requires HasRow(d0, n)
    requires !SameCertifiedFields(d0, d1, n)
          || (n in d0.artifacts[a].bindings[e].dependencies && !SameStatusFields(d0, d1, n))
    ensures !HasCurrentBinding(h, d1, a, e)
  {
    var b := d0.artifacts[a].bindings[e];
    CurrencyOnRows(h, d0, d1, d0.artifacts[a].sha, d1.artifacts[a].sha, e, b);
    hide SameCertifiedFields, SameStatusFields, StatusFieldsFit, BindingCurrent, HasRow;
    assert n in b.dependencies ==> !Undisturbed(d0, d1, n);
  }

  /** For instance: rewording a claim, with nothing else touched. */
  lemma RewordingMakesStale(h: Hasher, db: Db, a: string, c: string, wording: string)
    requires CollisionFree(h) && c in db.claims && wording != db.claims[c].statement
    requires HasCurrentBinding(h, db, a, Entity(ClaimKind, c))
    ensures !HasCurrentBinding(h, db.(claims := db.claims[c := db.claims[c].(statement := wording)]), a,
                               Entity(ClaimKind, c))
  {
    var d1 := db.(claims := db.claims[c := db.claims[c].(statement := wording)]);
    var e := Entity(ClaimKind, c);
    assert d1.claims[c].statement != db.claims[c].statement;
    EditMakesStale(h, db, d1, a, e, e);
  }
}
