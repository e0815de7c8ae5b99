/** The proof-state tables that certificates are computed from, and the digests over them. */
module ProofTables {
  import opened Ordering

  /** The status strings the code compares with; every other string is `Other`. */
  datatype Status =
    | InformallyVerified
    | FormallyVerified
    | Refuted
    | Integrated
    | Challenged
    | Active
    | Missing
    | Other(name: string)

  predicate Verified(s: Status) {
    s.InformallyVerified? || s.FormallyVerified?
  }

  /** CERTIFIED_ENTITY_STATUSES. */
  predicate Certified(s: Status) {
    Verified(s) || s.Refuted? || s.Integrated?
  }

  /** Entity kinds in the order of their key prefixes "claim:", "inference:",
      "proof_obligation:", "route:". No prefix contains a colon, so a key splits uniquely. */
  datatype Kind = ClaimKind | InferenceKind | ObligationKind | RouteKind

  datatype Entity = Entity(kind: Kind, id: string)

  function Rank(k: Kind): nat {
    match k
    case ClaimKind => 0
    case InferenceKind => 1
    case ObligationKind => 2
    case RouteKind => 3
  }

  predicate EntityLeq(a: Entity, b: Entity) {
    Rank(a.kind) < Rank(b.kind) || (a.kind == b.kind && IdLeq(a.id, b.id))
  }

  lemma EntityTotalOrder()
    ensures TotalOrder(EntityLeq)
  {
    IdTotalOrder();
  }

  function SortedEntities(s: set<Entity>): (r: seq<Entity>)
    ensures Elements(r) == s
    ensures Ascending(EntityLeq, r) && NoDuplicates(r)
  {
    EntityTotalOrder();
    SortedBy(EntityLeq, s)
  }

  datatype Claim = Claim(
    kind: string,
    statement: string,
    hypotheses: string,
    conditions: seq<string>,
    parentIds: seq<string>,
    validation: Status,
    lifecycle: Status,
    evidence: seq<string>)

  /** `premises` are the rows of the premise table in position order. */
  datatype Inference = Inference(
    routeId: string,
    conclusion: string,
    premises: seq<string>,
    explanation: string,
    conditions: seq<string>,
    conditionClaims: seq<string>,
    validation: Status,
    evidence: seq<string>)

  datatype Route = Route(
    conclusion: string,
    strategy: string,
    relation: string,
    assumptions: seq<string>,
    conditions: seq<string>,
    status: Status,
    evidence: seq<string>)

  /** The decoded resolution record of an obligation. */
  datatype Resolution = Resolution(
    claimIds: seq<string>,
    inferenceIds: seq<string>,
    routeIds: seq<string>,
    evidence: seq<string>)

  datatype Obligation = Obligation(
    ownerType: string,
    ownerId: string,
    obligation: string,
    obligationType: string,
    severity: string,
    status: Status,
    resolution: Resolution)

  datatype Reviewer = Reviewer(
    identity: string,
    independenceClass: string,
    backend: string,
    backendVersion: string,
    contractHash: string,
    model: string)

  datatype Rebase = Rebase(
    revision: int,
    previousDigest: string,
    newDigest: string,
    claimIds: seq<string>)

  /** A host certificate binding. A binding whose dependency list is not a list is
      represented with a version other than 1: both are rejected alike. */
  datatype Binding = Binding(
    version: int,
    subjectDigest: string,
    dependencyDigest: string,
    dependencies: seq<Entity>,
    artifactSha: string,
    certifiedStatus: Status,
    boundRevision: int,
    reviewer: Reviewer,
    rebases: seq<Rebase>)

  datatype ArtifactType =
    | VerificationReport
    | IntegrationReport
    | FormalBackendResult
    | ConfirmedCounterexample
    | OtherArtifact(name: string)

  predicate IsCertificate(t: ArtifactType) {
    !t.OtherArtifact?
  }

  datatype FormalTarget = NoTarget | FormalTarget(targetType: string, targetId: string, subjectDigest: string)

  /** `routeTarget` is the metadata's route_id or target_route_id, empty when absent. */
  datatype Artifact = Artifact(
    artifactType: ArtifactType,
    sha: string,
    stateRevision: int,
    reviewer: Reviewer,
    routeTarget: string,
    hostChecked: bool,
    formalTarget: FormalTarget,
    bindings: map<Entity, Binding>)

  datatype Db = Db(
    claims: map<string, Claim>,
    inferences: map<string, Inference>,
    routes: map<string, Route>,
    obligations: map<string, Obligation>,
    artifacts: map<string, Artifact>)

  /** What `_digest` is applied to. The canonical JSON of a sorted list of records with
      distinct keys is represented by the finite map it lists. */
  datatype DigestInput =
    | ClaimContent(id: string, kind: string, statement: string, hypotheses: string,
                   conditions: seq<string>, parentIds: seq<string>)
    | InferenceContent(id: string, routeId: string, conclusion: string, premises: seq<string>,
                       explanation: string, conditions: seq<string>, conditionClaims: seq<string>)
    | RouteContent(id: string, conclusion: string, strategy: string, relation: string,
                   assumptions: seq<string>, conditions: seq<string>)
    | ObligationContent(id: string, ownerType: string, ownerId: string, obligation: string,
                        obligationType: string)
    | DependencyTable(entries: map<Entity, DependencyRecord>)

  datatype DependencyRecord = DependencyRecord(subjectDigest: string, status: Status)

  type Hasher = DigestInput -> string

  /** The hash hypothesis: no collisions, and a digest is never the empty string. */
  ghost predicate CollisionFree(h: Hasher) {
    && (forall x, y :: h(x) == h(y) ==> x == y)
    && (forall x :: h(x) != "")
  }

  /** Whether the entity has a row. */
  predicate Present(db: Db, e: Entity) {
    match e.kind
    case ClaimKind => e.id in db.claims
    case InferenceKind => e.id in db.inferences
    case ObligationKind => e.id in db.obligations
    case RouteKind => e.id in db.routes
  }

  function SubjectContent(db: Db, e: Entity): DigestInput
    requires Present(db, e)
  {
    match e.kind
    case ClaimKind =>
      var c := db.claims[e.id];
      ClaimContent(e.id, c.kind, c.statement, c.hypotheses, c.conditions, c.parentIds)
    case InferenceKind =>
      var i := db.inferences[e.id];
      InferenceContent(e.id, i.routeId, i.conclusion, i.premises, i.explanation, i.conditions, i.conditionClaims)
    case RouteKind =>
      var r := db.routes[e.id];
      RouteContent(e.id, r.conclusion, r.strategy, r.relation, r.assumptions, r.conditions)
    case ObligationKind =>
      var o := db.obligations[e.id];
      ObligationContent(e.id, o.ownerType, o.ownerId, o.obligation, o.obligationType)
  }

  function SubjectDigest(h: Hasher, db: Db, e: Entity): string {
    if Present(db, e) then h(SubjectContent(db, e)) else ""
  }

  function EntityStatus(db: Db, e: Entity): Status {
    if !Present(db, e) then Missing
    else
      match e.kind
      case ClaimKind => if db.claims[e.id].lifecycle == Integrated then Integrated else db.claims[e.id].validation
      case InferenceKind => db.inferences[e.id].validation
      case RouteKind => db.routes[e.id].status
      case ObligationKind => db.obligations[e.id].status
  }

  function StatusUnder(db: Db, overrides: map<Entity, Status>, e: Entity): Status {
    if e in overrides then overrides[e] else EntityStatus(db, e)
  }

  function DependencyEntries(h: Hasher, db: Db, overrides: map<Entity, Status>, deps: seq<Entity>)
    : map<Entity, DependencyRecord>
  {
    map e | e in deps :: DependencyRecord(SubjectDigest(h, db, e), StatusUnder(db, overrides, e))
  }

  function DependencyDigestUnder(h: Hasher, db: Db, overrides: map<Entity, Status>, deps: seq<Entity>): string {
    h(DependencyTable(DependencyEntries(h, db, overrides, deps)))
  }

  function DependencyDigest(h: Hasher, db: Db, deps: seq<Entity>): string {
    DependencyDigestUnder(h, db, map[], deps)
  }

  /** The claim's two independent status coordinates, against the status a binding recorded. */
  predicate BindingStatusCurrent(db: Db, e: Entity, bound: Status) {
    if e.kind != ClaimKind then
      bound == EntityStatus(db, e)
    else if e.id !in db.claims then
      false
    else
      var c := db.claims[e.id];
      if c.lifecycle == Integrated then
        Verified(c.validation) && (bound == c.validation || bound == Integrated)
      else
        bound == c.validation
  }

  predicate BindingCurrent(h: Hasher, db: Db, sha: string, e: Entity, b: Binding) {
    && b.version == 1
    && b.artifactSha == sha
    && b.subjectDigest == SubjectDigest(h, db, e)
    && b.dependencyDigest == DependencyDigest(h, db, b.dependencies)
    && BindingStatusCurrent(db, e, b.certifiedStatus)
  }

  /** artifact_has_current_binding. */
  predicate HasCurrentBinding(h: Hasher, db: Db, artifactId: string, e: Entity) {
    && artifactId in db.artifacts
    && e in db.artifacts[artifactId].bindings
    && BindingCurrent(h, db, db.artifacts[artifactId].sha, e, db.artifacts[artifactId].bindings[e])
  }

  /** Two states give an entity the same content and the same status. */
  predicate SameSubject(d0: Db, d1: Db, e: Entity) {
    && (Present(d0, e) <==> Present(d1, e))
    && (Present(d0, e) ==> SubjectContent(d0, e) == SubjectContent(d1, e))
  }

  lemma SubjectDigestInjective(h: Hasher, d0: Db, d1: Db, e: Entity)
    requires CollisionFree(h)
    ensures SubjectDigest(h, d0, e) == SubjectDigest(h, d1, e) <==> SameSubject(d0, d1, e)
  {
  }

  /** Equal dependency digests, taken in two states and under two sets of status
      overrides, agree on every listed entity, and conversely. */
  lemma DependencyDigestInjective(
      h: Hasher, d0: Db, o0: map<Entity, Status>, d1: Db, o1: map<Entity, Status>, deps: seq<Entity>)
    requires CollisionFree(h)
    ensures DependencyDigestUnder(h, d0, o0, deps) == DependencyDigestUnder(h, d1, o1, deps)
       <==> (forall e | e in deps :: SameSubject(d0, d1, e) && StatusUnder(d0, o0, e) == StatusUnder(d1, o1, e))
  {
    var t0, t1 := DependencyEntries(h, d0, o0, deps), DependencyEntries(h, d1, o1, deps);
    if h(DependencyTable(t0)) == h(DependencyTable(t1)) {
      assert DependencyTable(t0) == DependencyTable(t1);
      assert t0 == t1;
      forall e | e in deps
        ensures SameSubject(d0, d1, e) && StatusUnder(d0, o0, e) == StatusUnder(d1, o1, e)
      {
        assert t0[e] == t1[e];
        SubjectDigestInjective(h, d0, d1, e);
      }
    }
    if forall e | e in deps :: SameSubject(d0, d1, e) && StatusUnder(d0, o0, e) == StatusUnder(d1, o1, e) {
      forall e | e in deps ensures t0[e] == t1[e] {
        SubjectDigestInjective(h, d0, d1, e);
      }
      assert t0 == t1;
    }
  }

  /** The database handle the certificate passes read and update. */
  class ProofStore {
    const digest: Hasher
    var claims: map<string, Claim>
    var inferences: map<string, Inference>
    var routes: map<string, Route>
    var obligations: map<string, Obligation>
    var artifacts: map<string, Artifact>

    constructor (digest: Hasher, db: Db)
      ensures this.digest == digest && Snapshot() == db
    {
      this.digest := digest;
      claims := db.claims;
      inferences := db.inferences;
      routes := db.routes;
      obligations := db.obligations;
      artifacts := db.artifacts;
    }

    function Snapshot(): Db
      reads this
    {
      Db(claims, inferences, routes, obligations, artifacts)
    }
  }
}
