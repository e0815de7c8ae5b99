/** The enhanced-assurance check that consumes current bindings. */
module Assurance {
  import opened Ordering
  import opened ProofTables
  import opened Closure
  import opened Invalidation
  import opened Integration

  datatype Level = StandardLevel | HeterogeneousReview

  datatype Basis = StandardPolicy | FormalChecker | HumanCheckpoint | TwoModelFamilies | Unsatisfied

  datatype Summary = Summary(
    satisfied: bool,
    basis: Basis,
    completeClasses: set<string>,
    partialClasses: set<string>,
    reviewIds: seq<string>,
    formalIds: seq<string>,
    humanIds: seq<string>)

  predicate IsReview(t: ArtifactType) {
    t == VerificationReport || t == FormalBackendResult
  }

  predicate HumanClass(c: string) {
    "human:" <= c
  }

  predicate ModelClass(c: string) {
    c != "" && !("human:" <= c) && !("formal:" <= c)
  }

  /** The claim and every inference of the route. */
  function RelevantKeys(db: Db, claimId: string, routeId: string): set<Entity> {
    {Entity(ClaimKind, claimId)} + set i | i in InferencesOfRoute(db, routeId) :: Entity(InferenceKind, i)
  }

  /** The relevant keys for which a review artifact has a current binding. */
  function CurrentKeys(h: Hasher, db: Db, a: string, keys: set<Entity>): set<Entity> {
    set k | k in keys && HasCurrentBinding(h, db, a, k)
  }

  function ReviewsAmong(db: Db, ids: set<string>): set<string> {
    set a | a in ids && a in db.artifacts && IsReview(db.artifacts[a].artifactType)
  }

  /** Some review of the class has a current binding for the key. */
  predicate Covers(h: Hasher, db: Db, reviews: set<string>, class_: string, k: Entity) {
    exists a :: a in reviews && a in db.artifacts && db.artifacts[a].reviewer.independenceClass == class_
                && HasCurrentBinding(h, db, a, k)
  }

  predicate CompleteClass(h: Hasher, db: Db, reviews: set<string>, keys: set<Entity>, class_: string) {
    class_ != "" && forall k | k in keys :: Covers(h, db, reviews, class_, k)
  }

  /** Some coverage, but not all of it. */
  predicate PartialClass(h: Hasher, db: Db, reviews: set<string>, keys: set<Entity>, class_: string) {
    class_ != "" && (exists k :: k in keys && Covers(h, db, reviews, class_, k))
    && !CompleteClass(h, db, reviews, keys, class_)
  }

  /** A successful checker run aimed at this very claim, with a current binding for it. */
  predicate FormalCertificate(h: Hasher, db: Db, claimId: string, a: string) {
    && a in db.artifacts
    && db.artifacts[a].artifactType == FormalBackendResult
    && db.artifacts[a].hostChecked
    && db.artifacts[a].formalTarget
       == FormalTarget("claim", claimId, SubjectDigest(h, db, Entity(ClaimKind, claimId)))
    && HasCurrentBinding(h, db, a, Entity(ClaimKind, claimId))
  }

  /** The requirement: a formal certificate, a complete human review, or complete reviews by two
      distinct model families. */
  ghost predicate Assured(h: Hasher, db: Db, level: Level, claimId: string, routeId: string) {
    var reviews, keys := ReviewsAmong(db, db.artifacts.Keys), RelevantKeys(db, claimId, routeId);
    || level != HeterogeneousReview
    || (exists a :: FormalCertificate(h, db, claimId, a))
    || HumanAssured(h, db, reviews, keys)
    || ModelAssured(h, db, reviews, keys)
  }

  ghost predicate HumanAssured(h: Hasher, db: Db, reviews: set<string>, keys: set<Entity>) {
    exists c :: HumanClass(c) && CompleteClass(h, db, reviews, keys, c)
  }

  ghost predicate ModelAssured(h: Hasher, db: Db, reviews: set<string>, keys: set<Entity>) {
    exists c, d :: c != d && ModelClass(c) && ModelClass(d)
                   && CompleteClass(h, db, reviews, keys, c) && CompleteClass(h, db, reviews, keys, d)
  }

  /** The scan order: state revision, then identifier. */
  predicate ScanLeq(db: Db, a: string, b: string) {
    Revision(db, a) < Revision(db, b) || (Revision(db, a) == Revision(db, b) && IdLeq(a, b))
  }

  function Revision(db: Db, a: string): int {
    if a in db.artifacts then db.artifacts[a].stateRevision else 0
  }

  /** Listed in scan order, each once. */
  predicate InScanOrder(db: Db, ids: seq<string>) {
    forall i, j | 0 <= i < j < |ids| :: ScanLeq(db, ids[i], ids[j]) && ids[i] != ids[j]
  }

  function ScanOrder(db: Db): (r: seq<string>)
    ensures Elements(r) == ReviewsAmong(db, db.artifacts.Keys) && NoDuplicates(r)
    ensures InScanOrder(db, r)
  {
    IdTotalOrder();
    var leq := (a: string, b: string) => ScanLeq(db, a, b);
    assert TotalOrder(leq);
    var r := SortedBy(leq, ReviewsAmong(db, db.artifacts.Keys));
    assert forall i, j | 0 <= i < j < |r| :: leq(r[i], r[j]) && r[i] != r[j];
    r
  }

  /** A list taken from the scanned rows, with the next row added. */
  lemma ScanOrderAppend(db: Db, rows: seq<string>, k: nat, ids: seq<string>)
    requires k < |rows| && InScanOrder(db, rows) && InScanOrder(db, ids)
    requires forall x | x in ids :: x in rows[..k]
    ensures InScanOrder(db, ids + [rows[k]])
  {
    hide ScanLeq;
    forall i | 0 <= i < |ids| ensures ScanLeq(db, ids[i], rows[k]) && ids[i] != rows[k] {
      assert ids[i] in rows[..k];
    }
  }

  /** Per class, the keys covered by the reviews in `seen`; classes that cover nothing are absent. */
  ghost predicate Coverage(h: Hasher, db: Db, keys: set<Entity>, seen: set<string>,
                           coverage: map<string, set<Entity>>)
  {
    && (forall c :: c in coverage <==> c != "" && exists k :: k in keys && Covers(h, db, seen, c, k))
    && (forall c, k | c in coverage :: k in coverage[c] <==> k in keys && Covers(h, db, seen, c, k))
  }

  /** The coverage after one more review. */
  function CoverageWith(coverage: map<string, set<Entity>>, class_: string, current: set<Entity>)
    : map<string, set<Entity>>
  {
    if current == {} || class_ == "" then coverage
    else coverage[class_ := (if class_ in coverage then coverage[class_] else {}) + current]
  }

  lemma CoverageStep(h: Hasher, db: Db, keys: set<Entity>, seen: set<string>, coverage: map<string, set<Entity>>,
                     a: string)
    requires a in db.artifacts && Coverage(h, db, keys, seen, coverage)
    ensures Coverage(h, db, keys, seen + {a},
                     CoverageWith(coverage, db.artifacts[a].reviewer.independenceClass, CurrentKeys(h, db, a, keys)))
  {
    var current, class_ := CurrentKeys(h, db, a, keys), db.artifacts[a].reviewer.independenceClass;
    var after := CoverageWith(coverage, class_, current);
    forall c ensures
      && (c in after <==> c != "" && exists k :: k in keys && Covers(h, db, seen + {a}, c, k))
      && (c in after ==> forall k :: k in after[c] <==> k in keys && Covers(h, db, seen + {a}, c, k))
    {
      CoverageOfClass(h, db, keys, seen, coverage, a, c);
    }
  }

  lemma CoverageOfClass(h: Hasher, db: Db, keys: set<Entity>, seen: set<string>, coverage: map<string, set<Entity>>,
                        a: string, c: string)
    requires a in db.artifacts && Coverage(h, db, keys, seen, coverage)
    ensures var after :=
        CoverageWith(coverage, db.artifacts[a].reviewer.independenceClass, CurrentKeys(h, db, a, keys));
      && (c in after <==> c != "" && exists k :: k in keys && Covers(h, db, seen + {a}, c, k))
      && (c in after ==> forall k :: k in after[c] <==> k in keys && Covers(h, db, seen + {a}, c, k))
  {
    var current, class_ := CurrentKeys(h, db, a, keys), db.artifacts[a].reviewer.independenceClass;
    forall k ensures Covers(h, db, seen + {a}, c, k)
                <==> Covers(h, db, seen, c, k) || (c == class_ && HasCurrentBinding(h, db, a, k))
    {
      CoversStep(h, db, seen, a, c, k);
    }
    var covered := set k | k in keys && Covers(h, db, seen, c, k);
    var covered' := set k | k in keys && Covers(h, db, seen + {a}, c, k);
    assert covered' == covered + if c == class_ then current else {};
    CoverageAt(h, db, keys, seen, coverage, c, covered);
    assert covered' != {} <==> exists k :: k in keys && Covers(h, db, seen + {a}, c, k) by {
      hide Covers;
      if k :| k in keys && Covers(h, db, seen + {a}, c, k) { assert k in covered'; }
    }
    hide *;
    CoverageAfter(coverage, class_, current, c, covered);
    assert c in CoverageWith(coverage, class_, current) <==> c != "" && covered' != {};
  }

  lemma CoverageAfter(coverage: map<string, set<Entity>>, class_: string, current: set<Entity>, c: string,
                      covered: set<Entity>)
    requires c in coverage <==> c != "" && covered != {}
    requires c in coverage ==> coverage[c] == covered
    ensures var covered' := covered + if c == class_ then current else {};
      && (c in CoverageWith(coverage, class_, current) <==> c != "" && covered' != {})
      && (c in CoverageWith(coverage, class_, current) ==> CoverageWith(coverage, class_, current)[c] == covered')
  {
  }

  lemma CoverageAt(h: Hasher, db: Db, keys: set<Entity>, seen: set<string>, coverage: map<string, set<Entity>>,
                   c: string, covered: set<Entity>)
    requires Coverage(h, db, keys, seen, coverage)
    requires covered == set k | k in keys && Covers(h, db, seen, c, k)
    ensures c in coverage <==> c != "" && covered != {}
    ensures c in coverage ==> coverage[c] == covered
  {
    hide Covers;
    if k :| k in keys && Covers(h, db, seen, c, k) {
      assert k in covered;
    }
    if c in coverage {
      forall k ensures k in coverage[c] <==> k in covered {}
    }
  }

  lemma CoversStep(h: Hasher, db: Db, seen: set<string>, a: string, c: string, k: Entity)
    requires a in db.artifacts
    ensures Covers(h, db, seen + {a}, c, k)
       <==> Covers(h, db, seen, c, k)
            || (c == db.artifacts[a].reviewer.independenceClass && HasCurrentBinding(h, db, a, k))
  {
    hide HasCurrentBinding;
  }

  lemma TwoMembers<T>(s: set<T>)
    ensures |s| >= 2 <==> exists x, y :: x in s && y in s && x != y
  {
    if |s| >= 2 {
      var x :| x in s;
      assert |s - {x}| >= 1;
      var y :| y in s - {x};
    }
    if x, y :| x in s && y in s && x != y {
      assert {x, y} <= s;
      assert |s - {x, y}| == |s| - |{x, y}|;
      assert |{x, y}| == 2;
    }
  }

  /** A human review of the class with a current binding for a relevant key. */
  predicate HumanReview(h: Hasher, db: Db, keys: set<Entity>, a: string, class_: string) {
    a in db.artifacts && HumanClass(class_) && db.artifacts[a].reviewer.independenceClass == class_
    && CurrentKeys(h, db, a, keys) != {}
  }

  ghost predicate HumanIndex(h: Hasher, db: Db, keys: set<Entity>, seen: set<string>, human: map<string, seq<string>>) {
    forall c, a :: (c in human && a in human[c]) <==> a in seen && HumanReview(h, db, keys, a, c)
  }

  /** The index after one more review. */
  function HumanWith(human: map<string, seq<string>>, class_: string, a: string, current: set<Entity>)
    : map<string, seq<string>>
  {
    if current == {} || !HumanClass(class_) then human
    else human[class_ := (if class_ in human then human[class_] else []) + [a]]
  }

  lemma HumanIndexStep(h: Hasher, db: Db, keys: set<Entity>, seen: set<string>, human: map<string, seq<string>>,
                       a: string)
    requires a in db.artifacts && HumanIndex(h, db, keys, seen, human)
    ensures HumanIndex(h, db, keys, seen + {a},
                       HumanWith(human, db.artifacts[a].reviewer.independenceClass, a, CurrentKeys(h, db, a, keys)))
  {
    hide CurrentKeys, HumanClass;
  }

  lemma NothingListed(h: Hasher, db: Db, keys: set<Entity>)
    ensures HumanIndex(h, db, keys, {}, map[]) && InScanOrder(db, [])
  {
  }

  /** The scan over the review artifacts. */
  method ScanReviews(h: Hasher, db: Db, claimId: string, keys: set<Entity>)
    returns (coverage: map<string, set<Entity>>, reviewIds: seq<string>, formal: seq<string>,
             human: map<string, seq<string>>)
    requires Entity(ClaimKind, claimId) in keys
    ensures var reviews := ReviewsAmong(db, db.artifacts.Keys);
      && Coverage(h, db, keys, reviews, coverage)
      && HumanIndex(h, db, keys, reviews, human)
      && (forall a :: a in reviewIds <==> a in reviews && CurrentKeys(h, db, a, keys) != {})
      && (forall a :: a in formal <==> a in reviews && FormalCertificate(h, db, claimId, a))
    ensures InScanOrder(db, reviewIds) && InScanOrder(db, formal)
  {
    hide Covers, HasCurrentBinding, FormalCertificate, SubjectDigest, Coverage, CurrentKeys, HumanIndex, InScanOrder;
    var claimKey := Entity(ClaimKind, claimId);
    coverage, reviewIds, formal, human := map[], [], [], map[];
    var rows := ScanOrder(db);
    ghost var seen: set<string> := {};
    NothingCovered(h, db, keys);
    NothingListed(h, db, keys);
    for k := 0 to |rows|
      invariant seen == Elements(rows[..k])
      invariant Coverage(h, db, keys, seen, coverage)
      invariant HumanIndex(h, db, keys, seen, human)
      invariant forall a :: a in reviewIds <==> a in seen && CurrentKeys(h, db, a, keys) != {}
      invariant forall a :: a in formal <==> a in seen && FormalCertificate(h, db, claimId, a)
      invariant InScanOrder(db, reviewIds) && InScanOrder(db, formal)
    {
      var a := rows[k];
      assert a in Elements(rows);
      assert forall x :: x in rows[..k] <==> x in seen;
      ScanOrderAppend(db, rows, k, reviewIds);
      ScanOrderAppend(db, rows, k, formal);
      var current := CurrentKeys(h, db, a, keys);
      var class_ := db.artifacts[a].reviewer.independenceClass;
      CoverageStep(h, db, keys, seen, coverage, a);
      HumanIndexStep(h, db, keys, seen, human, a);
      FormalStep(h, db, keys, claimId, a);
      if current != {} {
        reviewIds := reviewIds + [a];
        if class_ != "" {
          coverage := coverage[class_ := (if class_ in coverage then coverage[class_] else {}) + current];
        }
        if HumanClass(class_) {
          human := human[class_ := (if class_ in human then human[class_] else []) + [a]];
        }
        if db.artifacts[a].artifactType == FormalBackendResult
           && db.artifacts[a].hostChecked
           && claimKey in current
           && db.artifacts[a].formalTarget == FormalTarget("claim", claimId, SubjectDigest(h, db, claimKey)) {
          formal := formal + [a];
        }
      }
      seen := seen + {a};
    }
    assert rows[..|rows|] == rows;
  }

  /** Which path is named when several hold. */
  predicate HasHuman(classes: set<string>) {
    exists c :: c in classes && HumanClass(c)
  }

  predicate HasTwoModels(classes: set<string>) {
    exists c, d :: c in classes && d in classes && c != d && ModelClass(c) && ModelClass(d)
  }

  function ExpectedBasis(level: Level, r: Summary): Basis {
    if level != HeterogeneousReview then StandardPolicy
    else if r.formalIds != [] then FormalChecker
    else if HasHuman(r.completeClasses) then HumanCheckpoint
    else if r.satisfied then TwoModelFamilies
    else Unsatisfied
  }

  /** The reported lists and classes mean what they say. */
  ghost predicate Reported(h: Hasher, db: Db, claimId: string, routeId: string, r: Summary) {
    var reviews, keys := ReviewsAmong(db, db.artifacts.Keys), RelevantKeys(db, claimId, routeId);
    && (forall c :: c in r.completeClasses <==> CompleteClass(h, db, reviews, keys, c))
    && (forall a :: a in r.formalIds <==> FormalCertificate(h, db, claimId, a))
    && (forall a :: a in r.humanIds <==>
          exists c :: c in r.completeClasses && a in reviews && HumanReview(h, db, keys, a, c))
    && (forall a :: a in r.reviewIds <==> a in reviews && CurrentKeys(h, db, a, keys) != {})
    && (forall c :: c in r.partialClasses <==> PartialClass(h, db, reviews, keys, c))
    && InScanOrder(db, r.reviewIds) && InScanOrder(db, r.formalIds) && Ascending(IdLeq, r.humanIds)
  }

  /** claim_assurance_summary. */
  method ClaimAssuranceSummary(h: Hasher, db: Db, level: Level, claimId: string, routeId: string)
    returns (r: Summary)
    ensures r.satisfied <==> Assured(h, db, level, claimId, routeId)
    ensures level == HeterogeneousReview ==> Reported(h, db, claimId, routeId, r)
    ensures r.basis == ExpectedBasis(level, r)
  {
    if level != HeterogeneousReview {
      r := Summary(true, StandardPolicy, {}, {}, [], [], []);
    } else {
      hide Reported;
      r := ReviewSummary(h, db, claimId, routeId);
    }
  }

  /** The summary of a claim designated for heterogeneous review. */
  method ReviewSummary(h: Hasher, db: Db, claimId: string, routeId: string) returns (r: Summary)
    ensures r.satisfied <==> Assured(h, db, HeterogeneousReview, claimId, routeId)
    ensures Reported(h, db, claimId, routeId, r)
    ensures r.basis == ExpectedBasis(HeterogeneousReview, r)
  {
    ghost var reviews := ReviewsAmong(db, db.artifacts.Keys);
    var keys := RelevantKeys(db, claimId, routeId);
    ClaimIsRelevant(db, claimId, routeId);
    var coverage, reviewIds, formal, human := ScanReviews(h, db, claimId, keys);
    var complete := set c | c in coverage && keys <= coverage[c];
    CompleteIsComplete(h, db, reviews, keys, claimId, coverage, complete);
    FormalIsReview(h, db, claimId);
    FirstMember(formal);
    hide *;
    var humans := set c | c in complete && HumanClass(c);
    var humanIds := HumanIds(h, db, keys, reviews, human, complete, humans);
    r := Judge(complete, coverage.Keys - complete, reviewIds, formal, humanIds);
    JudgeFields(complete, coverage.Keys - complete, reviewIds, formal, humanIds);
    JudgeClasses(h, db, reviews, keys, complete);
    AssuredByPaths(h, db, claimId, routeId, formal);
    ReportedBy(h, db, claimId, routeId, r, reviews, keys);
  }

  /** The verdict: a formal certificate first, then a human checkpoint, then two model families. */
  function Judge(complete: set<string>, partial: set<string>, reviewIds: seq<string>, formal: seq<string>,
                 humanIds: seq<string>): Summary
  {
    var models := set c | c in complete && ModelClass(c);
    var humans := set c | c in complete && HumanClass(c);
    if formal != [] then Summary(true, FormalChecker, complete, partial, reviewIds, formal, humanIds)
    else if humans != {} then Summary(true, HumanCheckpoint, complete, partial, reviewIds, formal, humanIds)
    else if |models| >= 2 then Summary(true, TwoModelFamilies, complete, partial, reviewIds, formal, humanIds)
    else Summary(false, Unsatisfied, complete, partial, reviewIds, formal, humanIds)
  }

  lemma JudgeFields(complete: set<string>, partial: set<string>, reviewIds: seq<string>, formal: seq<string>,
                    humanIds: seq<string>)
    ensures var r := Judge(complete, partial, reviewIds, formal, humanIds);
      && r.completeClasses == complete && r.partialClasses == partial
      && r.reviewIds == reviewIds && r.formalIds == formal && r.humanIds == humanIds
      && r.basis == ExpectedBasis(HeterogeneousReview, r)
      && (r.satisfied <==> formal != [] || HasHuman(complete) || HasTwoModels(complete))
  {
    HumansAndModels(complete);
    hide HasHuman, HasTwoModels, HumanClass, ModelClass;
  }

  lemma HumansAndModels(classes: set<string>)
    ensures (set c | c in classes && HumanClass(c)) != {} <==> HasHuman(classes)
    ensures |set c | c in classes && ModelClass(c)| >= 2 <==> HasTwoModels(classes)
  {
    hide HumanClass, ModelClass;
    var humans, models := (set c | c in classes && HumanClass(c)), (set c | c in classes && ModelClass(c));
    TwoMembers(models);
    if c :| c in classes && HumanClass(c) {
      assert c in humans;
    }
    if c, d :| c in classes && d in classes && c != d && ModelClass(c) && ModelClass(d) {
      assert c in models && d in models;
    }
  }

  lemma ReportedBy(h: Hasher, db: Db, claimId: string, routeId: string, r: Summary, reviews: set<string>,
                   keys: set<Entity>)
    requires reviews == ReviewsAmong(db, db.artifacts.Keys) && keys == RelevantKeys(db, claimId, routeId)
    requires forall c :: c in r.completeClasses <==> CompleteClass(h, db, reviews, keys, c)
    requires forall a :: a in r.formalIds <==> FormalCertificate(h, db, claimId, a)
    requires forall a :: a in r.humanIds <==>
      exists c :: c in r.completeClasses && a in reviews && HumanReview(h, db, keys, a, c)
    requires forall a :: a in r.reviewIds <==> a in reviews && CurrentKeys(h, db, a, keys) != {}
    requires forall c :: c in r.partialClasses <==> PartialClass(h, db, reviews, keys, c)
    requires InScanOrder(db, r.reviewIds) && InScanOrder(db, r.formalIds) && Ascending(IdLeq, r.humanIds)
    ensures Reported(h, db, claimId, routeId, r)
  {
    hide PartialClass, InScanOrder, Ascending, IdLeq, CompleteClass, FormalCertificate, HumanReview, CurrentKeys,
         ReviewsAmong, RelevantKeys;
  }

  /** The human reviews behind the complete human classes. */
  method HumanIds(h: Hasher, db: Db, keys: set<Entity>, ghost reviews: set<string>, human: map<string, seq<string>>,
                  ghost complete: set<string>, humans: set<string>)
    returns (ids: seq<string>)
    requires HumanIndex(h, db, keys, reviews, human)
    requires humans == set c | c in complete && HumanClass(c)
    ensures forall a :: a in ids <==> exists c :: c in complete && a in reviews && HumanReview(h, db, keys, a, c)
    ensures Ascending(IdLeq, ids)
  {
    hide CurrentKeys, IdLeq;
    ids := SortedIds(set c, a | c in humans && c in human && a in human[c] :: a);
    forall a ensures a in ids <==> exists c :: c in complete && a in reviews && HumanReview(h, db, keys, a, c) {
      assert a in ids <==> a in Elements(ids);
    }
  }

  lemma AssuredByPaths(h: Hasher, db: Db, claimId: string, routeId: string, formal: seq<string>)
    requires formal != [] <==> exists a :: FormalCertificate(h, db, claimId, a)
    ensures Assured(h, db, HeterogeneousReview, claimId, routeId) <==>
      || formal != []
      || HumanAssured(h, db, ReviewsAmong(db, db.artifacts.Keys), RelevantKeys(db, claimId, routeId))
      || ModelAssured(h, db, ReviewsAmong(db, db.artifacts.Keys), RelevantKeys(db, claimId, routeId))
  {
    hide FormalCertificate, HumanAssured, ModelAssured;
  }

  lemma FirstMember(ids: seq<string>)
    ensures ids != [] <==> exists a :: a in ids
  {
    if ids != [] {
      assert ids[0] in ids;
    }
  }

  lemma JudgeClasses(h: Hasher, db: Db, reviews: set<string>, keys: set<Entity>, complete: set<string>)
    requires forall c :: c in complete <==> CompleteClass(h, db, reviews, keys, c)
    ensures HasHuman(complete) <==> HumanAssured(h, db, reviews, keys)
    ensures HasTwoModels(complete) <==> ModelAssured(h, db, reviews, keys)
  {
    hide CompleteClass, HumanClass, ModelClass;
  }

  lemma ClaimIsRelevant(db: Db, claimId: string, routeId: string)
    ensures Entity(ClaimKind, claimId) in RelevantKeys(db, claimId, routeId)
  {
  }

  lemma CompleteIsComplete(h: Hasher, db: Db, reviews: set<string>, keys: set<Entity>, claimId: string,
                           coverage: map<string, set<Entity>>, complete: set<string>)
    requires Coverage(h, db, keys, reviews, coverage) && Entity(ClaimKind, claimId) in keys
    requires complete == set c | c in coverage && keys <= coverage[c]
    ensures forall c :: c in complete <==> CompleteClass(h, db, reviews, keys, c)
    ensures forall c :: c in coverage.Keys - complete <==> PartialClass(h, db, reviews, keys, c)
  {
    hide Covers;
    forall c ensures c in complete <==> CompleteClass(h, db, reviews, keys, c) {
      if CompleteClass(h, db, reviews, keys, c) {
        assert Covers(h, db, reviews, c, Entity(ClaimKind, claimId));
      }
    }
  }

  lemma NothingCovered(h: Hasher, db: Db, keys: set<Entity>)
    ensures Coverage(h, db, keys, {}, map[])
  {
  }

  lemma FormalStep(h: Hasher, db: Db, keys: set<Entity>, claimId: string, a: string)
    requires a in db.artifacts && Entity(ClaimKind, claimId) in keys
    ensures FormalCertificate(h, db, claimId, a) <==>
      && db.artifacts[a].artifactType == FormalBackendResult
      && db.artifacts[a].hostChecked
      && Entity(ClaimKind, claimId) in CurrentKeys(h, db, a, keys)
      && db.artifacts[a].formalTarget
         == FormalTarget("claim", claimId, SubjectDigest(h, db, Entity(ClaimKind, claimId)))
  {
  }

  lemma FormalIsReview(h: Hasher, db: Db, claimId: string)
    ensures forall a | FormalCertificate(h, db, claimId, a) :: a in ReviewsAmong(db, db.artifacts.Keys)
  {
  }

  lemma CompleteCovers(h: Hasher, db: Db, reviews: set<string>, keys: set<Entity>, class_: string, k: Entity)
    requires CompleteClass(h, db, reviews, keys, class_) && k in keys
    ensures Covers(h, db, reviews, class_, k)
  {
    hide HasCurrentBinding;
  }

  lemma CoveringReview(h: Hasher, db: Db, reviews: set<string>, class_: string, k: Entity) returns (a: string)
    requires Covers(h, db, reviews, class_, k)
    ensures HasCurrentBinding(h, db, a, k)
  {
    a :| a in reviews && a in db.artifacts && db.artifacts[a].reviewer.independenceClass == class_
         && HasCurrentBinding(h, db, a, k);
  }

  /** Every path to assurance runs through a current binding for the claim itself. */
  lemma AssuranceNeedsClaimBinding(h: Hasher, db: Db, claimId: string, routeId: string) returns (a: string)
    requires Assured(h, db, HeterogeneousReview, claimId, routeId)
    ensures HasCurrentBinding(h, db, a, Entity(ClaimKind, claimId))
  {
    var reviews, keys := ReviewsAmong(db, db.artifacts.Keys), RelevantKeys(db, claimId, routeId);
    ClaimIsRelevant(db, claimId, routeId);
    if x :| FormalCertificate(h, db, claimId, x) {
      a := x;
    } else {
      var c :| CompleteClass(h, db, reviews, keys, c);
      CompleteCovers(h, db, reviews, keys, c, Entity(ClaimKind, claimId));
      a := CoveringReview(h, db, reviews, c, Entity(ClaimKind, claimId));
    }
  }

  /** Every binding for the claim was bound to a certified status. */
  ghost predicate BoundCertified(db: Db, e: Entity) {
    forall a | a in db.artifacts && e in db.artifacts[a].bindings ::
        Certified(db.artifacts[a].bindings[e].certifiedStatus)
  }

  /** Once invalidation has challenged a claim, no formal, human or model review can satisfy its
      heterogeneous-review requirement, through any route. */
  lemma ChallengedClaimNotAssured(h: Hasher, db: Db, cc: seq<string>, ci: seq<string>, claimId: string, routeId: string)
    requires BoundCertified(db, Entity(ClaimKind, claimId))
    requires ClaimVerified(db, claimId) && IsReached(db, cc, ci, claimId)
    ensures !Assured(h, Invalidated(db, cc, ci), HeterogeneousReview, claimId, routeId)
  {
    var after := Invalidated(db, cc, ci);
    assert after.claims[claimId] == ChallengedClaim(db.claims[claimId]);
    if Assured(h, after, HeterogeneousReview, claimId, routeId) {
      var a := AssuranceNeedsClaimBinding(h, after, claimId, routeId);
      assert false;
    }
  }
}
