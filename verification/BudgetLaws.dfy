/** Roles, budget classes and grants restated on the fields of the action and on plain amounts. */
module BudgetLaws {
  import opened Wrappers
  import opened Budget

  /** A context retrieval that names a role it may have. */
  predicate Requests(a: Action, r: Role) {
    && a.contextRetrieval && a.requestedRole == Some(r)
    && (r == Researcher || r == AdversarialReviewer || r == LiteratureResearcher || r == PhdAdvisor || r == AdvisorRole)
  }

  predicate RequestsNone(a: Action) {
    !a.contextRetrieval || a.requestedRole.None? || !Requests(a, a.requestedRole.value)
  }

  /** The proof action that is a strict check: it has a route, or a citation or paper audit to certify. */
  predicate StrictCheck(a: Action) {
    && a.mode == Prove && RequestsNone(a)
    && (|| (a.route.Some? && a.route.value != "")
        || a.citationCertification || a.citationTriage || a.paperAuditReview)
  }

  /** Research that pays off a recorded debt without a route, a repair or a diagnostic. */
  predicate UnroutedDebt(a: Action) {
    && (a.mode == Reduce || a.mode == Weaken || a.mode == Strengthen)
    && a.debt && (a.route.None? || a.route.value == "") && !a.proofRepair && !a.researchDiagnostic
  }

  /** Which actions each role gets: those that request it and, when none is requested, those of its modes. */
  lemma RoleOnAction(a: Action, r: Role)
    ensures ActorRole(a) == Some(r) <==>
      && !a.mode.Unsupported?
      && (|| Requests(a, r)
          || (RequestsNone(a) &&
              match r
              case Researcher =>
                || (a.mode == Prove && !StrictCheck(a))
                || ((a.mode == Reduce || a.mode == Weaken || a.mode == Strengthen) && !UnroutedDebt(a))
                || a.mode == AwaitHuman || a.mode == StopWithPartialResults || a.mode == StopSolved
              case StrictInformalVerifier => StrictCheck(a)
              case PhdAdvisor => a.mode == TriageRoutes || a.mode == RegulateDecomposition || UnroutedDebt(a)
              case AdvisorRole => false
              case AdversarialReviewer => a.mode == Refute
              case CounterexampleValidator => a.mode == ValidateCounterexample
              case LiteratureResearcher =>
                a.mode == Retrieve || a.mode == SynthesizeSources || a.mode == AuditDefinitions
              case IntegrationVerifier => a.mode == Integrate
              case FormalBackend => a.mode == Formalize
              case Writer => a.mode == Write
              case Referee => a.mode == ReviewWriting && a.publicationReferee
              case WritingCritic => a.mode == ReviewWriting && !a.publicationReferee))
  {
    assert a.contextRetrieval && MayBeRequested(a.requestedRole) <==> !RequestsNone(a);
    assert RequestsNone(a) ==> !Requests(a, r);
    assert !RequestsNone(a) ==> (Requests(a, r) <==> a.requestedRole == Some(r));
    hide Requests, RequestsNone, MayBeRequested;
  }

  /** The actions that may draw on the verification reserve. */
  predicate MayDraw(a: Action) {
    || a.mode == ValidateCounterexample || a.mode == Integrate || a.mode == Formalize || a.mode == Write
    || a.mode == ReviewWriting || StrictCheck(a)
  }

  /** The reserve is for exactly these: five modes whatever role they are given, and the strict checks. The
      planner, the contract and the charge agree on them. */
  lemma ReserveOnAction(a: Action)
    ensures ClassOf(a) == Some(Verification) <==> MayDraw(a)
    ensures !a.mode.Unsupported? ==> (MayUseReserve(a.mode, ActorRole(a)) <==> MayDraw(a))
    ensures ClassOf(a).None? <==> a.mode.Unsupported?
  {
    RoleOnAction(a, StrictInformalVerifier);
  }

  /** The modes that may be dispatched at all. */
  lemma DispatchedOnAction(a: Action)
    ensures SpecOf(a.mode).Some? && SpecOf(a.mode).value.executable <==>
      !(a.mode.Unsupported? || a.mode == AwaitHuman || a.mode == StopWithPartialResults || a.mode == StopSolved)
  {
  }

  datatype Aim = Aim(called: bool, tokens: int, label_: string)

  /** What an action can call for, in the order in which the calls take precedence. */
  function Aims(mode: Mode, a: Action): seq<Aim> {
    [Aim(a.citationTriage, 60000, "citation_triage"),
     Aim(a.citationCertification, 120000, "citation_certification"),
     Aim(a.hardTheoremAttack || a.theoremWorkbench || a.stage == WorkbenchStage, 780000, "hard_theorem_workbench"),
     Aim(mode == Refute || a.counterexampleSearch, 80000, "counterexample_stress_test"),
     Aim(a.sourceDigest, 140000, "source_digest"),
     Aim(a.deepResearch || a.longSession || a.stage == Deep, 650000, "deep_research_pass"),
     Aim(a.stage == Fast || a.parallelSolve, 90000, "fast_research_pass"),
     Aim(a.proofConstruction, 420000, "route_proof_construction"),
     Aim(mode == Reduce && a.target == Some("root"), 180000, "root_research")]
  }

  /** The tokens and the label planned for: the request when there is one, zero standing for none; else the
      first call of the action; else the default of the mode. */
  ghost predicate Calls(mode: Mode, a: Action, request: Option<int>, tokens: int, policy: Option<string>) {
    if request.Some? && request.value != 0 then tokens == request.value && policy == None
    else if request.None? && (exists aim :: aim in Aims(mode, a) && aim.called) then
      exists k :: CallsFirst(Aims(mode, a), k, tokens, policy)
    else
      && policy == None
      && tokens == if mode == SynthesizeSources || mode == AuditDefinitions || mode == TriageRoutes
                      || mode == RegulateDecomposition then 120000 else 200000
  }

  predicate CallsFirst(aims: seq<Aim>, k: int, tokens: int, policy: Option<string>) {
    First(aims, k) && tokens == aims[k].tokens && policy == Some(aims[k].label_)
  }

  predicate First(aims: seq<Aim>, k: int) {
    0 <= k < |aims| && aims[k].called && forall j | 0 <= j < k :: !aims[j].called
  }

  /** The planner follows the first call, if there is one. */
  lemma FirstCall(mode: Mode, a: Action) returns (k: int)
    ensures DesiredFor(mode, a).0.None? ==>
      DesiredFor(mode, a).1.None? && forall j | 0 <= j < 9 :: !Aims(mode, a)[j].called
    ensures DesiredFor(mode, a).0.Some? ==>
      First(Aims(mode, a), k) && DesiredFor(mode, a) == (Some(Aims(mode, a)[k].tokens), Some(Aims(mode, a)[k].label_))
  {
    var aims := Aims(mode, a);
    k := if aims[0].called then 0 else if aims[1].called then 1 else if aims[2].called then 2
         else if aims[3].called then 3 else if aims[4].called then 4 else if aims[5].called then 5
         else if aims[6].called then 6 else if aims[7].called then 7 else 8;
  }

  lemma OneFirst(aims: seq<Aim>, i: int, j: int)
    requires First(aims, i) && First(aims, j)
    ensures i == j
  {
    assert aims[i].called && aims[j].called;
  }

  /** There is one answer, and it is the planner's. */
  lemma CallsIsWanted(mode: Mode, a: Action, request: Option<int>, tokens: int, policy: Option<string>)
    ensures Calls(mode, a, request, tokens, policy) <==>
      tokens == Wanted(mode, a, request) && policy == PlanAction(State(0, 0), mode, a, request).policy
  {
    hide DesiredFor, Aims, PlanAction, PlanStep, First, CallsFirst, ManagementMode, SpecOf;
    var k := FirstCall(mode, a);
    PolicyOf(State(0, 0), mode, a, request);
    DefaultOnMode(mode);
    if request.None? {
      if DesiredFor(mode, a).0.Some? {
        AimsAreNonzero(mode, a, k);
        FirstIsCalled(Aims(mode, a), k, tokens, policy);
      } else {
        NotCalled(mode, a);
      }
    }
  }

  lemma AimsAreNonzero(mode: Mode, a: Action, k: int)
    requires First(Aims(mode, a), k)
    ensures 0 <= k < |Aims(mode, a)| && Aims(mode, a)[k] in Aims(mode, a) && Aims(mode, a)[k].tokens != 0
  {
  }

  lemma FirstIsCalled(aims: seq<Aim>, k: int, tokens: int, policy: Option<string>)
    requires First(aims, k)
    ensures 0 <= k < |aims| && aims[k].called
    ensures (exists j :: CallsFirst(aims, j, tokens, policy)) <==> CallsFirst(aims, k, tokens, policy)
    ensures CallsFirst(aims, k, tokens, policy) <==> tokens == aims[k].tokens && policy == Some(aims[k].label_)
  {
    if j :| CallsFirst(aims, j, tokens, policy) {
      OneFirst(aims, k, j);
    }
  }

  lemma NotCalled(mode: Mode, a: Action)
    requires DesiredFor(mode, a).0.None?
    ensures forall aim | aim in Aims(mode, a) :: !aim.called
  {
    var k := FirstCall(mode, a);
    assert |Aims(mode, a)| == 9;
    hide DesiredFor, Aims;
  }

  lemma DefaultOnMode(mode: Mode)
    ensures ManagementMode(mode) <==>
      mode == SynthesizeSources || mode == AuditDefinitions || mode == TriageRoutes || mode == RegulateDecomposition
  {
  }

  lemma PolicyOf(s: State, mode: Mode, a: Action, request: Option<int>)
    ensures PlanAction(s, mode, a, request).policy == if request.Some? then None else DesiredFor(mode, a).1
  {
    hide DesiredFor;
  }

  /** The normalized plan in plain amounts: what is called for, held between 10 000 and 1 200 000, is the limit;
      the grant is as much of it as there is to spend, which is everything that remains for an action that
      may draw on the reserve and what lies above the reserve for any other; and the step is allowed
      exactly when 10 000 can be spent. */
  lemma PlanInAmounts(s: State, provisional: Action, a: Action, request: Option<int>)
    returns (tokens: int, policy: Option<string>)
    requires 0 <= s.reserve && 0 <= s.remaining && !a.mode.Unsupported?
    ensures Calls(a.mode, provisional, request, tokens, policy)
    ensures var x := Planned(s, provisional, a, request);
      var limit := if tokens < 10000 then 10000 else if tokens > 1200000 then 1200000 else tokens;
      var spendable := if MayDraw(a) then s.remaining
                       else if s.reserve < s.remaining then s.remaining - s.reserve else 0;
      && x.requestLimit == Some(limit) && x.spendable == spendable
      && x.requested == (if limit < spendable then limit else spendable)
      && (x.allowed <==> 10000 <= spendable)
      && x.policy == policy && x.remaining == s.remaining && x.reserve == s.reserve
  {
    ReserveOnAction(a);
    assert SpecOf(a.mode).Some?;
    hide Planned, PlanAction, Wanted, MayDraw, ClassOf, Calls, SpecOf, ActorRole, DesiredFor, Aims, MayUseReserve;
    tokens := Wanted(a.mode, provisional, request);
    policy := PlanAction(State(0, 0), a.mode, provisional, request).policy;
    CallsIsWanted(a.mode, provisional, request, tokens, policy);
    PolicyKept(s, provisional, a, request);
    GrantExact(s, provisional, a, request);
    PlannedFields(s, provisional, a, request);
  }

  /** Why a step is refused: nothing above the reserve, nothing left at all, or too little of either. */
  lemma ReasonInAmounts(s: State, provisional: Action, a: Action, request: Option<int>)
    requires 0 <= s.reserve && 0 <= s.remaining && !a.mode.Unsupported?
    ensures Planned(s, provisional, a, request).reason ==
      if MayDraw(a) then
        (if 10000 <= s.remaining then Ok else if 0 < s.remaining then BelowMinimumVerification else NothingSpendable)
      else
        (if 10000 <= s.remaining - s.reserve then Ok
         else if s.reserve < s.remaining then BelowMinimumOther else ReserveReached)
  {
    ReserveOnAction(a);
    assert !MayDraw(a) ==> !VerificationMode(a.mode);
    hide MayDraw, ClassOf, DesiredFor, ActorRole;
  }

  lemma PolicyKept(s: State, provisional: Action, a: Action, request: Option<int>)
    ensures Planned(s, provisional, a, request).policy
         == PlanAction(State(0, 0), a.mode, provisional, request).policy
  {
    hide ClassOf, DesiredFor;
  }

  /** A charge in one formula: what remains less what was spent, but not below the reserve, or below zero for
      a run that may draw on it; and a run that spent nothing changes nothing. */
  lemma ChargeInAmounts(s: State, spent: nat, mayUseReserve: bool)
    ensures Charge(s, 0, mayUseReserve) == s
    ensures spent > 0 ==>
      var least := if mayUseReserve then 0 else s.reserve;
      Charge(s, spent, mayUseReserve)
        == State(if s.remaining - spent < least then least else s.remaining - spent, s.reserve)
  {
  }
}
