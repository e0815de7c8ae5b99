/** Step budgets: planning, normalization against the completed action, the dispatch contract
    that checks the result independently, and the charge of the finished run. */
module Budget {
  import opened Text
  import opened Wrappers

  datatype Mode =
    | Prove | Refute | ValidateCounterexample | Reduce | Weaken | Strengthen | Retrieve | SynthesizeSources
    | AuditDefinitions | TriageRoutes | RegulateDecomposition | Integrate | Formalize | Write | ReviewWriting
    | AwaitHuman | StopWithPartialResults | StopSolved
    | Unsupported(name: string)

  datatype BudgetClass = Research | Verification | Management | Terminal

  datatype RoleClass =
    | AdaptiveProof | Adversarial | CounterexampleValidation | AdaptiveResearch | Literature | Advisor
    | Integration | Formal | Writing | WritingReview | TerminalRole

  datatype Role =
    | Researcher | StrictInformalVerifier | PhdAdvisor | AdvisorRole | AdversarialReviewer | CounterexampleValidator
    | LiteratureResearcher | IntegrationVerifier | FormalBackend | Writer | Referee | WritingCritic

  datatype Spec = Spec(executable: bool, budgetClass: BudgetClass, roleClass: RoleClass)

  /** ACTION_MODE_SPECS, version 5. */
  function SpecOf(mode: Mode): Option<Spec> {
    match mode
    case Prove => Some(Spec(true, Research, AdaptiveProof))
    case Refute => Some(Spec(true, Research, Adversarial))
    case ValidateCounterexample => Some(Spec(true, Verification, CounterexampleValidation))
    case Reduce => Some(Spec(true, Research, AdaptiveResearch))
    case Weaken => Some(Spec(true, Research, AdaptiveResearch))
    case Strengthen => Some(Spec(true, Research, AdaptiveResearch))
    case Retrieve => Some(Spec(true, Research, Literature))
    case SynthesizeSources => Some(Spec(true, Management, Literature))
    case AuditDefinitions => Some(Spec(true, Management, Literature))
    case TriageRoutes => Some(Spec(true, Management, Advisor))
    case RegulateDecomposition => Some(Spec(true, Management, Advisor))
    case Integrate => Some(Spec(true, Verification, Integration))
    case Formalize => Some(Spec(true, Verification, Formal))
    case Write => Some(Spec(true, Verification, Writing))
    case ReviewWriting => Some(Spec(true, Verification, WritingReview))
    case AwaitHuman => Some(Spec(false, Terminal, TerminalRole))
    case StopWithPartialResults => Some(Spec(false, Terminal, TerminalRole))
    case StopSolved => Some(Spec(false, Terminal, TerminalRole))
    case Unsupported(_) => None
  }

  predicate VerificationMode(mode: Mode) {
    SpecOf(mode).Some? && SpecOf(mode).value.budgetClass == Verification
  }

  predicate ManagementMode(mode: Mode) {
    SpecOf(mode).Some? && SpecOf(mode).value.budgetClass == Management
  }

  datatype Stage = NoStage | Fast | Deep | WorkbenchStage | OtherStage

  /** The discriminating fields of a scheduler action; a flag stands for the truth of its field. */
  datatype Action = Action(
    mode: Mode,
    target: Option<string>,
    route: Option<string>,
    contextRetrieval: bool,
    requestedRole: Option<Role>,
    publicationReferee: bool,
    citationCertification: bool,
    citationTriage: bool,
    paperAuditReview: bool,
    debt: bool,
    proofRepair: bool,
    researchDiagnostic: bool,
    hardTheoremAttack: bool,
    theoremWorkbench: bool,
    stage: Stage,
    counterexampleSearch: bool,
    sourceDigest: bool,
    deepResearch: bool,
    longSession: bool,
    parallelSolve: bool,
    proofConstruction: bool)

  datatype State = State(remaining: int, reserve: int)

  datatype Reason = Ok | ReserveReached | BelowMinimumVerification | BelowMinimumOther | NothingSpendable

  datatype Allocation = Allocation(
    allowed: bool,
    requested: int,
    requestLimit: Option<int>,
    spendable: int,
    remaining: int,
    reserve: int,
    reason: Reason,
    policy: Option<string>)

  const DEFAULT_STEP_BUDGET := 200_000
  const DEFAULT_RESEARCH_MANAGEMENT_BUDGET := 120_000
  const MIN_STEP_BUDGET := 10_000
  const MAX_STEP_BUDGET := 1_200_000
  const FAST_RESEARCH_STEP_BUDGET := 90_000
  const COUNTEREXAMPLE_STEP_BUDGET := 80_000
  const CITATION_TRIAGE_STEP_BUDGET := 60_000
  const CITATION_CERTIFICATION_STEP_BUDGET := 120_000
  const SOURCE_DIGEST_STEP_BUDGET := 140_000
  const ROOT_RESEARCH_STEP_BUDGET := 180_000
  const ROUTE_PROOF_CONSTRUCTION_STEP_BUDGET := 420_000
  const DEEP_RESEARCH_STEP_BUDGET := 650_000
  const HARD_THEOREM_WORKBENCH_STEP_BUDGET := 780_000

  function Max(a: int, b: int): int {
    if a < b then b else a
  }

  function Min(a: int, b: int): int {
    if b < a then b else a
  }

  function Clamp(tokens: int): int {
    Max(MIN_STEP_BUDGET, Min(MAX_STEP_BUDGET, tokens))
  }

  // ----- Planning -----

  /** plan_step_budget. A request of zero counts as none. */
  function PlanStep(s: State, mode: Mode, request: Option<int>): Allocation {
    var spendable := if VerificationMode(mode) then s.remaining else Max(0, s.remaining - s.reserve);
    var default := if ManagementMode(mode) then DEFAULT_RESEARCH_MANAGEMENT_BUDGET else DEFAULT_STEP_BUDGET;
    var desired := Clamp(if request.Some? && request.value != 0 then request.value else default);
    if spendable <= 0 then
      Allocation(false, 0, Some(desired), spendable, s.remaining, s.reserve, ReserveReached, None)
    else
      var granted := Min(desired, spendable);
      Allocation(granted >= MIN_STEP_BUDGET, granted, Some(desired), spendable, s.remaining, s.reserve,
                 if granted >= MIN_STEP_BUDGET then Ok
                 else if VerificationMode(mode) then BelowMinimumVerification else BelowMinimumOther,
                 None)
  }

  /** The request and policy label plan_action_budget derives from the action. */
  function DesiredFor(mode: Mode, a: Action): (Option<int>, Option<string>) {
    if a.citationTriage then (Some(CITATION_TRIAGE_STEP_BUDGET), Some("citation_triage"))
    else if a.citationCertification then (Some(CITATION_CERTIFICATION_STEP_BUDGET), Some("citation_certification"))
    else if a.hardTheoremAttack || a.theoremWorkbench || a.stage == WorkbenchStage then
      (Some(HARD_THEOREM_WORKBENCH_STEP_BUDGET), Some("hard_theorem_workbench"))
    else if mode == Refute || a.counterexampleSearch then
      (Some(COUNTEREXAMPLE_STEP_BUDGET), Some("counterexample_stress_test"))
    else if a.sourceDigest then (Some(SOURCE_DIGEST_STEP_BUDGET), Some("source_digest"))
    else if a.deepResearch || a.longSession || a.stage == Deep then
      (Some(DEEP_RESEARCH_STEP_BUDGET), Some("deep_research_pass"))
    else if a.stage == Fast || a.parallelSolve then (Some(FAST_RESEARCH_STEP_BUDGET), Some("fast_research_pass"))
    else if a.proofConstruction then
      (Some(ROUTE_PROOF_CONSTRUCTION_STEP_BUDGET), Some("route_proof_construction"))
    else if mode == Reduce && a.target == Some("root") then (Some(ROOT_RESEARCH_STEP_BUDGET), Some("root_research"))
    else (None, None)
  }

  /** plan_action_budget. */
  function PlanAction(s: State, mode: Mode, a: Action, request: Option<int>): Allocation {
    if request.Some? then PlanStep(s, mode, request)
    else PlanStep(s, mode, DesiredFor(mode, a).0).(policy := DesiredFor(mode, a).1)
  }

  // ----- Roles and budget classes -----

  predicate Nonempty(s: Option<string>) {
    s.Some? && s.value != ""
  }

  predicate MayBeRequested(r: Option<Role>) {
    r.Some? && r.value in {Researcher, AdversarialReviewer, LiteratureResearcher, PhdAdvisor, AdvisorRole}
  }

  /** scheduler_actor_role_for_action; None for the unsupported mode's ValueError. */
  function ActorRole(a: Action): Option<Role> {
    if SpecOf(a.mode).None? then None
    else if a.contextRetrieval && MayBeRequested(a.requestedRole) then a.requestedRole
    else
      match SpecOf(a.mode).value.roleClass
      case Integration => Some(IntegrationVerifier)
      case Formal => Some(FormalBackend)
      case CounterexampleValidation => Some(CounterexampleValidator)
      case Literature => Some(LiteratureResearcher)
      case Advisor => Some(PhdAdvisor)
      case Adversarial => Some(AdversarialReviewer)
      case Writing => Some(Writer)
      case WritingReview => Some(if a.publicationReferee then Referee else WritingCritic)
      case AdaptiveProof =>
        if Nonempty(a.route) || a.citationCertification || a.citationTriage || a.paperAuditReview
        then Some(StrictInformalVerifier) else Some(Researcher)
      case AdaptiveResearch =>
        if !a.debt || Nonempty(a.route) || a.proofRepair || a.researchDiagnostic then Some(Researcher)
        else Some(PhdAdvisor)
      case TerminalRole => Some(Researcher)
  }

  /** scheduler_budget_class_for_action. */
  function ClassOf(a: Action): Option<BudgetClass> {
    if ActorRole(a).None? then None
    else if ActorRole(a).value == StrictInformalVerifier then Some(Verification)
    else Some(SpecOf(a.mode).value.budgetClass)
  }

  /** normalize_resource_allocation_for_action. */
  function Normalize(a: Action, x: Allocation): Allocation {
    if ClassOf(a) != Some(Verification) || x.remaining < 0 || x.reserve < 0 then x
    else
      var limit := if x.requestLimit.Some? && x.requestLimit.value > 0 then x.requestLimit.value
                   else if x.requested > 0 then x.requested else DEFAULT_STEP_BUDGET;
      var desired := Clamp(limit);
      var granted := Min(desired, x.remaining);
      x.(allowed := granted >= MIN_STEP_BUDGET, requested := granted, requestLimit := Some(desired),
         spendable := x.remaining,
         reason := if granted >= MIN_STEP_BUDGET then Ok
                   else if granted > 0 then BelowMinimumVerification else NothingSpendable)
  }

  // ----- The dispatch contract -----

  datatype Amount = RequestedTokens | SpendableTokens | RemainingTokenBudget | ReservedVerificationBudget

  datatype ContractError =
    | UnsupportedMode | NotExecutable | TargetMissing | TargetNotCanonical | RouteNotCanonical
    | NotAllowed | NegativeField(field: Amount) | EmptyPolicy | RequestLimitNotPositive
    | ReserveExceedsRemaining | NotOrdered | ExceedsRequestLimit | WrongSpendable

  /** A supported executable mode, a canonical target and a canonical route if any. */
  predicate RoutingOk(a: Action) {
    && SpecOf(a.mode).Some? && SpecOf(a.mode).value.executable
    && a.target.Some? && !Blank(a.target.value) && Trimmed(a.target.value)
    && (a.route.Some? ==> Trimmed(a.route.value))
  }

  /** The arithmetic invariant of one executable allocation. */
  predicate AllocationOk(a: Action, x: Allocation) {
    && x.allowed
    && x.remaining >= 0 && x.reserve >= 0 && x.spendable >= 0
    && (x.policy.Some? ==> !Blank(x.policy.value))
    && x.requestLimit.Some? && x.requestLimit.value > 0
    && x.reserve <= x.remaining
    && 0 < x.requested <= x.spendable <= x.remaining
    && x.requested <= x.requestLimit.value
    && (ClassOf(a).Some? ==>
          x.spendable == if ClassOf(a) == Some(Verification) then x.remaining else Max(0, x.remaining - x.reserve))
  }

  predicate NoNegative(x: Allocation) {
    x.requested >= 0 && x.spendable >= 0 && x.remaining >= 0 && x.reserve >= 0
  }

  /** What can be wrong with one field of an allocation. */
  predicate FieldWrong(x: Allocation, e: ContractError) {
    || (e == NotAllowed && !x.allowed)
    || (e.NegativeField? && AmountOf(x, e.field) < 0)
    || (e == EmptyPolicy && x.policy.Some? && Blank(x.policy.value))
    || (e == RequestLimitNotPositive && (x.requestLimit.None? || x.requestLimit.value <= 0))
  }

  /** What can be wrong between the amounts. */
  predicate AmountsWrong(a: Action, x: Allocation, e: ContractError) {
    match e
    case ReserveExceedsRemaining => x.remaining < x.reserve
    case NotOrdered => !(0 < x.requested <= x.spendable <= x.remaining)
    case ExceedsRequestLimit => x.requestLimit.Some? && x.requestLimit.value < x.requested
    case WrongSpendable =>
      && ClassOf(a).Some?
      && x.spendable != if ClassOf(a) == Some(Verification) then x.remaining else Max(0, x.remaining - x.reserve)
    case _ => false
  }

  /** The amounts are compared only when none of them is negative. */
  predicate AllocationWrong(a: Action, x: Allocation, e: ContractError) {
    FieldWrong(x, e) || (NoNegative(x) && AmountsWrong(a, x, e))
  }

  lemma AllocationOkIff(a: Action, x: Allocation)
    ensures AllocationOk(a, x) <==> forall e :: !AllocationWrong(a, x, e)
  {
    if forall e :: !AllocationWrong(a, x, e) {
      assert !AllocationWrong(a, x, NotAllowed) && !AllocationWrong(a, x, EmptyPolicy)
          && !AllocationWrong(a, x, RequestLimitNotPositive);
      assert !AllocationWrong(a, x, NegativeField(RequestedTokens))
          && !AllocationWrong(a, x, NegativeField(SpendableTokens))
          && !AllocationWrong(a, x, NegativeField(RemainingTokenBudget))
          && !AllocationWrong(a, x, NegativeField(ReservedVerificationBudget));
      assert !AllocationWrong(a, x, ReserveExceedsRemaining) && !AllocationWrong(a, x, NotOrdered)
          && !AllocationWrong(a, x, ExceedsRequestLimit) && !AllocationWrong(a, x, WrongSpendable);
    }
  }

  function AmountOf(x: Allocation, f: Amount): int {
    match f
    case RequestedTokens => x.requested
    case SpendableTokens => x.spendable
    case RemainingTokenBudget => x.remaining
    case ReservedVerificationBudget => x.reserve
  }

  /** The loop over the integer fields; `valid` counts those that are not negative. */
  method NegativeErrors(x: Allocation) returns (errors: seq<ContractError>, valid: nat)
    ensures valid == 4 <==> NoNegative(x)
    ensures forall e :: e in errors <==> e.NegativeField? && AmountOf(x, e.field) < 0
  {
    var fields := [RequestedTokens, SpendableTokens, RemainingTokenBudget, ReservedVerificationBudget];
    forall f: Amount ensures f in fields {
      assert f == fields[0] || f == fields[1] || f == fields[2] || f == fields[3];
    }
    errors, valid := [], 0;
    for k := 0 to |fields|
      invariant valid <= k && (valid == k <==> forall i | 0 <= i < k :: AmountOf(x, fields[i]) >= 0)
      invariant forall e :: e in errors <==>
        e.NegativeField? && exists i :: 0 <= i < k && fields[i] == e.field && AmountOf(x, fields[i]) < 0
    {
      if AmountOf(x, fields[k]) < 0 {
        errors := errors + [NegativeField(fields[k])];
      } else {
        valid := valid + 1;
      }
    }
    assert AmountOf(x, fields[0]) == x.requested && AmountOf(x, fields[1]) == x.spendable
        && AmountOf(x, fields[2]) == x.remaining && AmountOf(x, fields[3]) == x.reserve;
  }

  method FieldErrors(x: Allocation) returns (errors: seq<ContractError>, valid: nat)
    ensures valid == 4 <==> NoNegative(x)
    ensures forall e :: e in errors <==> FieldWrong(x, e)
  {
    hide Blank, AmountOf, NoNegative;
    var negative: seq<ContractError>;
    negative, valid := NegativeErrors(x);
    errors := If(!x.allowed, NotAllowed) + negative + If(x.policy.Some? && Blank(x.policy.value), EmptyPolicy)
      + If(x.requestLimit.None? || x.requestLimit.value <= 0, RequestLimitNotPositive);
  }

  method AmountErrors(a: Action, x: Allocation) returns (errors: seq<ContractError>)
    ensures forall e :: e in errors <==> AmountsWrong(a, x, e)
  {
    errors := If(x.reserve > x.remaining, ReserveExceedsRemaining);
    errors := errors + If(x.requested <= 0 || x.requested > x.spendable || x.spendable > x.remaining, NotOrdered);
    errors := errors + If(x.requestLimit.Some? && x.requested > x.requestLimit.value, ExceedsRequestLimit);
    if SpecOf(a.mode).Some? {
      var expected := if ClassOf(a) == Some(Verification) then x.remaining else Max(0, x.remaining - x.reserve);
      errors := errors + If(x.spendable != expected, WrongSpendable);
    }
  }

  /** _scheduler_resource_allocation_errors, contract version 5. */
  method ResourceAllocationErrors(a: Action, x: Allocation) returns (errors: seq<ContractError>)
    ensures errors == [] <==> AllocationOk(a, x)
    ensures forall e :: e in errors <==> AllocationWrong(a, x, e)
  {
    var valid;
    errors, valid := FieldErrors(x);
    if valid == 4 {
      var amounts := AmountErrors(a, x);
      errors := errors + amounts;
    }
    AllocationOkIff(a, x);
    hide FieldWrong, AmountsWrong, AllocationOk;
    assert forall e :: e in errors <==> AllocationWrong(a, x, e);
    if errors != [] {
      assert AllocationWrong(a, x, errors[0]);
    }
  }

  predicate RoutingWrong(a: Action, e: ContractError) {
    match e
    case UnsupportedMode => SpecOf(a.mode).None?
    case NotExecutable => SpecOf(a.mode).Some? && !SpecOf(a.mode).value.executable
    case TargetMissing => a.target.None? || Blank(a.target.value)
    case TargetNotCanonical => a.target.Some? && !Blank(a.target.value) && !Trimmed(a.target.value)
    case RouteNotCanonical => a.route.Some? && !Trimmed(a.route.value)
    case _ => false
  }

  /** scheduler_dispatch_action_errors. */
  method DispatchErrors(a: Action, x: Allocation) returns (errors: seq<ContractError>)
    ensures errors == [] <==> RoutingOk(a) && AllocationOk(a, x)
    ensures forall e :: e in errors <==> RoutingWrong(a, e) || AllocationWrong(a, x, e)
  {
    errors := [];
    if SpecOf(a.mode).None? {
      errors := errors + [UnsupportedMode];
    } else if !SpecOf(a.mode).value.executable {
      errors := errors + [NotExecutable];
    }
    if a.target.None? || Blank(a.target.value) {
      errors := errors + [TargetMissing];
    } else if !Trimmed(a.target.value) {
      errors := errors + [TargetNotCanonical];
    }
    if a.route.Some? && !Trimmed(a.route.value) {
      errors := errors + [RouteNotCanonical];
    }
    var allocation := ResourceAllocationErrors(a, x);
    errors := errors + allocation;
  }

  // ----- Charging -----

  /** Whether a recorded run may draw on the verification reserve. */
  predicate MayUseReserve(mode: Mode, role: Option<Role>) {
    VerificationMode(mode) || role == Some(StrictInformalVerifier)
  }

  /** The remaining budget after a run of the given gross spend is recorded. */
  function Charge(s: State, spent: nat, mayUseReserve: bool): State {
    if spent == 0 then s
    else if mayUseReserve then s.(remaining := Max(0, s.remaining - spent))
    else s.(remaining := Max(s.reserve, s.remaining - Min(spent, Max(0, s.remaining - s.reserve))))
  }

  // ----- Properties -----

  /** Planning by mode and normalizing on the completed action. The action may have gained its
      route and flags in between; only the mode must be the planned one. */
  function Planned(s: State, provisional: Action, a: Action, request: Option<int>): Allocation {
    Normalize(a, PlanAction(s, a.mode, provisional, request))
  }

  lemma PolicyNonblank(mode: Mode, a: Action)
    ensures DesiredFor(mode, a).1.Some? ==> !Blank(DesiredFor(mode, a).1.value)
  {
    var policy := DesiredFor(mode, a).1;
    if policy.Some? {
      assert policy.value[0] in {'c', 'h', 's', 'd', 'f', 'r'};
      assert policy.value[0] in policy.value;
    }
  }

  /** Normalization is idempotent on every allocation. */
  lemma NormalizeIdempotent(a: Action, x: Allocation)
    ensures Normalize(a, Normalize(a, x)) == Normalize(a, x)
  {
  }

  /** Normalization never lowers a planned grant and never revokes permission. */
  lemma NormalizeNeverLowers(s: State, provisional: Action, a: Action, request: Option<int>)
    requires 0 <= s.reserve && 0 <= s.remaining
    ensures PlanAction(s, a.mode, provisional, request).requested <= Planned(s, provisional, a, request).requested
    ensures PlanAction(s, a.mode, provisional, request).allowed ==> Planned(s, provisional, a, request).allowed
  {
  }

  /** The charge recognizes exactly the actions that were budgeted as verification. */
  lemma ChargedAsBudgeted(a: Action)
    requires SpecOf(a.mode).Some?
    ensures MayUseReserve(a.mode, ActorRole(a)) <==> ClassOf(a) == Some(Verification)
  {
  }

  /** What an action of this class may spend: verification all that remains, other work what is
      above the reserve. */
  function ClassSpendable(s: State, a: Action): int {
    if ClassOf(a) == Some(Verification) then s.remaining else Max(0, s.remaining - s.reserve)
  }

  /** What the planner aims for before clamping: the request, else what the action calls for, else
      the default of the mode. */
  function Wanted(mode: Mode, provisional: Action, request: Option<int>): int {
    var aim := if request.Some? then request else DesiredFor(mode, provisional).0;
    if aim.Some? && aim.value != 0 then aim.value
    else if ManagementMode(mode) then DEFAULT_RESEARCH_MANAGEMENT_BUDGET else DEFAULT_STEP_BUDGET
  }

  /** The plan is the best its class allows: what was wanted, clamped to the step bounds and cut to
      what the class may spend, and allowed exactly when the class can still pay for a minimal step,
      whatever was wanted. */
  lemma GrantExact(s: State, provisional: Action, a: Action, request: Option<int>)
    requires 0 <= s.reserve && 0 <= s.remaining && SpecOf(a.mode).Some?
    ensures var x := Planned(s, provisional, a, request);
      && x.requestLimit == Some(Clamp(Wanted(a.mode, provisional, request)))
      && x.requested == Min(Clamp(Wanted(a.mode, provisional, request)), ClassSpendable(s, a))
      && (x.allowed <==> ClassSpendable(s, a) >= MIN_STEP_BUDGET)
  {
    if ClassOf(a) != Some(Verification) {
      assert !VerificationMode(a.mode);
    }
  }

  lemma PlannedFields(s: State, provisional: Action, a: Action, request: Option<int>)
    requires 0 <= s.reserve && 0 <= s.remaining && SpecOf(a.mode).Some?
    ensures var x := Planned(s, provisional, a, request);
      && x.remaining == s.remaining && x.reserve == s.reserve && x.spendable == ClassSpendable(s, a)
      && (x.policy.Some? ==> !Blank(x.policy.value))
    ensures ClassOf(a).Some?
  {
    PolicyNonblank(a.mode, provisional);
    hide DesiredFor, Blank;
    if ClassOf(a) != Some(Verification) {
      assert !VerificationMode(a.mode);
    }
  }

  /** The planner meets the independent contract exactly when it allows the step, wherever the
      reserve is within the remaining budget. */
  lemma PlannedMeetsContract(s: State, provisional: Action, a: Action, request: Option<int>)
    requires 0 <= s.reserve && 0 <= s.remaining && RoutingOk(a)
    ensures AllocationOk(a, Planned(s, provisional, a, request)) <==>
      Planned(s, provisional, a, request).allowed && s.reserve <= s.remaining
  {
    PlannedFields(s, provisional, a, request);
    GrantExact(s, provisional, a, request);
    hide Planned, ClassOf, SpecOf, Blank;
  }

  /** A grant fits in what its class may spend: non-verification work never reaches the reserve. */
  lemma GrantWithinClass(s: State, provisional: Action, a: Action, request: Option<int>)
    requires 0 <= s.reserve && 0 <= s.remaining && SpecOf(a.mode).Some?
    ensures 0 <= Planned(s, provisional, a, request).requested <= ClassSpendable(s, a)
  {
    GrantExact(s, provisional, a, request);
    hide Planned, ClassOf;
  }

  /** One budgeted step: the plan that was allowed, and the spend that was recorded for it. */
  datatype Step = Step(provisional: Action, action: Action, request: Option<int>, spent: nat)

  predicate StepOk(s: State, t: Step) {
    && SpecOf(t.action.mode).Some?
    && Planned(s, t.provisional, t.action, t.request).allowed
    && t.spent <= Planned(s, t.provisional, t.action, t.request).requested
  }

  function After(s: State, t: Step): State {
    Charge(s, t.spent, MayUseReserve(t.action.mode, ActorRole(t.action)))
  }

  predicate RunOk(s: State, steps: seq<Step>)
    decreases |steps|
  {
    steps == [] || (StepOk(s, steps[0]) && RunOk(After(s, steps[0]), steps[1..]))
  }

  function RunState(s: State, steps: seq<Step>): State
    decreases |steps|
  {
    if steps == [] then s else RunState(After(s, steps[0]), steps[1..])
  }

  function Spent(steps: seq<Step>): nat {
    if steps == [] then 0 else steps[0].spent + Spent(steps[1..])
  }

  predicate NoVerification(steps: seq<Step>) {
    forall t | t in steps :: ClassOf(t.action) != Some(Verification)
  }

  /** Conservation: over any run of allowed steps charged within their grants, verification or
      not, every token spent leaves the remaining budget exactly once; the budget never goes
      negative, and without verification steps it never drops below the reserve. */
  lemma {:induction false} RunConserves(s: State, steps: seq<Step>)
    requires 0 <= s.reserve && 0 <= s.remaining && RunOk(s, steps)
    ensures var final := RunState(s, steps);
      && final.remaining == s.remaining - Spent(steps) && final.reserve == s.reserve
      && 0 <= final.remaining
      && (NoVerification(steps) && s.reserve <= s.remaining ==> s.reserve <= final.remaining)
    decreases |steps|
  {
    if steps != [] {
      var t := steps[0];
      GrantWithinClass(s, t.provisional, t.action, t.request);
      ChargedAsBudgeted(t.action);
      hide Planned, ClassOf, ActorRole, SpecOf;
      RunConserves(After(s, t), steps[1..]);
      assert NoVerification(steps) ==> NoVerification(steps[1..]) && t in steps;
    }
  }

  /** Recording a run does not always lower the remaining budget. It does exactly when nothing was
      spent, the run may use the reserve of a nonnegative budget, or the reserve is still whole:
      otherwise a non-verification run lifts the remaining budget up to the reserve. */
  lemma ChargeNeverRaises(s: State, spent: nat, mayUseReserve: bool)
    ensures Charge(s, spent, mayUseReserve).remaining <= s.remaining <==>
      spent == 0 || (if mayUseReserve then 0 <= s.remaining else s.reserve <= s.remaining)
  {
  }

  const BareAction :=
    Action(Prove, Some("root"), None, false, None, false, false, false, false, false, false, false, false, false,
           NoStage, false, false, false, false, false, false)

  /** An integration and a proof attempt, both planned while the budget was 100 000 and the reserve
      50 000, and what they spent. */
  const IntegrationStep :=
    Step(BareAction.(mode := Integrate), BareAction.(mode := Integrate), None, 80_000)

  const ProofStep := Step(BareAction, BareAction, None, 10_000)

  lemma IntegrationAllowed()
    ensures RoutingOk(IntegrationStep.action) && StepOk(State(100_000, 50_000), IntegrationStep)
    ensures MayUseReserve(IntegrationStep.action.mode, ActorRole(IntegrationStep.action))
  {
    GrantExact(State(100_000, 50_000), IntegrationStep.provisional, IntegrationStep.action, None);
    hide Planned;
    assert "root"[0] in "root" && !IsSpace('r');
  }

  lemma ProofAllowed()
    ensures RoutingOk(ProofStep.action) && StepOk(State(100_000, 50_000), ProofStep)
    ensures !MayUseReserve(ProofStep.action.mode, ActorRole(ProofStep.action))
  {
    GrantExact(State(100_000, 50_000), ProofStep.provisional, ProofStep.action, None);
    hide Planned;
    assert "root"[0] in "root" && !IsSpace('r');
  }

  /** An instance: two steps are planned and allowed in the same state, each spends within its
      grant, and they are recorded one after the other. The integration spends into the reserve;
      recording the proof attempt after it makes tokens reappear. */
  lemma ChargeCanRaise()
    ensures var s := State(100_000, 50_000);
      && RoutingOk(IntegrationStep.action) && RoutingOk(ProofStep.action)
      && StepOk(s, IntegrationStep) && StepOk(s, ProofStep)
      && After(s, IntegrationStep) == State(20_000, 50_000)
      && After(After(s, IntegrationStep), ProofStep) == s.(remaining := 50_000)
  {
    IntegrationAllowed();
    ProofAllowed();
    hide RoutingOk, StepOk, MayUseReserve, ActorRole;
  }
}
