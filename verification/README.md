# Proof-state model

This project models how a proof-search system decides which evidence it may still trust, and proves
properties of those decisions. It has four parts.

* **Certificates over a proof graph** (`ProofTables`, `Encoding`, `Closure`, `Invalidation`, `Integration`,
  `Revocation`, `Stability`, `Binding`, `Rebasing`, `Obligations`, `Assurance`, `Lifecycle`). Claims,
  inferences, routes, obligations and artifacts are tables. A certificate is bound to a digest of its
  subject and to a digest of the subject's dependency closure, computed depth-first over a graph that
  may be cyclic. A worklist revokes what rests on changed claims, a rebase repairs digests after
  promotions, and the assurance summary consumes the bindings that are still current. The passes that
  change rows are methods on a mutable `ProofStore`; each is proved against a function on table
  values, and the theorems, up to statements about whole runs, are about those functions. The closure
  follows verified inferences; invalidation follows every inference. `Revocation` relates the two.
* **Hash-chained journals and checkpoints** (`AuditChain`, `Checkpoint`, `CheckpointRuns`,
  `CheckpointExamples`). Entries are linked by hashes; a checkpoint payload is checked to describe a
  prefix of the current journal. Runs are sequences of patches, events and run-selection updates.
* **Budgets** (`Budget`). The planner and the normalization are composed with the dispatch contract
  that validates them independently, and with the charge of the finished run.
* **Runner kernels** (`Governor`, `LogStream`, `ProcessTree`, `EscapeRepair`, `ScopeCheck`). The shared
  memory governor as a state machine over all interleavings, the bounded log filter, the process-tree
  sampler, the JSON escape repair, and the scope check of patches with the collector of disclosed
  identifiers.

`Ordering` and `Graphs` hold the order and reachability lemmas the others share. Tables are maps, and
an entity key is a pair of kind and identifier. Digests and entry hashes are functions passed as
parameters. Theorems about certificates assume a digest without collisions and without empty values;
`Encoding` shows that this can be met. Theorems about journals assume no such thing, since digests of
64 hexadecimal digits must collide somewhere: they assume at most that hashes are such digests, and
what rests on the hash is stated as an explicit collision between entries of the journals at hand.
`Wrappers` and `Text` hold small shared definitions.

The functions that the methods and theorems speak through are themselves fixed by laws on the data: `Currency`,
`RowLaws` and `PassLaws` on the rows of the tables, `TreeFiles` on the files of procfs, `ScopeLaws` and
`BudgetLaws` on the fields of patches and actions, `JournalLaws` on the rows of the journal, `LogLaws` and
`EscapeLaws` on the text, and the last part of `Governor` on the history of observations.

## What the code does not guarantee

Some properties one would expect fail. Each is stated with the condition under which it holds.

* A checkpoint of a store that has a projection baseline is never accepted, not even at once: replay prefers that
  baseline (`replay.py:143-148`), its prior-history label (`store.py:1690`) is not among those the payload
  check supports (`audit_checkpoint.py:299-356`), and the prefix check reads the other baseline table.
  `CheckpointRuns.FreshPayload` gives the equivalence, `CheckpointExamples.ProjectionBaselineRefused` a store.
* A checkpoint also stops being accepted, until the next applied patch, when run-selection provenance is
  rewritten at the same revision (`workflow.py:2696`, `workflow.py:3069`): `CheckpointRuns.CheckpointStaysValid`,
  `CheckpointRuns.PatchRestoresCheckpoint`, and the step in `CheckpointExamples.ProvenanceStepRefused`.
* A stored obligation closure can go stale under a current binding, since the obligation's subject digest
  omits its resolution record: `Stability.CurrentObligationBinding` and `Stability.ObligationListCanGoStale`.
  It cannot while no edit takes evidence out of a record: `Lifecycle.AllCurrentBindingsCoverClosure`.
* A new claim binding is not current when the claim is integrated without a verified validation status:
  `Binding.NewBindingCurrent` and `Binding.NewBindingRefused`.
* After invalidation a route may keep a reached claim in its closure: `Revocation.ReachedClaimBelowRoute`
  and `Revocation.ReachedClaimStaysBelow`.
* Recording a non-verification run can raise the remaining budget up to the reserve:
  `Budget.ChargeNeverRaises` and `Budget.ChargeCanRaise`.

## Model

| member | source | states |
|---|---|---|
| ProofTables.SubjectDigestInjective | agents/generation/phase2/certificates.py:25-87 | Under a collision-free digest, two states give an entity the same subject digest exactly when both lack it or both hold the same certified content for it; statuses and an obligation's resolution record are not part of that content. |
| ProofTables.DependencyDigestInjective | agents/generation/phase2/certificates.py:202-221 | Two states, each with its own status overrides, give a dependency list the same digest exactly when every listed entity has the same content and the same (overridden) status in both. |
| Encoding.CanonicalTextsDiffer | agents/generation/phase2/certificates.py:620-622 | Different digested values have different canonical texts: list ends and dependency tables in key order are written so that nothing can be confused. |
| Encoding.CollisionFreeExists | agents/generation/phase2/certificates.py:620-622 | The hypothesis of the certificate theorems can be met: a collision-free digest function without empty values exists. |
| Closure.Walk.Add | agents/generation/phase2/certificates.py:100-142 | The recursive visit terminates on cyclic graphs; everything it adds is reachable from its argument, and every dependency of everything it added is in the shared seen set when the call returns. |
| Closure.DependencyClosureIds | agents/generation/phase2/certificates.py:90-199 | The list holds exactly the entities reachable from the subject's starting entities along route-inference, claim-verified-inference and inference-premise/condition edges, strictly ascending in key order. |
| Closure.SuccessorListIsEdge | agents/generation/phase2/certificates.py:106-142 | The entities one visit recurses into are exactly the successors of the declarative edge relation. |
| Closure.StartListIsStart | agents/generation/phase2/certificates.py:144-198 | The entities a subject's closure starts from, obligation owners and resolution records included, are exactly those of the declarative start relation. |
| Closure.WalkIsClosure | agents/generation/phase2/certificates.py:90-199 | Any set that holds the starts, is closed under dependency and contains only reachable entities, sorted, is the closure. |
| Invalidation.InvalidateDependents | agents/generation/phase2/certificates.py:429-487 | The worklist terminates on cyclic graphs and leaves exactly the state in which the reached claims and the inferences using them are revoked and integrated routes concluding a reached claim reopened; each changed claim or inference is reported exactly once, with its new status, and nothing else is reported. |
| Invalidation.ChallengeChanged | agents/generation/phase2/certificates.py:437-457 | The first phase revokes exactly the named inferences that exist and queues exactly the named claims and the conclusions of the named inferences. |
| Invalidation.ChallengeDependents | agents/generation/phase2/certificates.py:478-486 | For one claim, exactly the inferences using it as premise or condition are revoked, and the conclusions found are exactly theirs, whatever their status. |
| Invalidation.ChallengeClaimRow | agents/generation/phase2/certificates.py:464-477 | One claim's row and the routes concluding it get the state the specification gives, and a line is reported only if the claim was verified. |
| Invalidation.DependentsAreSupported | agents/generation/phase2/certificates.py:490-514 | A claim is found from another exactly when some inference, of any status, uses the one and concludes the other. |
| Invalidation.WorklistVisit | agents/generation/phase2/certificates.py:458-487 | Loop invariant: seen and queued claims are all reachable from the seeds and everything a seen claim supports is seen or queued; visiting a claim keeps it. |
| Invalidation.WorklistDone | agents/generation/phase2/certificates.py:458-487 | With an empty queue the seen claims are exactly the claims forward-reachable from the seeds. |
| Revocation.RevokedExactly | agents/generation/phase2/certificates.py:429-487 | After invalidation a claim is verified iff it was and is not reached; an inference iff it was, was not named and uses no reached claim; a route is integrated iff it was and its conclusion is not reached. |
| Revocation.ContentKept | agents/generation/phase2/certificates.py:429-487 | Certified content is untouched, and so is every row that was not verified (or, for routes, integrated); obligations and artifacts never change. |
| Revocation.SecondRunChangesNothing | agents/generation/phase2/certificates.py:429-487 | A second invalidation of the same changes leaves the state as it is and reports nothing. |
| Revocation.ClosureIsUpstream | agents/generation/phase2/certificates.py:90-199 | Relates the two edge relations: every claim in a claim's dependency closure reaches that claim along the invalidation edges, and so does the conclusion of every inference in it. |
| Revocation.DependentClaimsRevoked | agents/generation/phase2/certificates.py:429-487 | Every claim whose closure contained a reached claim or a named inference is unverified afterwards. |
| Revocation.NoReachedClaimInside | agents/generation/phase2/certificates.py:458-487 | After invalidation no verified claim and no verified inference has a reached claim in its recomputed closure. |
| Revocation.ReachedClaimBelowRoute | agents/generation/phase2/certificates.py:106-111 | Routes differ: a reached claim stays in a route's closure iff some inference of that route uses it, because a route leads to its inferences whatever their status. |
| Revocation.ReachedClaimStaysBelow | agents/generation/phase2/certificates.py:106-111 | A concrete state: a draft route whose unverified inference uses a revoked claim, which stays in the route's closure. |
| Revocation.SupportKept | agents/generation/phase2/certificates.py:429-514 | If every verified inference has only verified premises and conditions and every verified claim that has a verified derivation keeps one, both still hold afterwards; a still-verified claim keeps all its verified derivations. |
| Revocation.UnreachedKeepsInference | agents/generation/phase2/certificates.py:478-486 | A verified inference whose conclusion is not reached stays verified. |
| Integration.EvaluateRoute | agents/generation/phase2/integration.py:11-45 | The evaluation fails only for an unknown route; what it lists as missing is exactly what the route lacks, it integrates iff that is nothing, which is iff the conclusion and a terminal inference with its premises are verified, the route is sufficient and no active blocking obligation stands; the terminal inferences are listed in order. |
| Revocation.IntegrationKept | agents/generation/phase2/integration.py:11-45 | A route still integrated after an invalidation passes the evaluation iff it did before, with the same terminal inferences. |
| Stability.ClosureSupportsItself | agents/generation/phase2/certificates.py:90-199 | A freshly computed closure is self-supporting: each member is reached from a start through members only. |
| Stability.SupportKept | agents/generation/phase2/certificates.py:202-221 | States that agree on the subject's content and on content and status of the listed entities (for an obligation also on the obligation rows) agree that the list is self-supporting: every edge of every old path survives. |
| Stability.EqualDigestsSameEvidence | agents/generation/phase2/certificates.py:359-393 | Two states that both match a binding's two digests agree on the subject's content and on content and status of every listed entity. |
| Stability.CurrentBindingInClosure | agents/generation/phase2/certificates.py:359-393 | A current claim, inference or route binding that was once computed from a self-supporting list still has every listed entity in the closure recomputed now. |
| Stability.CurrentObligationBinding | agents/generation/phase2/certificates.py:175-199 | For any current obligation binding, rebased or not, all listed entities are in the closure iff those listed that its record started from, in the state that grounds the binding, still are. |
| Stability.ObligationListKept | agents/generation/phase2/certificates.py:175-199 | While the resolution record still names every claim, inference and route it named in the grounding state, a current obligation binding lists only entities of the closure. |
| Stability.AnchoredBindingInClosure | agents/generation/phase2/certificates.py:359-393 | Under that condition every current binding, of whatever kind, lists only entities of the closure. |
| Stability.ObligationListCanGoStale | agents/generation/phase2/certificates.py:72-87 | A concrete pair of states: clearing an obligation's resolution record keeps its binding current while a listed claim leaves its closure, because the subject digest omits that record. |
| Binding.BindNewCertificates | agents/generation/phase2/certificates.py:303-356 | Exactly the certificate artifacts of this revision change, and each receives for every certified target a binding over the subject's digest, its closure and the closure's digest, all read from the connection as earlier iterations left it. |
| Binding.BindTargets | agents/generation/phase2/certificates.py:320-356 | One certificate's loop: the stored bindings are the old ones with one new binding per target that has a digest. |
| Binding.NewBindingCurrent | agents/generation/phase2/certificates.py:396-426 | A binding just made passes the currency check iff its target is not a claim that is integrated without a verified validation status. |
| Binding.NewBindingRefused | agents/generation/phase2/certificates.py:396-426 | A concrete state: a report bound to a claim that is integrated with challenged validation, whose fresh binding is refused. |
| Binding.OtherBindingsKept | agents/generation/phase2/certificates.py:303-356 | Every other pair of artifact and entity has a current binding afterwards iff it had one before. |
| Binding.ArtifactsIrrelevant | agents/generation/phase2/certificates.py:25-87 | Digests, statuses and currency do not depend on the artifact table, so binding one certificate cannot affect another. |
| Binding.BoundIgnoresArtifacts | agents/generation/phase2/certificates.py:320-356 | What one certificate is bound to is the same whatever the other artifacts were bound to before it. |
| Rebasing.RebaseLifecycleBindings | agents/generation/phase2/certificates.py:224-300 | The pass rewrites exactly the bindings that qualify and leaves every other field of every row alone. |
| Rebasing.RebaseBindings | agents/generation/phase2/certificates.py:264-300 | One artifact's loop, with the changed flag false only if no binding changed. |
| Rebasing.UndoingPromotions | agents/generation/phase2/certificates.py:241-283 | Undoing the promotions reproduces the old dependency digest iff the listed entities differ from the previous state by promotions alone. |
| Rebasing.RebaseExact | agents/generation/phase2/certificates.py:224-300 | A binding current before a change and not edited since is current after the rebase iff the artifact digest and the subject content are the same, the certified status still fits, and every listed entity changed at most by promotion to integrated. |
| Rebasing.PromotionsKeepEveryReview | agents/generation/phase2/certificates.py:224-300 | If the only change is promoting verified claims to lifecycle integrated, every certificate binding that was current stays current, for all subjects and lists. |
| Rebasing.RewrittenOnlyIfReproduced | agents/generation/phase2/certificates.py:269-297 | Any rewritten binding had exactly the digest obtained by undoing those promotions, was not current, is current now, changes only its digest and gains one record of the old digest. |
| Rebasing.RebasedGrounded | agents/generation/phase2/certificates.py:224-300 | Rebasing keeps a binding of any kind grounded in some state, an obligation's in one with the old obligation rows, so the closure theorems survive any number of rebases. |
| Rebasing.RebasedIgnoresArtifacts | agents/generation/phase2/certificates.py:258-300 | What a binding is rewritten to is the same whatever other artifacts were rewritten to before it. |
| Obligations.InvalidateStaleRefuted | agents/generation/phase2/certificates.py:517-555 | The pass over refuted obligations in identifier order, each judged in the state the earlier ones left; exactly the reopened ones are reported. |
| Obligations.ReopenAffectsOnlyItself | agents/generation/phase2/certificates.py:541-553 | If no binding lists an obligation, reopening one changes the currency of no binding for any other entity. |
| Obligations.InTurnIsAtOnce | agents/generation/phase2/certificates.py:517-555 | Judging in turn is judging all at once: exactly the obligations stale at the start are reopened, and those left refuted have current evidence. |
| Obligations.OnePassSuffices | agents/generation/phase2/certificates.py:517-555 | One pass is a fixpoint: every obligation still refuted has evidence with a current binding, and another pass changes nothing. |
| Assurance.ScanReviews | agents/generation/phase2/assurance.py:76-124 | The scan over reviews records for each independence class exactly the keys it currently covers, and lists exactly the qualifying review and formal artifacts, in scan order and once each, and the human ones by class. |
| Assurance.ClaimAssuranceSummary | agents/generation/phase2/assurance.py:42-186 | Satisfied iff the level is not heterogeneous review, or there is a current formal certificate for this very claim, or one human class or two distinct model classes cover the claim and every inference of the route; the complete and partial classes, the artifact lists with their order, and the basis are exact. |
| Assurance.AssuranceNeedsClaimBinding | agents/generation/phase2/assurance.py:76-163 | Whichever of the three paths satisfies a heterogeneous review, some artifact has a current binding for the claim itself. |
| Assurance.ChallengedClaimNotAssured | agents/generation/phase2/assurance.py:76-163 | Once invalidation reaches a verified claim, no formal, human or two-model path can report its heterogeneous review satisfied. |
| Lifecycle.StepKeepsHostBuilt | agents/generation/phase2/certificates.py:224-356 | Every step of a run (arbitrary edits of the tables that do not forge bindings, binding, rebasing, invalidation, reopening) keeps every binding host-built. |
| Lifecycle.RunKeepsHostBuilt | agents/generation/phase2/certificates.py:224-356 | So does every run. |
| Lifecycle.CurrentBindingsCoverClosure | agents/generation/phase2/certificates.py:359-393 | In every state of every run, whatever a current claim, inference or route binding lists is in the closure recomputed there. |
| Lifecycle.CurrentObligationBindingsInRuns | agents/generation/phase2/certificates.py:175-199 | In every state of every run a current obligation binding is grounded in some state, and its list is in the closure iff the listed starting entities of that state are. |
| Lifecycle.RunKeepsAnchored | agents/generation/phase2/certificates.py:224-356 | A run whose edits never take evidence out of a resolution record keeps every binding anchored, rebased ones included. |
| Lifecycle.HostPassesKeepRecords | agents/generation/phase2/certificates.py:517-555 | The host's own passes never take anything out of a resolution record. |
| Lifecycle.AllCurrentBindingsCoverClosure | agents/generation/phase2/certificates.py:359-393 | In every state of such a run, whatever any current binding lists, obligations included, is in the closure recomputed there. |
| Lifecycle.OnePassSufficesInRuns | agents/generation/phase2/certificates.py:517-555 | In every run one pass over the refuted obligations is a fixpoint, since closures never list an obligation. |
| Lifecycle.ClosureHoldsNoObligation | agents/generation/phase2/certificates.py:175-199 | No closure, of an obligation or of anything else, contains an obligation. |
| Lifecycle.ChallengedNotAssuredInRuns | agents/generation/phase2/assurance.py:76-163 | In every run, invalidating a verified claim withdraws its heterogeneous review. |
| Lifecycle.SurvivesInvalidation | agents/generation/phase2/certificates.py:396-487 | A current binding survives an invalidation iff its certified status still fits and no listed entity changed status. |
| AuditChain.TamperingCollides | agents/generation/phase2/audit_chain.py:21-94 | Tamper evidence without any assumption on the hash: two linked journals of equal length with equal heads that differ contain, at some position, two entries with different inputs and the same hash. |
| AuditChain.SameHeadSameJournal | agents/generation/phase2/audit_chain.py:21-94 | If no entry of the one collides with an entry of the other, such journals are equal entry by entry. |
| AuditChain.LinkedIffRelinked | agents/generation/phase2/audit_chain.py:63-94 | A journal is linked iff it is the recomputed chain over its own contents: the chain exists and is unique. |
| AuditChain.ChainedUnique | agents/generation/phase2/audit_chain.py:97-146 | There is exactly one way to chain the ordered rows of a table and leave the others alone. |
| AuditChain.PolicyHeadIsLast | agents/generation/phase2/audit_chain.py:138-164 | The policy head is the hash of the last event of a policy type, and the genesis hash without one. |
| AuditChain.BackfillPatchEntryChain | agents/generation/phase2/audit_chain.py:97-121 | Backfill writes the genesis-linked chain over the applied patches in revision order, touches no other row, and returns its length and head. |
| AuditChain.BackfillEventChain | agents/generation/phase2/audit_chain.py:124-146 | Backfill chains all events in identifier order and stores and returns their count, head and policy head. |
| AuditChain.BackfillTwice | agents/generation/phase2/audit_chain.py:97-121 | Running the patch backfill again changes nothing. |
| AuditChain.BackfillEventsTwice | agents/generation/phase2/audit_chain.py:124-146 | Running the event backfill again changes nothing. |
| Checkpoint.PayloadErrors | agents/generation/phase2/audit_checkpoint.py:299-356 | The reported errors are exactly the faults of the payload, field by field; there are none iff version, counts, digests, migrations, prior-history label and revision arithmetic all have the required shape. |
| Checkpoint.ScanPolicyHead | agents/generation/phase2/audit_checkpoint.py:594-604 | The prefix scan's policy head is the one backfill records. |
| Checkpoint.PrefixErrors | agents/generation/phase2/audit_checkpoint.py:468-607 | The reported errors are exactly the disagreements with the current journal; there are none iff it agrees on identity, migrations, baseline and start state, on the recorded patch and its hash, and on the recorded event prefix. |
| Checkpoint.VerifyPayload | agents/generation/phase2/audit_checkpoint.py:359-465 | Prefix errors are looked for only in a well-formed payload, and no error is reported iff the payload is accepted. |
| CheckpointRuns.FreshPayload | agents/generation/phase2/audit_checkpoint.py:215-250 | If hashes are digests, a payload built for a replayable journal is well-formed iff the store has no projection baseline. |
| CheckpointRuns.AcceptsExactlyExtensions | agents/generation/phase2/audit_checkpoint.py:468-607 | Among replayable journals without a projection baseline a checkpoint of one accepts every continuation of it (same identity and start, every recorded patch and event equal entry by entry), and whatever else it accepts holds an entry that collides with one of that journal. |
| CheckpointRuns.PatchesDetermined | agents/generation/phase2/audit_checkpoint.py:541-592 | The patch part accepts whenever the old patches after the baseline are a prefix of the new ones, and without a collision among them only then. |
| CheckpointRuns.EventsDetermined | agents/generation/phase2/audit_checkpoint.py:584-606 | The event part, policy head included, accepts whenever the old events are a prefix of the new ones, and without a collision among them only then. |
| CheckpointRuns.StartStateKept | agents/generation/phase2/audit_checkpoint.py:520-540 | The start hash is the same after a patch is appended, also when it was the current hash and is now read off that first patch. |
| CheckpointRuns.StepKeepsReplayable | agents/generation/phase2/replay.py:260-350 | Every allowed step, a linked patch, a linked event or new run-selection rows, keeps the journal replayable. |
| CheckpointRuns.RunKeeps | agents/generation/phase2/replay.py:260-350 | Every run keeps the journal replayable and a continuation of where it started. |
| CheckpointRuns.CheckpointStaysValid | agents/generation/phase2/audit_checkpoint.py:468-607 | After any run a checkpoint is accepted iff the store has no projection baseline and the run advanced the revision or left the run-selection provenance as it was. |
| CheckpointRuns.PatchRestoresCheckpoint | agents/generation/phase2/audit_checkpoint.py:468-607 | After any run, one more applied patch makes every older checkpoint acceptable again. |
| CheckpointExamples.ProjectionBaselineRefused | agents/generation/phase2/replay.py:143-148 | A concrete replayable store with a projection baseline that refuses its own checkpoint for its prior-history label, while the same store without that baseline accepts its own. |
| CheckpointExamples.ProvenanceStepRefused | agents/generation/phase2/workflow.py:2695-2698 | A concrete journal and one allowed step, new run-selection rows at the same revision, after which its checkpoint is refused. |
| CheckpointExamples.CollisionsFool | agents/generation/phase2/audit_checkpoint.py:584-606 | A concrete pair of replayable journals with different events under a constant hash, one accepting the other's checkpoint: the collision in the tamper-evidence theorem cannot be dropped. |
| Budget.PlannedMeetsContract | agents/generation/phase2/budget.py:81-235 | For every action with valid routing, planning by mode and normalizing on the completed action meets the version 5 allocation contract iff the plan is allowed and the reserve is within the remaining budget. |
| Budget.GrantExact | agents/generation/phase2/budget.py:121-235 | The normalized plan is the best its class allows: the request, else what the action calls for, else the mode's default, clamped to the step bounds and cut to what the class may spend; allowed iff the class can pay for a minimal step. |
| Budget.GrantWithinClass | agents/generation/phase2/action_contract.py:307-324 | A grant never exceeds what its budget class may spend, so a non-verification grant never reaches the reserve. |
| Budget.NormalizeIdempotent | agents/generation/phase2/budget.py:179-235 | Normalizing twice is normalizing once, on every allocation. |
| Budget.NormalizeNeverLowers | agents/generation/phase2/budget.py:179-235 | Normalization never lowers a planned grant and never revokes permission. |
| Budget.ResourceAllocationErrors | agents/generation/phase2/action_contract.py:209-298 | The reported errors are exactly what is wrong, amounts being compared only when none is negative; there are none iff every field is in range, the amounts are ordered, and the spendable amount is the one of the action's class. |
| Budget.DispatchErrors | agents/generation/phase2/action_contract.py:190-206 | The reported errors are exactly what is wrong with routing and allocation; there are none iff both are valid. |
| Budget.ChargedAsBudgeted | agents/generation/phase2/budget.py:282-288 | The charge treats a run as verification exactly when its action was budgeted as verification. |
| Budget.RunConserves | agents/generation/phase2/patches.py:6525-6551 | Over any run of allowed steps charged within their grants, every spent token leaves the remaining budget once, the budget stays nonnegative, and without verification steps it never drops below the reserve. |
| Budget.ChargeNeverRaises | agents/generation/phase2/patches.py:6543-6546 | Charging a run does not raise the remaining budget iff nothing was spent, or the run may use the reserve of a nonnegative budget, or the reserve is still whole. |
| Budget.ChargeCanRaise | agents/generation/phase2/patches.py:6543-6546 | A concrete instance: an integration and a proof attempt planned and allowed in the same state, each spending within its grant; recording the second after the first has spent into the reserve raises the remaining budget to the reserve. |
| Governor.AggregateProcessTreeRSSGovernor.ObserveLocked | agents/generation/phase2/codex_runner.py:196-216 | The critical section takes the shared state to the specified next state and captures exactly the events to be set. |
| Governor.AggregateProcessTreeRSSGovernor.ObserveSample | agents/generation/phase2/codex_runner.py:179-223 | An empty name or a negative size is refused with nothing changed; otherwise the state moves as specified, the returned total and flag are those of the new state, and all captured events end up set. |
| Governor.AggregateProcessTreeRSSGovernor.CurrentTotal | agents/generation/phase2/codex_runner.py:211-211 | The loop computes the sum over all participants. |
| Governor.AggregateProcessTreeRSSGovernor.ReleaseParticipant | agents/generation/phase2/codex_runner.py:225-229 | Release removes one participant's size and event and nothing else. |
| Governor.TotalReported | agents/generation/phase2/codex_runner.py:204-211 | A report moves the total by exactly the difference between the participant's new and old size. |
| Governor.SafeInEveryRun | agents/generation/phase2/codex_runner.py:150-229 | In every interleaving, with each event set outside the lock as a step of its own: tripped iff some observation failed or left the total above the limit, the sizes and the peak are those of the history, and whenever tripped every registered event is set or in the batch of an observer still setting events. |
| Governor.TrippedForever | agents/generation/phase2/codex_runner.py:150-229 | No step of any thread clears a trip. |
| Governor.QuiescentMeansStopped | agents/generation/phase2/codex_runner.py:217-223 | Once tripped with no observer in flight, every registered event is set; an observer that returned after a trip has its own event set. |
| Governor.PeakIsMaximum | agents/generation/phase2/codex_runner.py:212-212 | The recorded peak bounds the total after every observation and is attained by one of them, or is zero. |
| LogStream.ChildLog.StreamChildLog | agents/generation/phase2/codex_runner.py:3446-3513 | For every chunking: the emitted fragments concatenate to the stream, the log is the old log plus the filtered fragments cut to the room left, the limit is flagged iff they overflowed it, and the cap holds; when no line is above 128 KiB, log and flag are those of the batch computation on whole lines, so chunk boundaries are unobservable. |
| LogStream.ChildLog.Emit | agents/generation/phase2/codex_runner.py:3466-3482 | One fragment keeps the log equal to the batch result over the fragments so far. |
| LogStream.ChildLog.DrainChunk | agents/generation/phase2/codex_runner.py:3501-3507 | One chunk: all completed lines are emitted, nothing is lost, and if no rest can be long only completed lines are emitted. |
| LogStream.LinesAfter | agents/generation/phase2/codex_runner.py:3502-3504 | Completed lines are cut off the same way whatever follows them. |
| LogStream.LinesConcat | agents/generation/phase2/codex_runner.py:3502-3504 | Cutting into lines loses nothing. |
| LogStream.PendingIsBounded | agents/generation/phase2/codex_runner.py:3505-3507 | If no line of the stream is above the limit, the pending text never is, so it is never cut. |
| ProcessTree.SampleProcessTree | agents/generation/phase2/codex_runner.py:4047-4176 | Terminates on any snapshot, cyclic children lists included; a sum is exactly the total over all processes reachable through any task's children list, each once, and is given only if all of them were readable and at most 4096; a failure names a reason found at a process of the tree, or the process limit was really at stake. |
| ProcessTree.ReadableTreeIsSummed | agents/generation/phase2/codex_runner.py:4047-4176 | A readable tree of few enough processes always gives its exact total. |
| ProcessTree.LiveProcessNeedsSize | agents/generation/phase2/codex_runner.py:4111-4126 | A live process without a size anywhere in the tree rules out every sum. |
| ProcessTree.CountedProcess | agents/generation/phase2/codex_runner.py:4081-4173 | A counted process contributes its own size if live, or that of its first sized task if the leader is dead, and its children are those of every task. |
| ProcessTree.ScanCounted | agents/generation/phase2/codex_runner.py:4134-4171 | Scanning a task directory takes one size, the known one or the first found, and the children of all tasks. |
| ProcessTree.VisitEachTask | agents/generation/phase2/codex_runner.py:4134-4171 | The loop over a task directory computes the specified outcome, the 4096-task limit and each error in turn included. |
| ProcessTree.VisitProcess | agents/generation/phase2/codex_runner.py:4060-4173 | The branches over status, stat and task files compute the specified outcome for one process. |
| ProcessTree.ProcessTreeRss | agents/generation/phase2/codex_runner.py:4036-4044 | The result is that of the first attempt that is not an unreadable exiting group, and a failure if all three are. |
| EscapeRepair.ProtectTwice | agents/generation/phase2/codex_runner.py:3789-3804 | The protection pass is idempotent. |
| EscapeRepair.MatchIsWholeRun | agents/generation/phase2/codex_runner.py:3799-3804 | The pattern matches exactly when the whole run of letters after the backslash is a listed command. |
| EscapeRepair.StrictOfMended | agents/generation/phase2/codex_runner.py:3821-3830 | With the first k invalid escapes doubled the strict decoder stops exactly at the next one, shifted by k, and with all of them doubled it reads what a one-pass lenient reader reads. |
| EscapeRepair.MendedNext | agents/generation/phase2/codex_runner.py:3826-3830 | Inserting one backslash at the reported position, which holds a backslash, doubles exactly the next invalid escape. |
| EscapeRepair.StartsAscend | agents/generation/phase2/codex_runner.py:3821-3830 | Invalid escapes start at backslashes, strictly increasing and at least two apart. |
| EscapeRepair.StartsAreFewerThanBackslashes | agents/generation/phase2/codex_runner.py:3816-3821 | The protected text has no more invalid escapes than the unprotected one has backslashes, so below the cap the bound on repairs always suffices. |
| EscapeRepair.RepairInvalidJsonEscapes | agents/generation/phase2/codex_runner.py:3807-3834 | The loop's result is the lenient reading of the protected text, or nothing if that is not acceptable or needs 4096 repairs; the positions it repaired are exactly the first invalid escapes, strictly advancing. |
| EscapeRepair.ProtectedReads | agents/generation/phase2/codex_runner.py:3789-3834 | Protecting and then reading leniently is one pass over the response itself: in strings the backslash of an invalid escape or of a listed command not preceded by a backslash stands for itself, and everything else is read by section 7 of RFC 8259. |
| EscapeRepair.ReadCandidate | agents/generation/phase2/codex_runner.py:3744-3758 | Protect, decode and repair together return exactly that one-pass reading, unless it is not acceptable or meets 4096 invalid escapes. |
| ScopeCheck.OperationScopeErrors | agents/generation/phase2/authority.py:221-317 | For a session patch the errors are exactly the unclassified identifier fields and, at every visited depth, the references that are not blank, authorized, scheduled or created by the same patch, each with its operation and field; other sources get no error. |
| ScopeCheck.CheckMapping | agents/generation/phase2/authority.py:249-287 | The recursion reports exactly the references out of scope at the end of every path, each with the field it stands in. |
| ScopeCheck.RefersByChildren | agents/generation/phase2/authority.py:275-287 | A mapping refers along some path to exactly what its own fields refer to and what its children do. |
| ScopeCheck.CreatedIds | agents/generation/phase2/authority.py:237-243 | The first loop collects exactly the identifiers some operation of the patch creates. |
| ScopeCheck.MoreAuthorityNeverHurts | agents/generation/phase2/authority.py:234-236 | Every error reported under an enlarged authorized set is reported without the enlargement. |
| ScopeCheck.Collect | agents/generation/phase2/codex_runner.py:2279-2292 | The visit collects exactly the identifiers found under an `_id` key or in an `_ids` list at some path. |
| ScopeCheck.DisclosedEntityIds | agents/generation/phase2/codex_runner.py:2270-2303 | The disclosed identifiers are exactly the nonempty prior ones, those found in the manifest or the action, and the action's target and route. |
| ScopeCheck.DisclosedReferencesPass | agents/generation/phase2/authority.py:221-317 | For a session authorized with exactly the identifiers disclosed for its manifest, action and prior packets, a patch gets no error iff its identifier fields are classified and every reference at every depth is disclosed, names its target or route, or a record it creates. |
| Currency.SubjectDigestOnRows | agents/generation/phase2/certificates.py:25-87 | Two states give an entity the same digest iff neither has its row or the two rows agree on every certified field, written out: a claim's or inference's everything but statuses and evidence, a route's everything but status and evidence, an obligation's owner, text and type. |
| Currency.DependencyDigestOnRows | agents/generation/phase2/certificates.py:202-221 | Two states digest a list alike iff every listed entity has the same certified fields and the same status fields in both, or no row in either. |
| Currency.CurrencyOnRows | agents/generation/phase2/certificates.py:359-426 | A current binding is current in another state iff the artifact digest is the same, the certified fields of its subject are, its status fields fit what was certified, and every listed entity is undisturbed. |
| Currency.EditMakesStale | agents/generation/phase2/certificates.py:359-393 | Editing any certified field of the subject, or any certified or status field of a listed entity, makes a current binding stale. |
| Currency.RewordingMakesStale | agents/generation/phase2/certificates.py:25-45 | In particular, giving a claim another statement makes every current binding for it stale. |
| RowLaws.ClosureIsLeast | agents/generation/phase2/certificates.py:90-199 | The closure is the least set that holds the starting entities and with each route its inferences, with each claim its verified derivations and with each inference its premises and conditions, read off the rows. |
| RowLaws.ReachedIsLeast | agents/generation/phase2/certificates.py:429-514 | The reached claims are the least set that holds the changed claims and the conclusions of the changed inferences, and the conclusion of every inference that uses one of them. |
| RowLaws.InvalidatedRows | agents/generation/phase2/certificates.py:429-487 | Every row after an invalidation, field by field: a verified reached claim is challenged and no longer integrated, a verified inference that was named or uses a reached claim is challenged, an integrated route concluding a reached claim is active; no other field and no other row differs. |
| RowLaws.RevokedStatus | agents/generation/phase2/certificates.py:464-477 | A verified reached claim counts as challenged when it is digested as a dependency, also if it was integrated. |
| RowLaws.ListedRevocationMakesStale | agents/generation/phase2/certificates.py:359-487 | No binding that was current and lists a claim or inference revoked by an invalidation is current afterwards. |
| PassLaws.TargetsOnRows | agents/generation/phase2/certificates.py:558-596 | An entity is certified by an artifact iff its row cites the artifact as evidence of a certified status: by the evidence list of a claim, inference or integrated route, by the resolution record of a refuted obligation, or as the route the artifact is aimed at. |
| PassLaws.BoundRows | agents/generation/phase2/certificates.py:303-356 | Every artifact row after binding: a certificate of this revision gets, for exactly the rows that cite it, a binding with the digests, status, revision and reviewer they have; no other binding and no other field differs. |
| PassLaws.RebasedRows | agents/generation/phase2/certificates.py:224-300 | What an unedited current binding survives, on the rows: the same artifact digest and certified fields, a fitting status, and listed entities each undisturbed or promoted. |
| PassLaws.RebasedRecords | agents/generation/phase2/certificates.py:269-300 | Every binding after a rebase: exactly the carried ones get the present digest and one record of revision, both digests and the promoted claims in ascending order; nothing else of any artifact differs. |
| PassLaws.ReopenedRows | agents/generation/phase2/certificates.py:517-555 | Every obligation row after the pass: active if it was refuted and none of its named evidence has a current binding for it, and otherwise unchanged. |
| PassLaws.RefutationFalls | agents/generation/phase2/certificates.py:517-555 | If every bound evidence artifact of a refuted obligation is current and lists a claim that an invalidation revokes, the pass that follows reopens the obligation. |
| PassLaws.PassesOnRows | agents/generation/phase2/integration.py:11-45 | A route passes iff it is sufficient, its conclusion is verified, no active blocking obligation has the route or the conclusion as owner, and some verified inference of the route concludes it from verified premises. |
| PassLaws.LacksOnRows | agents/generation/phase2/integration.py:17-39 | What each reported lack says about the rows, in both directions. |
| PassLaws.AssuredOnRows | agents/generation/phase2/assurance.py:73-163 | The summary is satisfied iff nothing is designated, a host-checked formal result for the claim's present digest is current, or one human class or two different model classes have a current review for the claim and for every inference of the route. |
| PassLaws.SummaryOnRows | agents/generation/phase2/assurance.py:76-186 | The reported reviews, complete and partial classes and human artifacts, read off the rows. |
| Governor.TablesInEveryRun | agents/generation/phase2/codex_runner.py:195-229 | In every run the guarded tables are what the history says by position: a participant's event is the one it last gave with a nonzero or failed sample, its size the last nonzero one measured, both gone after a zero or a release, and its diagnostic that of its last failed sample. |
| Governor.EveryRegisteredIsStopped | agents/generation/phase2/codex_runner.py:150-223 | From the history alone: tripped iff some observation was a failed sample or found a total above the limit; from then on each event last given and not withdrawn is set or in the batch of a thread in flight, and set once none is; before, no event is set or waiting. |
| TreeFiles.VisitOnFiles | agents/generation/phase2/codex_runner.py:4081-4173 | One process on its files: passed over iff it has no status, or is a dead leader without siblings, or lacks RSS and its stat file is gone; otherwise counted iff every file it needs can be read, with the size and children those files give, an exiting process without RSS included. |
| TreeFiles.SumOnFiles | agents/generation/phase2/codex_runner.py:4047-4176 | If the sample is a sum, every file needed by any process the children files lead to was readable, everything any task of a followed process names is in the summed set or has no status, there are at most 4096, and the sum is that of their sizes, each once. |
| TreeFiles.ReadFilesAreSummed | agents/generation/phase2/codex_runner.py:4047-4176 | Conversely, when all those files can be read and the processes are few enough, the sample is that sum. |
| TreeFiles.FailingFileRulesOutSum | agents/generation/phase2/codex_runner.py:4074-4172 | An unreadable status, RSS line, stat file, task directory or children file, a malformed child or a missing size anywhere in that tree rules out a sum. |
| TreeFiles.FailureOnFiles | agents/generation/phase2/codex_runner.py:4064-4174 | A failure names a fault that some process of that tree has in its files, or the tree is too large; and there is no sample yet only if some group's memory has no task left to show it. |
| ScopeLaws.OwnOnFields | agents/generation/phase2/authority.py:256-274 | A mapping refers by one of its own fields iff the first field of that name is a reference field other than the created one and reads as the reference, or is a reference list with an item that does. |
| ScopeLaws.NestedReference | agents/generation/phase2/authority.py:249-287 | References at any depth are those of the mapping's own fields, of a field that holds a mapping, and of the mappings among the items of one that holds a list; below the top the created field is no exception. |
| ScopeLaws.ScopeOnFields | agents/generation/phase2/authority.py:234-243 | In scope are the authorized identifiers, the target and route when named, and the nonempty identifier in the created field of any operation of the patch. |
| ScopeLaws.WrongOnFields | agents/generation/phase2/authority.py:221-317 | What is wrong with a patch, read off its fields: an identifier field of an operation in none of the registers, or a reference at some depth that the session may not name. |
| ScopeLaws.DisclosedOnFields | agents/generation/phase2/codex_runner.py:2279-2292 | What a value discloses, by the shape of the value and the ending of its key. |
| ScopeLaws.DisclosedToOnFields | agents/generation/phase2/codex_runner.py:2270-2303 | What the host discloses in all, read off the prior list, the manifest and the action. |
| BudgetLaws.RoleOnAction | agents/generation/phase2/action_contract.py:326-376 | For each role, exactly the actions that get it, in terms of their fields. |
| BudgetLaws.ReserveOnAction | agents/generation/phase2/action_contract.py:301-324 | The reserve is for exactly five modes and the strict checks among the proof actions; budgeting and charging agree on them. |
| BudgetLaws.CallsIsWanted | agents/generation/phase2/budget.py:121-176 | What is planned for is the request, a zero standing for none; else the first call of the action in their order of precedence, with its amount and label; else the default of the mode. |
| BudgetLaws.PlanInAmounts | agents/generation/phase2/budget.py:81-235 | The normalized plan in plain amounts: limit, grant, spendable amount, permission and label from what is called for, what remains and what is reserved. |
| BudgetLaws.ReasonInAmounts | agents/generation/phase2/budget.py:89-118 | Why a step is refused, for actions that may draw on the reserve and for others, read off what remains and what is reserved. |
| BudgetLaws.ChargeInAmounts | agents/generation/phase2/patches.py:6525-6551 | A charge is one subtraction with a floor: zero for runs that may draw on the reserve and the reserve for others. |
| JournalLaws.AppliedOnRows | agents/generation/phase2/audit_chain.py:105-121 | The chained patches are exactly the applied ones, ordered by revision and then by the text of their identifiers, character by character. |
| JournalLaws.BackfilledRows | agents/generation/phase2/audit_chain.py:97-146 | What a migration writes, row by row: the first row names sixty-four zeros and every other the hash of the row before it, each hash is the recomputed one, and nothing else changes. |
| JournalLaws.PolicyHeadOnRows | agents/generation/phase2/audit_chain.py:138-164 | The policy head is the hash of the last event of one of the five types, or sixty-four zeros. |
| JournalLaws.SplitOnRows | agents/generation/phase2/audit_checkpoint.py:537-541 | The patches after a baseline are picked row by row, in order. |
| JournalLaws.StartStateOnRows | agents/generation/phase2/audit_checkpoint.py:542-548 | The start hash is the recorded one, else that before the first patch later than the baseline, else the current one. |
| JournalLaws.PayloadOnFields | agents/generation/phase2/audit_checkpoint.py:299-356 | A payload is well-formed iff its version is 2, its counts, digests, migrations and label have the written-out shape and it belongs to the problem. |
| LogLaws.KeptOnFragments | agents/generation/phase2/codex_runner.py:3466-3469 | Filtering goes fragment by fragment and keeps their order. |
| LogLaws.ExpectedOnText | agents/generation/phase2/codex_runner.py:3466-3482 | The log is a prefix of the old text and the kept text, at its cap unless all fits, and the limit is flagged iff some of it is missing. |
| LogLaws.LinesAreThose | agents/generation/phase2/codex_runner.py:3502-3504 | Any cut into completed lines and a last one is the one the log uses. |
| LogLaws.ShortOnText | agents/generation/phase2/codex_runner.py:3505-3507 | The streams whose log does not depend on chunks are those without a stretch of more than 131072 characters between newlines. |
| EscapeLaws.ProtectOnText | agents/generation/phase2/codex_runner.py:3789-3804 | Without a lone backslash before a listed command the text stays; otherwise the first such backslash is doubled, everything before it stays and the rest is protected in turn. |
| EscapeLaws.StringReadBack | agents/generation/phase2/codex_runner.py:3746-3747 | Round trip: a string written with JSON escapes reads back as exactly its characters, then the closing quote, then the rest. |
| EscapeLaws.CleanResponse | agents/generation/phase2/codex_runner.py:3743-3758 | A response that is valid and holds no such command is taken as it is. |
| EscapeLaws.RepairedResponse | agents/generation/phase2/codex_runner.py:3743-3834 | Below 4096 invalid escapes what is taken is what the strict decoder reads of the protected text with every one of them doubled; from 4096 on nothing is. |

## Left out

- Rebasing.RebaseExact: says nothing of a binding that was edited between the two states; the pass itself covers those too.
- Rebasing.PromotionsKeepEveryReview: covers certificate artifacts only, because the pass considers no others.
- Stability.CurrentBindingInClosure: excludes obligation subjects, for which it is false; they have Stability.CurrentObligationBinding and Stability.ObligationListKept.
- CheckpointRuns.AcceptsExactlyExtensions: leaves out journals with a projection baseline; no checkpoint of such a store is accepted at all.
- LogStream.ChildLog.StreamChildLog: equality with the batch result is stated for streams without a line above the pending limit; longer lines are cut into pieces that the filter judges one by one, so there it speaks about the emitted pieces.
- ProcessTree.ReadableTreeIsSummed: at exactly 4096 processes it also needs every listed child to exist; whether the limit strikes then depends on the order of visits.
- EscapeRepair.ReadCandidate: the fallback that removes an extra closing brace, and the search for the next opening brace, are not modelled.
- Governor.AggregateProcessTreeRSSGovernor.ObserveSample: sizes are exact reals, so NaN and infinities, which the code refuses, do not arise; the snapshot for reporting is left out.
- Invalidation.InvalidateDependents: fixes which changes are reported and how often, not their order in the report.
- Checkpoint.VerifyPayload: covers the payload and prefix checks; the signature, the current replay and the store's invariants, which the code checks as well, are not part of it.
- SQLite, cursors, transactions, timestamps and file permissions: tables are maps, updates are state changes, and an update's `updated_at` is left out.
- JSON encoding and the internals of SHA-256: digests are functions of the digested value. A sorted list of records with distinct keys is digested as the map it lists.
- Key strings: keys of other kinds, keys without a separator and the alias `debt` for obligations do not occur; a malformed dependency list is represented by an unsupported binding version, which is rejected alike.
- Ed25519 signatures and key files: absent; a checkpoint is its payload. Fields of a payload have their declared types, so the errors for values of a wrong JSON type do not arise.
- Replay of row deltas: replaying a patch is represented by state hashes that meet from one patch to the next; migration backup files and dispatch provenance are not checked.
- The ledgers of earlier versions of the scheduler contract (1 to 4) and the hash-committed scenario vectors: finite constants.
- The parallel admission optimizer: its source is not part of this model.
- The wording and order of error messages: an error is its kind, with the operation, field and reference it names.
- Python's printing of nested values used as identifiers, and which log lines are noise: parameters.
- Partial UTF-8 characters at chunk ends and in truncation: log text is ASCII.
- The grammar of JSON outside strings: any left-to-right decoder that rejects a backslash there, given as a transition function; the value built from what was read is a parameter.
- Rounding of megabytes, a task directory that disappears while it is listed, and the fallback for systems without procfs: a sample is taken from one unchanging snapshot, in kB.
- Process spawning and supervision around the governor, the log and the sampler.
