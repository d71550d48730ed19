# AeroMesh verification

AeroMesh takes a graph of delegating agents, seals it with content digests, has an
operator approve it, and runs it under a scheduler and a budget. This project models
the algorithms and protocols that those promises rest on and proves them in Dafny.
`dafny verify dfyconfig.toml` checks everything.

How the modules fit together:

- **Workflows.** `WorkflowDag` is Kahn's loop with its tables; `WorkflowRun` is the
  execution: all-predecessor barriers, supersteps on one snapshot of the outputs,
  merging, failures, the scheduler's limit; `Templates` is the one-pass substitution.
- **Releases.** `Manifests` has the manifests and their reference pins, `Releases` the
  validator, `ReleaseMeaning` what it accepts, `ReferenceOrder` and `DepthLimit` what its
  depth check does and does not bound, `ReleaseBuilder` the builder, `BuildSources` what it
  reads, `BuildSuccess` when it succeeds, `Merkle` what an entry digest determines,
  `Rebuild` what building a sealed release again gives. `Graphs` holds the graph theory
  they share.
- **Delegation at run time.** `Delegation` relates preflight's memoised walk, the
  runtime's recursive compilation, and the revalidation before execution;
  `DelegationRuntime` has the walks as the program runs them, with the capability check;
  `DelegationMeaning` says what both ask of the files.
- **Budget.** `Ledger` is the locked usage ledger.
- **Contracts.** `JsonPointer` resolves references (RFC 6901, sections 3, 4 and 6, in
  percent-encoded fragments) and `PointerMeaning` says which; `Contracts` is the worklist
  and the reference-loop test, `ContractMeaning` the rules they decide.
- **Policy and approval.** `Policy` is the capability inventory, the operator policy
  check and the release diff; `Approval` the store with its writes and loads;
  `ApprovalRuns` every interleaving of approvals, crashes, edits and revocations;
  `LoadRuns` loads whose reads interleave with all of these.
- **Other protocols.** `Publication` (drafting, verifying and publishing a version),
  `Sessions`, `SessionRuns` and `SessionProgress` (registry, lock, receipts, resume),
  `KeyStore`.

Code that the repository writes as loops and mutable objects is written that way here:
a class or method with the same fields and branches, proved equal to a function on
values. The theorems are about those functions, over all inputs, runs and
interleavings; for the main ones a theorem says what they decide or compute in terms of
their input alone, without naming them or their helpers. Failures are inputs: every protocol operation takes a description of
what goes wrong in it, and theorems quantify over it.

Hash functions are parameters. Where a theorem needs two contents with one digest to
be equal it says so, and asks it only of the contents involved where that is possible.

## What turned out different from what one might expect

- **Depth limit.** The validator's depth check bounds the descent of one depth-first
  walk, not the longest path. `LongPathAccepted` gives, under any hash and any content that
  the schema accepts, valid releases with paths of every length up to 255 in which no agent
  has more than a handful of references. `EveryOrderValidIff` is the exact condition: a
  release that passes every other check is valid in every order of its references, each with
  digests of its own, exactly when no path from the entry is longer than the limit.
  `OrderDecides` puts the two together.
- **Copies of a manifest.** A build reads one file of each identity and follows the
  references of no other, so it can succeed although a second copy, elsewhere, has a
  reference that finds no file (`SecondCopyUnread`). `GoodInputsBuild` holds for all
  inputs; its converse, for everything but the depth, holds when files of one identity and
  one digest are the same manifest and find the same files (`BuiltInputsAreGood`).
- **Delegation.** In development mode preflight compares the identity of the file a
  reference resolves to, and the runtime does not. `DevelopmentDiffers` is a concrete
  registry that preflight refuses and the runtime compiles; `PreflightIffCompile` is
  the exact relation of the two, and `ProductionAgrees` shows that outside development
  mode they always agree. `PreflightPassesIff` and `ProductionPassesIff` say the same with
  the capability check that both make.
- **Revalidation.** Compiled manifests are kept by identity, so in development mode
  revalidation can refuse a registry in which nothing changed. `UnchangedRefused` is such a
  registry, and `RevalidationIff` the exact condition: every identity below the root belongs
  to one manifest.
- **Ledger.** Over any run the reserved cost is the sum of the open reservations exactly
  when no admitted start overwrote a reservation that held money (`BalancedIff`).
  `ReusedIdLeaks` is a run with a reused run id after which money stays reserved for ever.
- **Publication.** One failure-free run does not repair every state that failed runs
  leave. `RecoveryIff` gives the exact condition, that every asset left on the draft is
  whole; `UploadTruncates` is a run that leaves one that is not, and `TruncatedAssetBlocks`
  shows that every later run then refuses.
- **Trust and key store.** Files that are created in place can be left torn by a crash.
  A torn trusted key blocks its identifier (`TornKeyBlocks`). A torn store identity arises
  from one interrupted generation (`IdentityIsTorn`), stays, and blocks its key directory
  (`TornIdentityBlocks`). No operation of the program repairs either file.
- **Capability diff.** The diff loses exactly the providers of the new release that are
  listed without tools (`DiffLossless`); validated releases have none.

## Model

| member | source | states |
|---|---|---|
| WorkflowDag.ValidateDag | packages/aero/src/aero/infrastructure/parser.py:419-467 | The loop's answer equals the declarative verdict: acyclicity itself, with repeated dependencies, and the first failing check for every rejection |
| WorkflowDag.BuildTables | packages/aero/src/aero/infrastructure/parser.py:432-443 | The dependents invert the dependency lists with multiplicity and the in-degrees are their lengths, or the first unknown dependency is reported |
| WorkflowDag.RunQueue | packages/aero/src/aero/infrastructure/parser.py:445-454 | The queue loop ends and counts every step exactly when there is no cycle |
| WorkflowDag.LowerDependents | packages/aero/src/aero/infrastructure/parser.py:451-454 | Lowering one popped step's dependents keeps in-degrees equal to remaining dependencies and queues what reached zero |
| WorkflowDag.KahnEnd | packages/aero/src/aero/infrastructure/parser.py:445-460 | With an empty queue, the popped steps are all steps if and only if the graph is acyclic |
| WorkflowDag.VerdictIsAccepted | packages/aero/src/aero/infrastructure/parser.py:419-467 | Acceptance gives distinct ids, known acyclic dependencies, no reserved id and a known output |
| WorkflowDag.FirstUnknownIs | packages/aero/src/aero/infrastructure/parser.py:432-443 | The unknown dependency that is reported is the first one, with the step that has it |
| Templates.RenderFillsHoles | packages/aero/src/aero/services/workflow_runner.py:39-49 | The text parses into literals and holes and rendering fills the holes: inserted text is never scanned again, unknown names stay as written |
| Templates.MaximalUnique | packages/aero/src/aero/services/workflow_runner.py:39-49 | That parse is the only reading in which every placeholder is a hole |
| Templates.PlaceholderIff | packages/aero/src/aero/services/workflow_runner.py:39-49 | A hole is a brace, a nonempty name of letters, digits, underscores and hyphens, and a closing brace, and nothing else |
| Templates.NameCharIff | packages/aero/src/aero/services/workflow_runner.py:39-49 | The characters of a placeholder name, by their alphabets |
| WorkflowRun.AcceptedIsValid | packages/aero/src/aero/infrastructure/parser.py:419-467 | An accepted workflow has everything the runs rely on |
| WorkflowRun.StepLocality | packages/aero/src/aero/services/workflow_runner.py:175-229 | A step's outcome depends on the workflow input and the outputs of its declared dependencies only |
| WorkflowRun.PayloadIff | packages/aero/src/aero/services/workflow_runner.py:175-195 | An agent is given the workflow input, exactly the outputs recorded for the step's dependencies, and the step's text with the holes of its only maximal reading filled from both; there is no payload exactly when a dependency has no output |
| WorkflowRun.DenotesIff | packages/aero/src/aero/services/workflow_runner.py:175-279 | The meaning is the one map that gives every step what its agent returns on the payload written out over that map |
| WorkflowRun.MergeIsUnion | packages/aero/src/aero/services/workflow_runner.py:33-36 | The writes of one superstep merge to the same map in any order |
| WorkflowRun.MeaningUnique | packages/aero/src/aero/services/workflow_runner.py:175-279 | The steps' equations have at most one solution, the workflow's meaning |
| WorkflowRun.Confluence | packages/aero/src/aero/services/workflow_runner.py:261-279 | Any two finished runs, whatever the order in each superstep, end with the same outputs, which are the meaning |
| WorkflowRun.NoScheduleFails | packages/aero/src/aero/services/workflow_runner.py:261-279 | When one schedule succeeds none fails: a workflow with a meaning reaches no failed state, and whatever is recorded is part of the meaning |
| WorkflowRun.Progress | packages/aero/src/aero/services/workflow_runner.py:261-279 | In every reachable state without failure in which a step is unfinished, some step is triggered |
| WorkflowRun.ExactlyOnce | packages/aero/src/aero/services/workflow_runner.py:270-278 | No step starts twice, and in a finished run every step has started exactly once |
| WorkflowRun.GuardNeverFires | packages/aero/src/aero/services/workflow_runner.py:177-181 | A triggered step always has all its dependencies' outputs |
| WorkflowRun.SuperstepBound | packages/aero/src/aero/services/workflow_runner.py:318-321 | Every reachable run has taken at most as many supersteps as there are steps, so the limit is never hit |
| WorkflowRun.FailureContained | packages/aero/src/aero/services/workflow_runner.py:222-232 | When a step fails none of its transitive dependents has started, and the run is over |
| WorkflowRun.Deliver | packages/aero/src/aero/services/workflow_runner.py:270-276 | After a superstep exactly the barriers that have heard from all predecessors fire and rearm |
| WorkflowRun.RunTriggered | packages/aero/src/aero/services/workflow_runner.py:175-229 | Running the triggered steps one by one on a snapshot leaves the outputs so far and, for each of them, what its agent returned on its payload over the snapshot, or stops at one that failed |
| WorkflowRun.RunLoop | packages/aero/src/aero/services/workflow_runner.py:318-322 | The loop ends with an output for every step, each what its agent returns on its payload over those outputs, or with a step that reported failure on such a payload |
| WorkflowRun.Execute | packages/aero/src/aero/services/workflow_runner.py:298-333 | The answer is the named output of such a map, or the whole map when none is named; a failure is an agent's own, never the guard's and never the limit's |
| Manifests.PinProvidersRefs | packages/aero/src/aero/services/releases.py:180-197 | Pinning gives the references exactly the new pins, in order |
| Manifests.PinProvidersErase | packages/aero/src/aero/services/releases.py:180-197 | Pinning changes nothing but pins |
| Manifests.PinProvidersSame | packages/aero/src/aero/services/releases.py:195-197 | Pinning with the pins already there changes nothing |
| Manifests.PinningKeepsChecks | packages/aero/src/aero/services/releases.py:108-132 | A pinned copy passes the schema and production checks exactly when its source does |
| Manifests.ManifestMeans | schemas/declarative-agent.schema.json:28-356 | A valid manifest has a name fit for a file, up to 64 providers under different ids, well-named subagents with well-formed targets, and binds only credentials it declares |
| Manifests.ProductionMeans | packages/aero/src/aero/services/releases.py:108-132 | A production manifest has only local pinned images without network, explicitly named tools and no wildcard, and binds only declared credentials |
| Releases.ReleaseWalker.WalkAgent | packages/aero/src/aero/services/releases.py:262-272 | The walk over shared tables has the functional walk's verdict and visited set, and leaves the active set as it was |
| Releases.ReleaseWalker.CheckReferences | packages/aero/src/aero/services/releases.py:274-281 | The same for the loop over a manifest's references |
| Releases.WalkSound | packages/aero/src/aero/services/releases.py:262-281 | A successful walk visits exactly what is reachable, resolved and pinned, in an order that witnesses acyclicity |
| Releases.AcceptedIsSealed | packages/aero/src/aero/services/releases.py:260-290 | Acceptance implies closed, acyclic, fully reachable from the entry, every reference carrying its target's digest |
| Releases.SealedIsAccepted | packages/aero/src/aero/services/releases.py:260-290 | Every sealed graph whose paths stay within the depth limit is accepted, in any reference order |
| ReferenceOrder.EveryOrderValidIff | packages/aero/src/aero/services/releases.py:222-291 | A release that passes every check but perhaps the depth limit is valid in every order of its agents' references and workflow steps, each order with digests and pins of its own, if and only if no path from the entry is longer than the limit |
| ReferenceOrder.ConsistentIff | packages/aero/src/aero/services/releases.py:222-291 | Valid is consistent plus a walk that ends: digests, schemas, identities, pins and a sealed graph are all the rest |
| DepthLimit.LongPathAccepted | packages/aero/src/aero/services/releases.py:262-272 | Under any hash and any content the schema accepts, for every length up to 255 there is a valid release with a path of that length, so from 65 on beyond the depth limit |
| DepthLimit.OrderDecides | packages/aero/src/aero/services/releases.py:262-281 | Two releases of the same agents in different orders of references, of which one is valid and the other passes every check but the depth limit |
| Releases.CheckAgents | packages/aero/src/aero/services/releases.py:230-239 | Succeeds exactly when every embedded agent has a valid id, its digest, a valid manifest of that identity and production capabilities |
| Releases.CheckEntry | packages/aero/src/aero/services/releases.py:240-259 | Succeeds exactly when the entry exists and agrees in digest and identity |
| Releases.CheckWorkflow | packages/aero/src/aero/infrastructure/parser.py:385-416 | Succeeds exactly for workflows of 1 to 256 well-formed steps whose dependencies pass the cycle check |
| Releases.CheckGraph | packages/aero/src/aero/services/releases.py:260-290 | The walk's error, or exactly the set of unreachable agents |
| Releases.ValidateRelease | packages/aero/src/aero/services/releases.py:222-291 | Accepts exactly the valid releases, and a rejection names a check that does fail |
| ReleaseMeaning.ValidIff | packages/aero/src/aero/services/releases.py:222-291 | A valid release is in form: 1 to 256 agents, each under its own identity with its digest and fit for production; an entry that agrees; every reference pinned to an embedded agent; no chain of references from the entry meets an agent twice and every agent is on one. Below the depth limit every release in form is valid |
| ReleaseMeaning.WorkflowIff | packages/aero/src/aero/infrastructure/parser.py:385-467 | A workflow passes exactly when its 1 to 256 steps have valid distinct names other than the input's, known and distinct dependencies without a cycle, and the output is a step |
| Releases.LeafRelease | packages/aero/src/aero/services/releases.py:222-291 | Every agent without references that passes the agent checks makes a valid release |
| Merkle.EntryDeterminesRelease | packages/aero/src/aero/services/releases.py:230-291 | Two accepted releases with one entry are equal as a whole unless their manifests collide |
| Merkle.SameAlong | packages/aero/src/aero/services/releases.py:274-281 | Along any path from an agent with equal digests, both releases hold the same records |
| Merkle.SubRelease | packages/aero/src/aero/services/releases.py:283-290 | Every agent of one release is in the other, with the same record |
| ReleaseBuilder.Builder.VisitSource | packages/aero/src/aero/services/releases.py:149-178 | The recursion over shared tables computes the functional visit, errors included |
| ReleaseBuilder.Builder.PinReference | packages/aero/src/aero/services/releases.py:183-197 | One reference: resolution, recursion, source-pin check |
| ReleaseBuilder.Builder.PinReferences | packages/aero/src/aero/services/releases.py:180-197 | The loop gives each reference the digest of its locked child |
| ReleaseBuilder.VisitBuilds | packages/aero/src/aero/services/releases.py:149-197 | A finished visit locks every agent it reached with checks passed and pins resolved, keeps earlier records, and books exactly the sources read |
| ReleaseBuilder.VisitRetraced | packages/aero/src/aero/services/releases.py:149-197 | The validator's walk from the same agent succeeds and visits exactly what the builder locked |
| ReleaseBuilder.BuildIsValid | packages/aero/src/aero/services/releases.py:199-219 | Whatever the builder assembles passes every structural check of the validator |
| BuildSources.BuildIsGrounded | packages/aero/src/aero/services/releases.py:149-219 | Every agent is a file reached from the entry or the workflow along references, in order, with each reference pinned to the locked child; every file that one of its references finds is in order and has the one digest recorded for its identity, and so has every pin; a workflow is its source with its steps pinned |
| BuildSuccess.GoodInputsBuild | packages/aero/src/aero/services/releases.py:135-219 | A build succeeds when every reference from the root on finds a readable, valid file of its identity, siblings first, that a pin, if any, is the digest of; one identity has one digest; no chain of files repeats an identity; there are at most 256 identities and at most 64 references in a row |
| BuildSuccess.FailureMeans | packages/aero/src/aero/services/releases.py:135-219 | Every error of a build names something wrong with a file or a reference that is reached from the root, or too many or too long chains of them |
| BuildSuccess.BuiltInputsAreGood | packages/aero/src/aero/services/releases.py:135-219 | Conversely a successful build had all of this but the depth, when copies of a manifest find the same files |
| BuildSuccess.BuildsIff | packages/aero/src/aero/services/releases.py:135-219 | The two together, as an if and only if |
| BuildSuccess.SecondCopyUnread | packages/aero/src/aero/services/releases.py:168-176 | Without that condition the converse fails: for any four manifests that refer to each other in two ways, a directory in which the build succeeds although one copy refers to a file that is nowhere |
| ReleaseBuilder.BuildRelease | packages/aero/src/aero/services/releases.py:135-219 | The program returns exactly what was assembled, or its error: the final validation never rejects |
| Rebuild.RebuildIsFixpoint | packages/aero/src/aero/services/releases.py:180-217 | Building an accepted release again from its locked manifests side by side passes every source-pin check and returns that release |
| Rebuild.ApprovedReleaseRebuilds | packages/aero/src/aero/services/releases.py:374-449 | For an approved agent release that loads, building from the stored snapshot of its entry gives back exactly the release that loads |
| Rebuild.VisitAgain | packages/aero/src/aero/services/releases.py:149-178 | Re-reading a locked manifest gives the same record and the same tables the validator's walk describes |
| DelegationRuntime.PreflightWalk.VisitManifest | packages/aero/src/aero/services/preflight.py:83-112 | The walk over `active` and `closure` computes the functional visit |
| DelegationRuntime.PreflightWalk.Run | packages/aero/src/aero/services/preflight.py:80-137 | Passes exactly when the walk does and every manifest of the closure may use its tools and credentials |
| DelegationRuntime.Driver.CompileManifest | packages/aero/src/aero/services/deepagents_runner.py:811-897 | The recursion records exactly the manifests of the functional compilation, or gives its error: cycle, missing approval, or a reference's |
| DelegationRuntime.Driver.CompileSubagents | packages/aero/src/aero/services/deepagents_runner.py:878-896 | The same for the loop over subagents |
| Delegation.VisitAgrees | packages/aero/src/aero/services/preflight.py:83-112 | From any finished closure the memoised walk and the ancestry walk give one verdict, and the closure grows by what is compiled |
| Delegation.PreflightAgrees | packages/aero/src/aero/services/preflight.py:80-116 | Preflight accepts a root exactly when compiling it with preflight's checks succeeds, over the same closure |
| Delegation.PreflightIffCompile | packages/aero/src/aero/services/deepagents_runner.py:781-822 | Preflight accepts exactly when the runtime compiles and every delegation chain meets only files of the referenced identity |
| Delegation.ProductionAgrees | packages/aero/src/aero/services/deepagents_runner.py:794-804 | Outside development mode the two accept exactly the same agents |
| DelegationRuntime.CheckedIff | packages/aero/src/aero/services/deepagents_runner.py:811-920 | Compilation with the capability check succeeds exactly when the walk does and everything the root delegates to is admitted, and then records the same manifests |
| DelegationRuntime.ClosureIsReach | packages/aero/src/aero/services/preflight.py:80-116 | Preflight's closure is exactly the manifests the root delegates to, however indirectly |
| DelegationRuntime.PreflightPassesIff | packages/aero/src/aero/services/preflight.py:80-137 | With the capability checks of both, preflight passes exactly when compilation succeeds and every reference resolves to a file of the referenced identity |
| DelegationRuntime.ProductionPassesIff | packages/aero/src/aero/services/preflight.py:80-137 | With those checks, in production the two accept exactly the same agents |
| DelegationMeaning.CheckedMeans | packages/aero/src/aero/services/deepagents_runner.py:784-920 | An agent compiles exactly when no chain of delegations meets an identity twice and every subagent below it names an existing valid file whose digest is the pin, if any; outside development mode it is pinned, signed and of that identity, and tools and credentials need an approved release |
| DelegationMeaning.DelegatesIff | packages/aero/src/aero/services/preflight.py:91-97 | Delegations are the subagent entries, by the files they name |
| DelegationMeaning.PreflightMeans | packages/aero/src/aero/services/preflight.py:80-137 | Preflight passes exactly under the same conditions and when every file found has the identity it was found under |
| DelegationMeaning.RefusalMeans | packages/aero/src/aero/services/deepagents_runner.py:784-920 | Every error of compilation and of the preflight walk says something true of an agent that the root leads to, or of a subagent entry there |
| Delegation.DevelopmentDiffers | packages/aero/src/aero/services/preflight.py:101-102 | Under any checks, a file of another identity than the reference gives a development registry that preflight refuses and the runtime compiles |
| Delegation.ReleaseCompiles | packages/aero/src/aero/services/deepagents_runner.py:784-822 | On an accepted release no agent's compilation meets a cycle, an absent agent or a wrong pin |
| DelegationRuntime.ApprovedReleaseCompiles | packages/aero/src/aero/services/deepagents_runner.py:784-920 | On an accepted release no agent's compilation meets a cycle, an absent agent, a wrong pin or a missing approval |
| Delegation.RevalidationDetectsChange | packages/aero/src/aero/services/deepagents_runner.py:954-971 | When revalidation passes, every manifest the root now delegates to, however indirectly, is the compiled one |
| Delegation.RevalidationIff | packages/aero/src/aero/services/deepagents_runner.py:954-971 | With the registry as compiled, revalidation passes if and only if no two delegation chains from the root end in different manifests of one identity |
| Delegation.UnchangedRefused | packages/aero/src/aero/services/deepagents_runner.py:823-965 | Under any checks, two files of one identity and different content give a development registry that compiles and that revalidation refuses although nothing changed |
| Delegation.RevalidationAcceptsUnchanged | packages/aero/src/aero/services/deepagents_runner.py:954-971 | It passes in either mode when references resolve to files of the referenced identity, and always outside development mode |
| Ledger.TokenUsageCounter.OnChatModelStart | packages/aero/src/aero/services/deepagents_runner.py:155-201 | The refusal, or the new ledger, of a start event |
| Ledger.TokenUsageCounter.OnLlmEnd | packages/aero/src/aero/services/deepagents_runner.py:203-232 | The whole new ledger after an end event, with or without usage |
| Ledger.TokenUsageCounter.OnLlmError | packages/aero/src/aero/services/deepagents_runner.py:234-243 | The whole new ledger after an error event |
| Ledger.BooksBalance | packages/aero/src/aero/services/deepagents_runner.py:199-217 | One event keeps reserved cost equal to the open reservations if and only if it does not overwrite one that holds money |
| Ledger.ReservedIsOpen | packages/aero/src/aero/services/deepagents_runner.py:155-243 | With fresh run ids the equality holds after every interleaving |
| Ledger.BalancedIff | packages/aero/src/aero/services/deepagents_runner.py:155-243 | After any run reserved cost equals the open reservations if and only if no admitted start overwrote a reservation that holds money |
| Ledger.ReusedIdLeaks | packages/aero/src/aero/services/deepagents_runner.py:199-201 | For any configuration that admits two starts of one id and prices the first, a run ends with nothing open and exactly the first cost reserved |
| Ledger.AnyRequestsLeak | packages/aero/src/aero/services/deepagents_runner.py:182-201 | Without a cost limit, with two calls allowed and a price on input, every two requests are such |
| Ledger.CallsBounded | packages/aero/src/aero/services/deepagents_runner.py:186-199 | The number of starts that a run has admitted never exceeds the maximum |
| Ledger.CallsCounted | packages/aero/src/aero/services/deepagents_runner.py:186-199 | The counter is the number of admitted starts, told from the events and their verdicts |
| Ledger.AdmittedIff | packages/aero/src/aero/services/deepagents_runner.py:155-198 | A start is admitted exactly when fewer calls than the maximum were, and under a limit some declared cap is within the output limit, both prices are set and its own price fits what is left |
| Ledger.LimitsMean | packages/aero/src/aero/services/deepagents_runner.py:27-28 | The limits on calls and on output tokens are the configured ones, or else 40 and 4096 |
| Ledger.RefusalMeans | packages/aero/src/aero/services/deepagents_runner.py:164-198 | A refusal names a limit that the start does break |
| Ledger.NoMoreCalls | packages/aero/src/aero/services/deepagents_runner.py:186-191 | Once the maximum is reached every later start is refused and changes nothing |
| Ledger.StartReserves | packages/aero/src/aero/services/deepagents_runner.py:176-201 | An admitted start reserves its own price, its estimated input and the output limit |
| Ledger.CostMeans | packages/aero/src/aero/services/deepagents_runner.py:182-185 | A million tokens cost the set price, and costs add up |
| Ledger.TokensCounted | packages/aero/src/aero/services/deepagents_runner.py:203-243 | Token counters are the sums of what was reported, estimates the sums of the report or else the reservation, and usage is missing exactly when some call ended without it |
| Ledger.BudgetBound | packages/aero/src/aero/services/deepagents_runner.py:155-243 | Used plus reserved cost exceeds the limit by at most what calls cost beyond their own reservations, in every interleaving, reused ids included |
| Ledger.AdmittedCallFits | packages/aero/src/aero/services/deepagents_runner.py:155-198 | Under a limit, an admitted call that obeys its declared output caps and its input estimate costs at most its reservation and fits the budget |
| Ledger.NeverOverBudget | packages/aero/src/aero/services/deepagents_runner.py:155-243 | No interleaving of calls that keep to their reserved tokens goes over the limit |
| Ledger.SettledRun | packages/aero/src/aero/services/deepagents_runner.py:203-243 | Used cost is exactly what ended calls were charged, and a settled run holds no reservation |
| JsonPointer.ResolvePointer | packages/aero/src/aero/infrastructure/parser.py:103-138 | The loop resolves exactly as the function, returning the path and the value there |
| JsonPointer.PointerRoundTrip | packages/aero/src/aero/infrastructure/parser.py:103-140 | The reference of every path to a schema resolves to that path, whichever characters are percent-encoded |
| JsonPointer.AcceptedReference | packages/aero/src/aero/infrastructure/parser.py:103-140 | An accepted reference decodes to the pointer text of a path that holds a schema |
| JsonPointer.PointerTextUnique | packages/aero/src/aero/infrastructure/parser.py:118-134 | Two paths of one document with one pointer text are the same path |
| JsonPointer.UnescapeEscape | packages/aero/src/aero/infrastructure/parser.py:119-123 | Unescaping undoes escaping, for every name |
| JsonPointer.EscapeUnescape | packages/aero/src/aero/infrastructure/parser.py:119-123 | Every well-formed component is the escape of what it decodes to |
| JsonPointer.PassOrderMatters | packages/aero/src/aero/infrastructure/parser.py:123 | With the two replacements in the other order a name is decoded wrongly |
| PointerMeaning.ResolveIff | packages/aero/src/aero/infrastructure/parser.py:103-140 | A reference is accepted for a place exactly when it is local, its percent signs are escapes, a schema is there and its bytes are the UTF-8 encoding of that place's pointer |
| PointerMeaning.UnquoteFromIff | packages/aero/src/aero/infrastructure/parser.py:117 | Unquoting run by run gives a text exactly when the bytes denoted, all together, are its encoding |
| PointerMeaning.HexIff | packages/aero/src/aero/infrastructure/parser.py:111-117 | The hexadecimal digits of an escape and their values, in capital and small letters |
| Contracts.Worklist | packages/aero/src/aero/infrastructure/parser.py:147-200 | Succeeds exactly when everything in the closure of the root is well formed and the closure is small enough; then the visited set is that closure and the edges are its references |
| Contracts.FollowChain | packages/aero/src/aero/infrastructure/parser.py:206-214 | From every node of an accepted chain following references ends, a refused chain exhibits a reference loop; the nodes passed follow the references, none twice and none completed before |
| Contracts.CheckChains | packages/aero/src/aero/infrastructure/parser.py:204-215 | Accepts exactly when references alone never loop; over all chains together the nodes passed follow the references, a chain stops only where it leaves them or meets a node passed before, no node is passed twice, and acceptance has passed every one |
| ContractMeaning.ChildrenIff | packages/aero/src/aero/infrastructure/parser.py:180-200 | The values visited below an object are exactly those at the places that hold schemas, keyword by keyword |
| ContractMeaning.SameNodeIff | packages/aero/src/aero/infrastructure/parser.py:148-156 | Values count once each, except that all occurrences of one boolean are the same |
| ContractMeaning.VisitedIsLeast | packages/aero/src/aero/infrastructure/parser.py:147-200 | The visited nodes are the smallest set with the root, the schemas below each object and the target of each reference |
| ContractMeaning.AcceptedIff | packages/aero/src/aero/infrastructure/parser.py:143-217 | A document is accepted exactly when it is a schema and such a set exists, of at most 10000 nodes, without unsupported keywords, other drafts, references in error, or a loop of references alone |
| ContractMeaning.ValidateContract | packages/aero/src/aero/infrastructure/parser.py:143-217 | The program's verdict is that one, and an error names a fault of an object, a loop or a size that the document, followed from its root, does have |
| Policy.RequestedCapabilities | packages/aero/src/aero/services/policy.py:75-110 | The nested loops collect exactly the declared images, credentials, tools, bindings, domains and endpoints of all providers |
| Policy.CheckPolicy | packages/aero/src/aero/services/policy.py:113-154 | Accepts exactly when every request is granted, returns the inventory, and reports exactly the missing credentials |
| Policy.RequestedMeans | packages/aero/src/aero/services/policy.py:75-110 | What the inventory lists, provider by provider, in both directions |
| Policy.GrantedMeans | packages/aero/src/aero/services/policy.py:113-154 | A release is granted exactly when every provider in it is: no network, allowed credentials only, and the granted image, tools and bindings |
| Policy.PolicyMonotone | packages/aero/src/aero/services/policy.py:113-154 | A policy that grants at least as much accepts whatever the narrower one accepts |
| Policy.GrantableIff | packages/aero/src/aero/services/policy.py:16-154 | Some policy that follows the schema accepts a release exactly when it wants no network, its providers of one id agree on image and bindings, and the schema can name everything requested |
| Policy.DiffLossless | packages/aero/src/aero/services/releases.py:300-312 | Taking away `removed` and adding `added` gives the new inventory exactly, if and only if it lists no provider without tools |
| Policy.DifferenceMeans | packages/aero/src/aero/services/releases.py:300-312 | A difference lists exactly what is on the left and not on the right |
| Policy.ReleaseDiffLossless | packages/aero/src/aero/services/releases.py:294-327 | For validated releases the diff is lossless |
| Policy.UnchangedEntryUnchangedRelease | packages/aero/src/aero/services/releases.py:314-318 | When the diff reports the entry unchanged, nothing is added, removed or changed |
| Policy.UnchangedAgentUnchangedClosure | packages/aero/src/aero/services/releases.py:319-326 | An agent not listed as changed is the same together with everything it can reach |
| Approval.ReleaseStore.TrustKey | packages/aero/src/aero/services/trust.py:134-162 | Binds once, never rebinds, refuses revoked keys, and can leave a torn file when it is killed |
| Approval.ReleaseStore.RevokeKey | packages/aero/src/aero/services/trust.py:173-180 | Adds exactly the bound key to the revoked ones |
| Approval.TrustMeans | packages/aero/src/aero/services/trust.py:183-226 | Data is authorized exactly when its identifier is valid, a key is bound to it and not revoked, and the signature is that key's |
| Approval.ReleaseStore.Approve | packages/aero/src/aero/services/releases.py:360-401 | Writes nothing unless the checks pass, otherwise exactly a prefix of its writes, the record last; succeeds exactly when all are written and the release then loads |
| Approval.ReleaseStore.LoadApproved | packages/aero/src/aero/services/releases.py:404-449 | The checks of a load in their order |
| Approval.ApprovalLoads | packages/aero/src/aero/services/releases.py:360-401 | An undisturbed approval ends with a release that loads as the approved release and policy, exactly when the signature read the second time is the signer's too |
| Approval.ReapprovalKeepsLoadable | packages/aero/src/aero/services/releases.py:374-397 | Approving a release again leaves it loadable wherever the new approval stops |
| ApprovalRuns.LoadMeans | packages/aero/src/aero/services/releases.py:404-449 | A load succeeds exactly when signer, release, digest, record, policy, grants and every snapshot pass now |
| ApprovalRuns.LoadIff | packages/aero/src/aero/services/releases.py:404-449 | A load returns a release and a policy exactly when the files kept for the digest are in order: digest, signature under a bound and unrevoked key, record, policy digest, grant, and the digest of every snapshot and of the workflow |
| ApprovalRuns.LoadRefusalMeans | packages/aero/src/aero/services/releases.py:404-449 | Every error of a load says what is wrong with the key, the record, the policy or the files |
| ApprovalRuns.LoadMatchesApproval | packages/aero/src/aero/services/releases.py:360-449 | In every interleaving a successful load goes back to one approval that vetted, cleared and committed, in that order; digests and policy path agree and all checks hold now |
| ApprovalRuns.LoadIsApproved | packages/aero/src/aero/services/releases.py:404-449 | Without collisions the loaded release and policy are the approved ones |
| ApprovalRuns.TrustGrows | packages/aero/src/aero/services/trust.py:149-160 | In every run bindings are never replaced or dropped and revocations never withdrawn |
| ApprovalRuns.RevokedForever | packages/aero/src/aero/services/trust.py:173-216 | After a revocation no release of any identifier bound to that key loads, whether it was bound before or after, and whatever else happens |
| LoadRuns.UndisturbedIsLoad | packages/aero/src/aero/services/releases.py:404-449 | The step-by-step load, undisturbed, is the load method |
| LoadRuns.InterleavedLoadMatches | packages/aero/src/aero/services/releases.py:404-449 | However its reads interleave with approvals, edits and revocations, a successful load goes back to an approval committed before it read the record, with the digests of what it returns |
| LoadRuns.RevokedBeforeLoad | packages/aero/src/aero/services/trust.py:203-216 | The identifier that such a load returns stays bound to a key that was not revoked when the load began |
| LoadRuns.InterleavedRevocation | packages/aero/src/aero/services/trust.py:173-216 | No key revoked before the load began is one that the returned identifier is bound to, then or later |
| ApprovalRuns.TornKeyBlocks | packages/aero/src/aero/services/trust.py:149-160 | A torn key file keeps its identifier from loading in every later run |
| ApprovalRuns.ApproveIsAHistory | packages/aero/src/aero/services/releases.py:360-397 | The approval method, stopped anywhere, is one of the interleaved histories and leaves the same folder |
| ApprovalRuns.ApprovedHistoryLoads | packages/aero/src/aero/services/releases.py:360-449 | From every reachable state an undisturbed approval leads to a state where the release loads with the policy just approved |
| Publication.ReadTag | scripts/publish_release.py:130-143 | The loop inspects at most five objects on the way from the tag to its commit, and reports malformed and unresolved tags |
| Publication.TagDenotes | scripts/publish_release.py:130-143 | A tag denotes a commit exactly when at most four annotated tags lead to it, all with well-formed ids |
| Publication.ShaMeans | scripts/publish_release.py:136 | Commit ids are 40 hexadecimal digits in small letters |
| Publication.CompareAssets | scripts/publish_release.py:163-176 | The loop's verdict, first differing asset included |
| Publication.VerifyMeans | scripts/publish_release.py:163-176 | Verification passes exactly when asset names are distinct, every asset has the validated digest and, when asked, none is missing |
| Publication.GitHub.Publish | scripts/publish_release.py:179-231 | The script's effect on the remote and its outcome, for every combination of failures |
| Publication.RunIsSafe | scripts/publish_release.py:187-231 | Whatever fails, assets and tags are only added, a published release stays as it is, and only the exact validated files at the tested commit become public |
| Publication.OnlyValidatedIsPublic | scripts/publish_release.py:187-231 | Over any history of runs, of any commits and builds, what is public is exactly what one run validated and stays so from that run on |
| Publication.AssetsNeverReplaced | scripts/publish_release.py:217-219 | Over any history every asset stays in place with its bytes |
| Publication.PublishedIsFinal | scripts/publish_release.py:201-206 | Reruns after publication change nothing |
| Publication.CompletesIff | scripts/publish_release.py:187-231 | A run without failures ends published exactly from a resumable state, and then exactly |
| Publication.WeatherDecides | scripts/publish_release.py:187-231 | From a resumable state what a run leaves and reports is decided by what fails alone; it reports success exactly when every command it needed was answered |
| Publication.PublishedDecides | scripts/publish_release.py:201-206 | A run after publication looks and says so, unless it stops before |
| Publication.RefusalMeans | scripts/publish_release.py:130-231 | A refusal says what is wrong with the remote and leaves it as it is |
| Publication.UnresumableUntouched | scripts/publish_release.py:187-227 | A remote that a run without failures could not complete is left exactly as it is by every run, whatever fails in it |
| Publication.RecoveryIff | scripts/publish_release.py:187-231 | After any failed runs of a job, a run without failures ends exactly published if and only if every asset left on the draft is whole |
| Publication.UploadTruncates | scripts/publish_release.py:216-219 | For every job with a first file that does not hash like an empty one, a first run whose upload is cut leaves a draft with a truncated asset |
| Publication.WholeUploadsRecover | scripts/publish_release.py:216-220 | When no cut upload left a truncated asset, none is on the draft, so recovery succeeds |
| Publication.TruncatedAssetBlocks | scripts/publish_release.py:171-175 | A truncated asset on the draft stops every later run of the job without effect |
| Publication.ExactBytes | scripts/publish_release.py:163-176 | Under a hash without collisions the public assets are the validated files, name for name and byte for byte |
| Sessions.SessionRegistry.RecordSession | packages/aero/src/aero/services/session.py:88-127 | Updates the given fields of one session and keeps the rest |
| Sessions.SessionRegistry.Snapshot | packages/aero/src/aero/services/session.py:66-74 | Inserts a snapshot under its digest unless there is one |
| Sessions.SessionRegistry.GetSnapshot | packages/aero/src/aero/services/session.py:76-86 | Returns a snapshot only if it has the digest asked for |
| Sessions.SessionRegistry.WriteReceipt | packages/aero/src/aero/services/session.py:146-151 | Inserts a receipt, and fails on an id already used |
| Sessions.StoredIsRead | packages/aero/src/aero/services/session.py:66-86 | A stored manifest is what is read back under its digest, what was stored before is kept, and a changed snapshot is not returned |
| Sessions.SessionRegistry.ExecuteLocked | packages/aero/src/aero/services/runner.py:167-273 | The registry and the caller's result for every outcome of the block, the cleanup and the transactions |
| Sessions.ExecutionEndsWithReceipt | packages/aero/src/aero/services/runner.py:195-273 | On every success, error and cleanup-failure path there is exactly one new receipt with the session's status, completed exactly when nothing raised, and the caller sees the first error, whose code the receipt carries |
| Sessions.ExecutionTouchesOne | packages/aero/src/aero/services/runner.py:186-261 | Only a failing transaction leaves no receipt; other sessions and earlier receipts are untouched |
| SessionRuns.OneHolder | packages/aero/src/aero/services/session.py:27-39 | In every interleaving at most one process executes a session, and it has the lock |
| SessionRuns.PinsNeverChange | packages/aero/src/aero/services/runner.py:108-123 | A session's digest, mode, release and path never change after creation |
| SessionRuns.ReceiptsMatchSessions | packages/aero/src/aero/services/runner.py:249-261 | Every receipt carries its session's mode; those of agent sessions also its digest and release, and a workflow run's own receipt its digest, in every interleaving with workflow runs that share the store |
| SessionRuns.ExecutesPinnedContent | packages/aero/src/aero/services/runner.py:275-328 | What is executed has the session's digest, also after resumes and tampering with the stored snapshot |
| SessionRuns.OnlyResumableIsShared | packages/aero/src/aero/services/runner.py:285-313 | In no run do two processes execute a session that is not resumable |
| SessionProgress.ResumedAsCreated | packages/aero/src/aero/services/runner.py:275-328 | In every run a resume has the mode of the session, a source with its digest, and a session created to be resumable |
| SessionProgress.NewSessionGetsLock | packages/aero/src/aero/services/runner.py:96-165 | From every reachable state a new session is recorded, its manifest stored and its lock taken in three steps |
| SessionProgress.ResumeGetsLock | packages/aero/src/aero/services/runner.py:275-328 | From every reachable state in which a session may be resumed and its snapshot is intact, three steps take it to the lock with the snapshot as its manifest |
| SessionProgress.TamperedIsNotRead | packages/aero/src/aero/services/session.py:76-86 | A snapshot replaced by content of another digest is not read |
| SessionProgress.WorkflowRunReports | packages/aero/src/aero/services/workflow_runner.py:280-333 | A workflow run on the same store opens a session, adds its step receipts, and ends with its own receipt with the digest of the workflow and the outcome |
| SessionRuns.OthersDoNotInterfere | packages/aero/src/aero/services/runner.py:138-165 | No step of another process moves a process, takes its lock or touches its session or receipt |
| SessionRuns.HolderAdvances | packages/aero/src/aero/services/runner.py:167-261 | A lock holder's next step is always possible, in particular its receipt is never refused |
| SessionRuns.HolderFinishes | packages/aero/src/aero/services/runner.py:167-261 | Its own steps alone bring a lock holder to its end |
| SessionRuns.EndedHasOneReceipt | packages/aero/src/aero/services/runner.py:230-261 | An execution that ended has exactly one receipt, which tells how it ended |
| SessionRuns.ReceiptMatchesStatus | packages/aero/src/aero/services/runner.py:239-261 | When the lock is given up the session records the receipt's status, error code and execution |
| SessionRuns.ReceiptsStay | packages/aero/src/aero/services/session.py:146-151 | No receipt is ever altered or withdrawn |
| SessionRuns.StepsAreExecution | packages/aero/src/aero/services/runner.py:167-261 | The interleaved steps of one process, taken together, are the execution method |
| KeyStore.KeyDirectory.EncryptionKeyId | packages/aero/src/aero/infrastructure/keystore.py:20-45 | Reads or creates the identity, refusing when keys exist without one |
| KeyStore.KeyDirectory.OpenFernet | packages/aero/src/aero/infrastructure/keystore.py:68-96 | Reads the slot, or fills it only when no key exists, for every keyring failure |
| KeyStore.KeyDirectory.GenerateAndStore | packages/aero/src/aero/infrastructure/keystore.py:99-126 | The directory and keyring after a generation, for every failure |
| KeyStore.KeyDirectory.StoreFiles | packages/aero/src/aero/infrastructure/keystore.py:113-125 | Both files or, unless the process is killed, neither |
| KeyStore.KeyDirectory.LoadPrivateKey | packages/aero/src/aero/infrastructure/keystore.py:129-132 | The private key, or why not |
| KeyStore.NothingReplaced | packages/aero/src/aero/infrastructure/keystore.py:99-132 | From any state no operation changes an existing key file, identity or keyring slot; at most the slot the identity names is new |
| KeyStore.KeysFreezeTheSlot | packages/aero/src/aero/infrastructure/keystore.py:33-38 | From any state, while a private key exists the identity and the keyring do not change |
| KeyStore.LoadChangesNothing | packages/aero/src/aero/infrastructure/keystore.py:129-132 | Loading is read-only although it shares the code that creates identities and secrets |
| KeyStore.FailedGenerationLeavesNoFiles | packages/aero/src/aero/infrastructure/keystore.py:113-125 | A generation that fails without being killed leaves the key files as they were |
| KeyStore.KeysStayBacked | packages/aero/src/aero/infrastructure/keystore.py:68-132 | In every run over any number of directories on one keyring every stored key stays decryptable under its directory's slot and no slot is written twice |
| KeyStore.FilesNeverReplaced | packages/aero/src/aero/infrastructure/keystore.py:105-119 | In every run a name's files never change |
| KeyStore.GenerateIff | packages/aero/src/aero/infrastructure/keystore.py:99-126 | An undisturbed generation succeeds exactly when the name is free and identity and slot are intact or not yet needed |
| KeyStore.GenerateOutcome | packages/aero/src/aero/infrastructure/keystore.py:20-126 | The same under any conditions: it succeeds exactly when in addition the lock, the identity file, the keyring and the files work, and then adds exactly the key pair and what was missing |
| KeyStore.GenerateLeaves | packages/aero/src/aero/infrastructure/keystore.py:20-126 | What a generation leaves under any conditions: identity, slot, and the files a killed process had written so far |
| KeyStore.GenerateRefusalMeans | packages/aero/src/aero/infrastructure/keystore.py:20-126 | When each error of a generation is given |
| KeyStore.LoadIff | packages/aero/src/aero/infrastructure/keystore.py:68-132 | A key loads exactly when lock and keyring are had and the named slot holds the secret its file is sealed with |
| KeyStore.BlockedOnlyByTornIdentity | packages/aero/src/aero/infrastructure/keystore.py:24-44 | In reachable states only a used name or an identity torn before any key existed stands in the way of a generation |
| KeyStore.IdentityIsTorn | packages/aero/src/aero/infrastructure/keystore.py:39-44 | A first generation that stops while it writes the identity leaves it torn |
| KeyStore.TornIdentityStays | packages/aero/src/aero/infrastructure/keystore.py:24-31 | A torn identity stays torn in every later run over any directories |
| KeyStore.TornIdentityBlocks | packages/aero/src/aero/infrastructure/keystore.py:24-31 | From then on no generation and no load of that directory succeeds, under any conditions |
| KeyStore.GeneratedLoads | packages/aero/src/aero/infrastructure/keystore.py:99-132 | After any further operations a load that gets the lock and reads the keyring returns the generated key |

## Left out

- Cryptography and serialisation: Ed25519, SHA-256, Fernet, canonical JSON and the JSON reader; hashes and signature checks are parameters.
- Schema validation: the Draft 7 validator is not modelled. The rules on identifiers, on the number of providers and steps and on references are written out, and so are the production rules for tools; the schema of a single tool or credential and the rest of a manifest's content are predicates, and the form of a digest in a source pin is not looked at.
- Size limits: the 2 MiB limits on manifests and releases, which can still reject what the structural checks accept.
- LangGraph, Deep Agents, MCP sessions, asyncio and SQLite: the barrier rule, atomic transactions and the lock are modelled, their implementations are not.
- Rebuild.RebuildIsFixpoint: asks for all locked manifests in one directory; an approval writes the workflow one level above the agents, so for workflow entries this is not the layout of an approved release, and `ApprovedReleaseRebuilds` is about agent entries.
- Merkle.EntryDeterminesRelease: assumes that the manifests of the two releases do not collide, which is less than an injective hash.
- ApprovalRuns.LoadIsApproved: assumes injective release and policy digests; LoadMatchesApproval states what holds without.
- JsonPointer.ResolvePointer: the meta-schema check of the target at the end of the resolution is made in `Contracts.ResolveTarget`.
- WorkflowRun.Confluence: an agent's outcome is a function of the step and its payload; two runs of a nondeterministic model differ.
- WorkflowRun: the session records and receipts of a workflow, which are steps of `SessionRuns` instead, the re-check of agent digests before each step, and the concurrency limit of four.
- Delegation: tools, models and credentials of a compilation, and preflight over several roots at once. The supported-manifest check adds nothing for manifests that the schema accepts, which are the ones modelled.
- Ledger: rounding of floating-point amounts (exact reals), the report, the counters of child agents, and how usage of several generations of one response is added up.
- ContractMeaning: objects list no key twice, as the dictionaries of the program cannot.
- Contracts: the order in which a dictionary lists its keys decides which of several errors is reported; acceptance does not depend on it.
- JsonPointer: lone surrogates, which a JSON reader can produce and a Dafny character cannot.
- Policy: credential bindings are triples, where the program joins the parts into one string.
- Approval: symbolic-link checks, absolute policy paths and loading by file path; deliberate removal of a trusted key by the operator, which the program leaves to the file system.
- Approval.ReleaseStore.Approve: writes from a list computed beforehand, in the program's order; the trust store and the release store are one object.
- Publication: GitHub itself is assumed to keep asset names of one release distinct, never to overwrite an asset without being told to, and to create a missing tag at the target when a draft is published; the content of SHA256SUMS, which is one of the job's files; the checks of the push event, versions, distribution metadata and notes extraction; releases of other tags; two runs at once, which the workflow's concurrency group excludes.
- Sessions: timestamps, receipt fields other than identity, digest, mode, release, status and error code, and the vault.
- SessionRuns: fresh session and execution ids are assumed, as `uuid4` provides them.
- KeyStore: key-name confinement, file permissions, two processes racing without the lock, and a directory copied to another home.
- Sandboxing, the egress proxy, Docker, the command line, the terminal interface, the SDK wrapper, path and platform resolution, ranking and synthesis: no property of the kind proved here.
