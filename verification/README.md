# Verified model of the µhost

This project models the host of the repository — the port router, the genesis kernel it carries, capability
tokens, the compile ceremony — and the algorithms around it that are hard to get right: two cycle detectors and
a memoised depth, the printers whose bytes are signed, a streaming call and a line framer. Every member below is
proved for all inputs, all runs or all reachable states. Classes update their fields in place as the source
does; each method is proved equal to a function of the old state, and the laws are lemmas about those functions.

Check everything with `dafny verify dfyconfig.toml`.

## How the model is built

- **Router.** `RouterState` gives one function per event (deliver, return, chunk, timer, crash or terminate,
  registration, clock). JavaScript runs each to completion, so each is one atomic step. `PortRouter` performs the
  same steps in place. `RouterInvariant` and `RouterEvents` hold the invariant; `RouterSlots` and `RouterOutcomes` say
  what each event does to every call, queue and table, in terms of clock, arrival and deadline alone; `RouterRuns`,
  `RouterHistory`, `RouterDeadlines` and `RouterStalls` are about whole runs. The clock is read once per step and is
  monotone.
- **Dispatch.** `Dispatch` is the interleaving of the uninterrupted pieces of `dispatch` and `spawnDormant`,
  with racing first touches, failing spawns and crashing targets; `DispatchOutcomes` says exactly when a call waits, is
  delivered or refused; `Dispatcher` performs the pieces in place.
  `GatedRouter` runs dispatch over the delivery core: the gate's question is a delivered call, its answer that
  call's result, and every other delivery of the router is the call some dispatch hands over.
- **Kernel.** `CapabilityGraph`, `AuditLog`, `ToolRegistry` and `Kernel` carry the graph, the linked log and the
  generations, `KernelContents` what each registration puts into them; `Routing`, `Resolution` and `BootedResolution`
  relate graph-based resolution to the plain op map, and `ResolvedTargets` gives the target of every call.
- **JSON.** Texts are sequences of UTF-16 code units. One lexer and parser (RFC 8259) is proved to read back what
  each printer writes: canonical JSON, the house format, two-space `JSON.stringify` and compact `JSON.stringify`.
  `CanonicalShape` and `JsonShape` say where each printer puts spaces and line breaks.
- **Cryptography.** Hash and signature are parameters of `Signing.Scheme`; a lemma that needs a property of them
  (a key pair that matches, signatures that exist verifying only over what was signed, injectivity) requires it by
  name, and `Signing.AssumptionsAreConsistent` gives one scheme that has all of them.
- **Ceremony.** `Manifest` and `Recipe` hold the compile ceremony and the checks on what it writes, `RecipeContents`
  what its files say; `RecipeReader` is the reader of its recipe, `RecipeAcceptance` says which recipes that reader and
  the signature check accept.

What the callers must provide, because the code relies on it: causation ids are fresh when a call is delivered, and a
return or chunk comes from the compartment serving the id. Distinct ids per dispatch give the first, although a risky
call and the question about it share one (`GatedRouter.DeliveriesAreFresh`); the second is shown to be exactly what is
needed (`RouterDeadlines.ReturnKeepsInvariantIff`).

## What the code does not do

Statements one might expect and that are false of the code, each with the condition under which it holds:

- The cycle detector protects the depth guard for plans with given step ids exactly when the ids are distinct
  (`PlanDepth.DetectorGuardsIffDistinct`): of two steps with one id the detector keeps the last, the guard the first.
- The layer check reports a cycle for a dependency that is merely listed twice (`LayerDag.RepeatedDependencyIsReported`);
  without such a list it agrees with the plan detector (`LayerDag.DetectorsAgree`).
- Deadlines bound the wait at a compartment exactly when its cap is at least one (`RouterStalls.DeadlinesHoldIffCap`):
  with a smaller cap a queued call never leaves its queue, deadline or not, until its target fails
  (`RouterStalls.CapBelowOneStalls`).
- Only deny, require-consent, an error result and a null or missing value stop at the law gate. Every other good law
  result, an unknown decision or a value that is no decision object at all, lets the call pass
  (`Dispatch.GateMeansAllowIff`).
- With a buffer bound below one the stream consumer sleeps on a queued chunk (`Stream.WakesIffBufferHoldsOne`): the
  overflow error skips the wake-up.
- A sleeping stream consumer can still be woken exactly when its call was not rejected
  (`Stream.AsleepForEverIffRejected`). A law answer of null rejects a call; then neither a chunk nor an end ever comes
  (`Stream.RejectedNeverEnds`).
- The graph agrees with the op map exactly when entries that share an id are granted no op
  (`Resolution.RefinesIffSharedIdsIdle`); the host does not check this.
- Whatever a booted host resolves was granted to its target exactly when each granted op without an `@` after its first
  character comes with version 1 of its name (`BootedResolution.BootedResolvesGrantedIff`): an entry granted `@1` alone
  is given `@1@1` for a call of `@1@2` (`BootedResolution.UngrantedTarget`). Boot admits such ops only for a
  contribution with an empty id (`BootedResolution.BootAdmitsBareIffUnnamed`).
- A series range whose series holds a dot, such as 1.2.x, matches no version (`ToolRegistry.SeriesRange`).
- Manifest files collide when two ids sanitise to one name, as "a b" and "a_b" do, and then an entry of a ceremony that
  succeeded can fail (`Recipe.CompiledEntryCanFail`): all pass exactly when every file holds, in the end, the text of each
  entry that wrote it (`Recipe.CompiledVerifiesIff`), for distinct ids when the names are distinct
  (`Recipe.CompiledVerifiesIffNamesDistinct`).
- Nothing in the signed bytes tells a manifest from a recipe. A signed manifest that also holds the fields of a recipe
  and names the root key there is accepted as a recipe (`RecipeAcceptance.DoublingManifestIsAccepted`), and any recipe
  can have such a double (`RecipeAcceptance.AnyRecipeHasADouble`); the compiled recipe is the only one accepted exactly
  when no manifest of the ceremony is one (`RecipeAcceptance.OnlyTheCompiledIffNoDouble`).
- The recipe a ceremony writes is read back exactly when its spec has a name, an entry and no negative phase
  (`RecipeReader.CompiledRecipeReadsIff`); the ceremony checks none of these.
- The chain check accepts every truncation of a log; only the head hash tells (`AuditLog.TruncationVerifies`).

## Model

| member | source | states |
|---|---|---|
| PortRouter.PortRouter.Deliver | host/src/ports.ts:315-327 | a delivered call is refused without a compartment, admitted below the cap, else queued with gate calls before normal ones; keeps the invariant for fresh ids |
| PortRouter.PortRouter.Enqueue | host/src/ports.ts:321-327 | admission below the cap, else insertion before the first normal call for a gate call and at the end otherwise |
| PortRouter.PortRouter.Admit | host/src/ports.ts:328-341 | an expired item is resolved BUDGET and the next one is tried, a live one is started; the mutual recursion with release ends on queue length |
| PortRouter.PortRouter.Release | host/src/ports.ts:342-346 | frees the slot and hands it to the head of the queue |
| PortRouter.PortRouter.OnReturn | host/src/ports.ts:222-232 | a return for a pending id resolves it and refills the slot, any other is ignored; keeps the invariant when sent by the serving compartment |
| PortRouter.PortRouter.OnChunk | host/src/ports.ts:222-223 | a chunk reaches a streaming pending call and is dropped otherwise |
| PortRouter.PortRouter.OnTimer | host/src/ports.ts:335-337 | a due timer resolves its pending call BUDGET and refills the slot |
| PortRouter.PortRouter.FailInflight | host/src/ports.ts:463-474 | a crash resolves the queue and the in-flight calls of one compartment |
| RouterEvents.StepInv | host/src/ports.ts:315-346 | every event keeps the router invariant |
| RouterRuns.InitialIsValid | host/src/ports.ts:31-45 | the empty router satisfies the invariant |
| RouterRuns.ReachableIsValid | host/src/ports.ts:315-346 | every state reachable from the initial router satisfies the invariant |
| RouterRuns.ExactlyOnePlace | host/src/ports.ts:315-346 | a delivered call is resolved exactly once and nowhere else, or served with exactly one in-flight entry, or queued exactly once at its target |
| RouterRuns.ResolvedOnce | host/src/ports.ts:222-232 | over any run a resolved call keeps its one result: no second resolution, no chunk, no post |
| RouterRuns.PendingIsDisjointUnion | host/src/ports.ts:460-474 | the pending table is the disjoint union of the in-flight sets |
| RouterRuns.AdmissionConservesWork | host/src/ports.ts:315-346 | in-flight is at most the cap, a call waits only behind a full one, queues hold gate calls first and each class in arrival order |
| RouterSlots.RefillOffers | host/src/ports.ts:328-346 | an offered slot passes over exactly the queued calls that waited at least their positive deadline, answering each BUDGET, and goes to the next one, posted with its timer due at arrival plus deadline; nothing else changes |
| RouterSlots.ReturnIsExact | host/src/ports.ts:224-231 | a return answers its pending call with the result and offers its slot so; queues, in-flight sets, pending table, timers and every other call are exact, and a return for no pending id changes nothing |
| RouterSlots.TimerIsExact | host/src/ports.ts:335-337 | a deadline that passes answers its call BUDGET and offers its slot so |
| RouterSlots.DeliverIsExact | host/src/ports.ts:313-327 | a delivered call is answered REFUSED without a compartment, posted below the cap, else queued behind its own class, a gate call before every normal one; its class is the declared one of its op, gate for law.check |
| RouterSlots.ChunkIsExact | host/src/ports.ts:222-223 | a chunk is appended to its streaming pending call and changes nothing otherwise |
| RouterOutcomes.FailIsExact | host/src/ports.ts:463-474 | a failure answers exactly the outstanding calls of its compartment, DEGRADED with its reason, and clears the places of that compartment alone |
| RouterOutcomes.AnswerHasCause | host/src/ports.ts:222-346 | a step answers a call with a result only for that result's cause: a return carrying it, BUDGET in a step at or after arrival plus a positive deadline, a failure of the target, or no compartment |
| RouterOutcomes.AnswersHaveCauses | host/src/ports.ts:222-346 | so for every answer given in any run |
| RouterOutcomes.PostIsTimely | host/src/ports.ts:328-341 | a step posts a call only without a deadline or before arrival plus deadline, and only once |
| RouterOutcomes.PostsAreTimely | host/src/ports.ts:328-341 | so for every post of any run |
| RouterHistory.CountersCountPosts | host/src/ports.ts:328-341 | the delivery counter of a compartment is the number of calls posted to it |
| RouterHistory.CapIsDeclared | host/src/ports.ts:63-73 | over any run a compartment keeps the cap it registered with, 4 without one |
| RouterHistory.PriorityIsDeclared | host/src/ports.ts:68-68 | over any run the class of an op is the one declared last |
| RouterDeadlines.PendingIsTimed | host/src/ports.ts:328-337 | a served call's timer is due at enqueue time plus deadline, not admission time plus deadline |
| RouterDeadlines.DeadlinesAreMet | host/src/ports.ts:321-346 | past every outstanding deadline, with no due timer left to fire, nothing is pending and every queue with a cap of at least one is empty |
| RouterDeadlines.DeadlinesDrain | host/src/ports.ts:321-346 | past every outstanding deadline, any firing of timers, in whatever order, that leaves no due one takes as many steps as there were due timers and ends with nothing pending and every queue with a cap of at least one empty |
| RouterDeadlines.DueTimersCanFire | host/src/ports.ts:335-341 | such a firing exists from every such state |
| RouterDeadlines.FiringProgresses | host/src/ports.ts:335-341 | firing a due timer leaves one due timer fewer: refilling arms none that is due |
| RouterDeadlines.FailResolvesExactly | host/src/ports.ts:463-474 | a crash resolves exactly the outstanding calls of that compartment with that reason and touches no other call |
| RouterDeadlines.ReturnKeepsInvariantIff | host/src/ports.ts:224-231 | handling a return keeps the invariant exactly when the id is not pending or is served by the sender |
| RouterStalls.CapBelowOneStalls | host/src/ports.ts:321-327 | with a cap below one a queued call stays queued over any run without a failure of its target, deadline or not |
| RouterStalls.LeavesIffCap | host/src/ports.ts:321-346 | short of a failure of its target a queued call can leave its queue exactly when the cap is at least one |
| RouterStalls.DeadlinesHoldIffCap | host/src/ports.ts:321-346 | past all deadlines, with no due timer left, nothing is served and nothing queued at a compartment of a given cap, in every run, exactly when that cap is at least one |
| RouterOutcomes.GoodResultWasReturned | host/src/ports.ts:224-231 | over any run a call that ends with a good result was answered by a return, with that result, from the compartment it was delivered to |
| Dispatch.BootIsBooted | host/src/boot.ts:85-99 | the boot loop leaves every dormant entry's risky ops known and nothing in flight |
| Dispatch.BootKnowsRisk | host/src/boot.ts:85-99 | after boot the risky ops are exactly those some entry declares |
| DispatchOutcomes.BootPlaces | host/src/boot.ts:85-99 | after boot exactly the entries of phase zero have compartments and exactly the others wait to be spawned |
| DispatchOutcomes.BootDeclaresRisk | host/src/boot.ts:85-99 | a spawn brings the risky ops that the last entry of its id declared |
| Dispatch.StepOk | host/src/ports.ts:107-121 | every piece of dispatch and lazy spawn keeps the gate and single-flight invariants |
| Dispatch.GateBeforeDelivery | host/src/ports.ts:282-306 | in every interleaving risky calls are delivered and spawns for them started only after a passing law answer for the same principal, effective op and causation id; one delivery per call, to a registered target; each dormant id lazily registered at most once; one unfinished spawn per id |
| Dispatch.GateMeansAllowIff | host/src/ports.ts:284-292 | the passing answer was allow exactly when the good law result was one of the three decisions |
| Dispatch.UnknownDecisionDelivers | host/src/ports.ts:284-305 | a good law result that is none of the three decisions does deliver a risky call |
| DispatchOutcomes.CallIsExact | host/src/ports.ts:279-306 | a call without a target is refused, one of a risky op waits for the law or is refused without one, any other is delivered when its target is registered and neither stopped nor degraded, waits for a spawn when it is unregistered and dormant, and is refused otherwise; nothing else changes |
| DispatchOutcomes.LawReplyIsExact | host/src/ports.ts:284-306 | an error, a missing value, deny and require-consent refuse the call; after every other answer it is delivered, waits or is refused by the state of its target as an unrisky one |
| DispatchOutcomes.ResumeIsExact | host/src/ports.ts:295-306 | after a spawn the call is delivered exactly when the spawn was good and the target is well, else refused |
| DispatchOutcomes.EndsIff | host/src/ports.ts:279-306 | a piece of dispatch ends a call in a refusal, or in a delivery, if and only if these conditions hold |
| DispatchOutcomes.SpawnLife | host/src/ports.ts:107-121 | a spawn goes from checking out by way of waiting to the end its events give it, and keeps it |
| DispatchOutcomes.HostLife | host/src/boot.ts:77-84 | compartments come by good checkouts alone, booting, and dormant ids go by good spawns alone |
| DispatchOutcomes.WaitsEnd | host/src/ports.ts:107-121 | in every run a waiting dispatch waits for the spawn under way for its own target, or can resume |
| GatedRouter.RiskyOnlyAfterTheLaw | host/src/ports.ts:279-313 | in every run of dispatch and router together a risky call is handed over, and a spawn for it started, only after the law compartment itself returned, for that causation id, a result that lets it pass |
| GatedRouter.RouterCallsAreGated | host/src/ports.ts:279-316 | whatever risky call the router is given, the law's own questions excepted, that return under the same causation id came before it in the router's trace |
| GatedRouter.DeliveredIsHeld | host/src/ports.ts:301-316 | a call a dispatch delivered is held by the router for the resolved target, op and causation id |
| GatedRouter.DeliveriesAreFresh | host/src/ports.ts:219-219 | with distinct causation ids the router's demand for fresh ones is met at every delivery, though a call and the question about it share an id |
| Dispatcher.Dispatcher.OnCall | host/src/ports.ts:279-306 | a call up to its first wait, in place: refused, waiting for the law, waiting for a spawn, or delivered |
| Dispatcher.Dispatcher.OnLawReply | host/src/ports.ts:284-306 | the continuation after the law answer, in place |
| Dispatcher.Dispatcher.OnCheckedOut | host/src/boot.ts:77-84 | a checked-out compartment is registered at once; a failed checkout settles the spawn |
| Dispatcher.Dispatcher.OnReady | host/src/ports.ts:110-115 | a ready spawn stops being dormant, a failed one stays dormant |
| Dispatcher.Dispatcher.OnForget | host/src/ports.ts:115-117 | a settled spawn is forgotten only by its own promise |
| Dispatcher.Dispatcher.OnResume | host/src/ports.ts:295-305 | a waiting dispatch is delivered or answered DEGRADED after the spawn |
| Dispatcher.Dispatcher.OnHandleChange | host/src/ports.ts:301-304 | a registered compartment may change state between any two pieces |
| Tokens.TokenTable.InstallTokens | host/src/ports.ts:77-84 | installs each unknown token with its effective capability, first key wins |
| Tokens.TokenTable.CheckToken | host/src/ports.ts:201-214 | unknown, foreign, revoked, old generation and scope are reported in this order |
| Tokens.TokenTable.Revoke | host/src/ports.ts:382-401 | scoped or total revocation of the whole table, and how many good records it hit |
| Tokens.VerdictIsHistory | host/src/ports.ts:201-214 | a token is accepted exactly when its first installation was for this plugin with a capability covering the op and no revocation of that plugin or of everything followed; each other verdict likewise; the generation check never decides |
| Tokens.TableIsHistory | host/src/ports.ts:77-84 | the table holds exactly the tokens ever installed, each with its first owner and capability, revoked exactly when a matching revocation followed |
| Tokens.PutAllIsHistory | host/src/ports.ts:77-84 | installing a token object is installing its pairs one by one, so every table of the host is that of a history |
| Tokens.ScopedRevokeIsScoped | host/src/ports.ts:390-393 | a scoped revoke changes no other plugin's verdict, down to the error |
| Tokens.ReinstallChangesNothing | host/src/ports.ts:79 | installing again what was ever installed, as a lazy spawn does, changes nothing and revives no token |
| Tokens.KeyOrderIsIrrelevant | host/src/ports.ts:75-84 | the order of token keys and aliases never changes the table |
| Tokens.MintedTokenCovers | host/src/ports.ts:187-195 | each minted token accepts, for its entry only, exactly the ops its key's capability covers; aliases are coherent |
| MintedTokens.MintedKeys | host/src/ports.ts:187-195 | the keys minted for an entry are its capabilities and the aliases of the host ops they guard, each once, naming the token of the last capability each stands for |
| MintedTokens.CoverageIs | host/src/ports.ts:207-213 | a key covers a host op exactly when it is the capability guarding it or the alias of an op guarded alike, and another op exactly when it is that op's port key |
| MintedTokens.GenerationCounts | host/src/ports.ts:394-399 | the generation is one more than the number of total revocations |
| CapabilityGraph.CapabilityGraph.UpsertNode | host/src/graph.ts:34-39 | replaces the node and opens missing index entries, in place; the indexes keep matching the edge list |
| CapabilityGraph.UpsertReplaces | host/src/graph.ts:34-39 | the node is added or replaced; the other nodes and the edges stay |
| CapabilityGraph.CapabilityGraph.Grant | host/src/graph.ts:47-55 | refused exactly for an unknown node or a grant that does not verify, else adds the edge; the indexes keep matching the edge list |
| CapabilityGraph.CapabilityGraph.WhoOffers | host/src/graph.ts:58 | the distinct targets of offer edges, in order of first grant |
| CapabilityGraph.CapabilityGraph.FanIn | host/src/graph.ts:66 | the distinct offerors plus the distinct holders among the edges |
| CapabilityGraph.CapabilityGraph.BlastRadius | host/src/graph.ts:69-81 | the search ends and counts exactly the other nodes of the connected component, none for an unknown node |
| CapabilityGraph.AddEdgeIndexed | host/src/graph.ts:52-54 | adding an edge keeps all three indexes equal to what the edge list says |
| CapabilityGraph.NeighboursAreJoined | host/src/graph.ts:72-77 | the three index lookups are exactly the edge relation, both directions |
| CapabilityGraph.SameComponent | host/src/graph.ts:68-81 | connected nodes have one component: connection is symmetric and transitive |
| CapabilityGraph.SameRadius | host/src/graph.ts:68-81 | nodes of one component have the same radius, its size less one |
| AuditLog.AuditLog.Record | host/src/audit.ts:29-37 | appends the next numbered, linked, signed grant; the chain keeps verifying |
| AuditLog.AuditLog.VerifyChain | host/src/audit.ts:39-46 | true exactly when every entry links to the one before it and verifies |
| AuditLog.PayloadTextInjective | host/src/audit.ts:24 | the hashed and signed text of a grant determines the grant |
| AuditLog.RecordKeepsChain | host/src/audit.ts:29-37 | recording keeps the chain verifying and the entries numbered |
| AuditLog.HeadDeterminesLog | host/src/audit.ts:39-46 | with an injective hash that never yields the genesis value, linked logs with one head hash hold the same payloads |
| AuditLog.TamperingShows | host/src/audit.ts:26-28 | a log that differs in any payload or in length breaks the chain or has another head |
| AuditLog.HashAssumptionsAreConsistent | host/src/audit.ts:24 | an injective hash that never yields the genesis value exists beside a matching key pair |
| AuditLog.TruncationVerifies | host/src/audit.ts:39-46 | every prefix of a verifying log verifies |
| ToolRegistry.ToolRegistry.Resolve | host/src/contract.ts:22-26 | the newest published generation in range, none exactly when none matches |
| ToolRegistry.NewestIs | host/src/contract.ts:22-26 | the pin is a match with no later match |
| ToolRegistry.RangeMeaning | host/src/contract.ts:33-37 | a range admits every version when it is *, latest or empty, the series n and n.anything when it is n.x, else the version it names |
| ToolRegistry.SeriesRange | host/src/contract.ts:33-37 | an n.x range matches exactly n and the versions going on with a dot after n, and no version at all when n holds a dot |
| Kernel.KernelRouter.constructor | host/src/genesis.ts:29-41 | the bootstrap builds the genesis state with no refused grant |
| Kernel.KernelRouter.RegisterGraph | host/src/ports.ts:124-145 | one entry's offers and holds, in place, once per id; no grant is ever refused |
| Kernel.GrantStepOk | host/src/ports.ts:136 | recording then granting is never refused and keeps log and graph in step |
| Kernel.RegisterOk | host/src/ports.ts:124-145 | registration keeps graph, log and registry in step, adds exactly the entry's offers once, and is idempotent |
| Kernel.RegistrationArcs | host/src/ports.ts:134-144 | the first registration appends the offers and then the holds with port prefixes removed, later ones nothing |
| KernelContents.RegistrationRecords | host/src/ports.ts:134-144 | the first registration records, from the entry to itself, its ops and then its capabilities with a leading port: removed, and adds the same edges; later ones nothing |
| KernelContents.RegistrationNodes | host/src/ports.ts:129-142 | it makes the entry a principal with its profile, its ops capabilities whatever was there, its held capabilities where nothing was; every other node stays |
| KernelContents.GenesisHolds | host/src/genesis.ts:29-41 | the bootstrap holds exactly its five nodes and the two edges by which the kernel grants self-description to itself and the schema |
| KernelContents.PayloadSays | host/src/audit.ts:24-31 | the signed and hashed text of a record parses to an object of its from, to, capability, seq and prevHash |
| KernelContents.OpIsCutAtLastAt | host/src/ports.ts:137-151 | an op is cut into name and version at its last @ unless that is missing or first, and then is version 1 of itself |
| Kernel.EveryRunInStep | host/src/ports.ts:123-145 | after bootstrap and any run of registrations the i-th edge carries the i-th record, numbered i, for the same holder and capability; the chain verifies; the tool registry is an index of the offer edges |
| Kernel.GenesisOk | host/src/genesis.ts:29-41 | the genesis state is in step and offers nothing |
| Kernel.RecomposesIff | host/src/ports.ts:137-151 | splitting and recomposing an op gives it back exactly when an @ follows its first character |
| Routing.VerifyCompositionInvariants | host/src/recipe.ts:40-54 | no error exactly when the law entry alone has phase 0 and no op is granted twice; otherwise the phase error and the conflicts in order |
| Routing.ConflictsAre | host/src/recipe.ts:46-52 | a conflict is reported for two claims of one op without a third between them, naming both claimants |
| Routing.LawAloneIff | host/src/recipe.ts:42-45 | the phase check passes exactly when one entry has phase 0 and it is the law |
| Routing.ClaimsAreGrants | host/src/recipe.ts:47-48 | the claims are the grants of the entries, entry by entry, each in order |
| Routing.BuildRoutingTable | host/src/ports.ts:487-507 | no error exactly when every entry has a manifest declaring its ops and every contract dependency is granted; each declared op is routed to its last claimant; the errors are exactly the missing manifests, undeclared ops and unsatisfied dependencies |
| Routing.RoutedToLast | host/src/ports.ts:493-497 | an op is routed exactly when it is claimed, to its last claimant |
| Routing.RoutableOpsAre | contracts/src/manifest.ts:131-137 | a manifest declares id@version of its contracts, engines and providers, nothing else |
| Routing.UnsatisfiedIff | host/src/ports.ts:499-504 | a dependency is unsatisfied exactly when it is contract: and an op no entry is granted |
| Resolution.RoutingRefines | host/src/ports.ts:167-185 | for an accepted composition whose entries of one id are granted no op, after any order and repetition of registrations a granted op resolves to its owner in the op map for every caller, and any other op falls back |
| Resolution.RefinesIffSharedIdsIdle | host/src/ports.ts:124-185 | whatever manifests boot read, every run of registrations of an accepted composition agrees with the op map exactly when entries that share an id are granted no op |
| Resolution.UngrantedFallsBack | host/src/ports.ts:180-184 | whatever the composition, an ungranted op gives nothing unless the manifest last registered for the caller has a dependency naming the op, and then the newest registered offer of that name within the first such dependency's range; the target is granted the op it is given exactly when the offer is written name@version or version 1 of its name is granted too |
| Resolution.DeclaredIsFirstNaming | host/src/ports.ts:154-164 | the declared range is that of the first dependency whose reference, contract: removed, has the op's name, * when it is empty, and there is none exactly without such a dependency |
| Resolution.CallerRangeIs | host/src/ports.ts:154-164 | after any run of registrations the range of a call is the one so declared by the manifest last registered for the caller |
| ResolvedTargets.ResolutionIsExact | host/src/ports.ts:167-185 | after any run of registrations an op with one offeror goes to it, one with several to the newest generation in range if its implementation offers the op, else to the last offeror, and one without to the newest offer in the declared range |
| ResolvedTargets.GraphOffers | host/src/ports.ts:124-139 | the graph offers what the first registration of each id was granted, in order |
| ResolvedTargets.OfferorsInOrder | host/src/graph.ts:58 | the offerors of an op are those granted it, each once, in order of first grant |
| Resolution.ResolvedIsOffered | host/src/ports.ts:167-185 | for any composition, several offerors included, the target offers the op it is given when ops are written name@version |
| BootedResolution.BootedResolvesGrantedIff | host/src/boot.ts:50-53 | in a composition the routing table can accept, whatever is resolved, with any manifests it is accepted with, was granted to its target, exactly when each op without an @ after its first character is granted along with version 1 of its name |
| BootedResolution.BootAdmitsBareIffUnnamed | host/src/ports.ts:487-507 | an op boot admits has no @ after its first character exactly when its contribution has an empty id and a version without @ |
| BootedResolution.NamedContributionsCover | host/src/ports.ts:487-507 | contributions that have ids meet that condition |
| BootedResolution.UngrantedTarget | host/src/ports.ts:180-184 | an entry granted @1 alone is given @1@1, which it is not granted, for a call of @1@2 by a caller that declares a range |
| Resolution.RouterMapIsTheTable | host/src/ports.ts:487-507 | once every entry of an accepted composition is registered, in any order, the op map is the table boot computed |
| Resolution.PinIsNewestOffer | host/src/ports.ts:180-184 | the registry scan finds the newest offer of a name in range, and nothing exactly when there is none |
| Resolution.SharedIdBreaksRefinement | host/src/ports.ts:127 | of two entries with one id the op map routes an op of the second alone, which the graph resolves for no caller that declares no dependency on it |
| CanonicalJson.CanonicalIffSame | host/src/canon.ts:9-19 | two values have one canonical text exactly when they are the same up to key order and undefined members |
| CanonicalJson.CanonicalReadsBack | host/src/canon.ts:9-19 | parsing a canonical text gives the normal form of the value |
| CanonicalJson.AcceptsIffSupported | host/src/canon.ts:13-18 | refused exactly when undefined occurs anywhere but as a member value |
| CanonicalJson.CanonicalIsCompact | host/src/canon.ts:13-17 | the canonical text is the compact text of the normal form, keys sorted by code units |
| CanonicalShape.CanonicalBytes | host/src/canon.ts:9-19 | the canonical text is the tokens, without white space, of the same value with the keys of every object ascending: a proper prefix first, else the smaller code unit where they first differ |
| CanonicalShape.UnitIsEscapedAs | host/src/canon.ts:11 | each unit has one spelling: the two-character escapes, lower-case \uXXXX for other control characters and lone surrogates, itself otherwise |
| CanonicalShape.PairIsKept | host/src/canon.ts:11 | a high surrogate and the low one after it are kept as they are |
| CanonicalShape.EscapeConcat | host/src/canon.ts:11 | a string is escaped piece by piece, a surrogate pair being one piece |
| CanonicalJson.SameIffSameNormal | host/src/canon.ts:15 | being the same value up to key order is having one normal form |
| CanonicalJson.SortedUnique | host/src/canon.ts:15 | a sorted key list is determined by its members |
| JsonFormat.RenderReadsBack | tooling/generate/format.ts:17-40 | parsing a rendering, at any indent, gives the value back with key order kept |
| JsonFormat.RenderIsInlineUpToSpace | tooling/generate/format.ts:17-40 | rendered and inline text have the same tokens: they differ in insignificant white space only |
| JsonShape.RenderBreaksIff | tooling/generate/format.ts:28-40 | a rendering holds a line break exactly when the value is a container with items and its one-line form exceeds 120 columns with its indentation; otherwise it is that form; broken, it is the bracket, one line start per item two columns further in, commas between, and the closing bracket on its own line |
| JsonShape.InlineIsOnOneLine | tooling/generate/format.ts:17-25 | the one-line form is the value's tokens with one space after commas and colons and inside the braces of an object that is not empty, nowhere else |
| JsonFormat.FormatIsFixedPoint | tooling/generate/format.ts:17-40 | formatting keeps the value and a formatted file is a fixed point |
| JsonFormat.EmitSpecReadsBack | tooling/generate/format.ts:55-69 | an emitted spec parses to exactly the spec and is already formatted |
| RecipeContents.EmitSpecSays | tooling/generate/format.ts:55-69 | an emitted file holds name, note and entries in house order, each entry saying what was asked for |
| JsonFormat.PrettyReadsBack | host/src/recipe.ts:122 | the two-space text of a plain value parses to that value |
| JsonShape.PrettyBreaks | host/src/recipe.ts:122 | two-space text breaks every container that is not empty, in the same shape |
| JsonText.ReadStringBack | host/src/canon.ts:11 | reading an escaped string gives the string back, surrogates included |
| JsonParser.ParseBack | host/src/canon.ts:9-19 | the parser inverts the token list of a plain value |
| JsonParser.RepeatedNamesKeepLast | host/src/recipe.ts:87 | an object text with repeated names is read with each name once and its last value |
| Signing.VerifiedWasSigned | host/src/canon.ts:97-102 | a value that verifies under a signature that exists is, up to key order, one that was signed |
| Signing.AssumptionsAreConsistent | host/src/canon.ts:92-102 | one scheme has matching keys, an injective hash and signatures that verify only over what was signed, for every list of signed values |
| Signing.SignedVerifies | host/src/canon.ts:92-102 | a signature over a value verifies over every value that is the same up to key order |
| Manifest.ReadManifests | host/src/recipe.ts:86-97 | a manifest that is read is a plain object with its mandatory strings and every default filled |
| Manifest.ReadHolds | host/src/recipe.ts:86-97 | a manifest that is read says what its file says, its missing or null optional fields filled with their defaults and a content hash that is no string emptied |
| Manifest.ManifestReadIff | host/src/recipe.ts:86-90 | a text is read exactly when it is an object of manifest version 1 with a non-empty id and entry |
| Manifest.WrittenManifestReadsBack | host/src/recipe.ts:122 | the written text of a complete manifest reads back as itself |
| Manifest.SignedManifestVerifies | host/src/recipe.ts:117-124 | what the ceremony writes reads back as itself and verifies under the root key |
| Manifest.AcceptedManifestWasSigned | host/src/recipe.ts:155-157 | an accepted manifest whose signature exists is, up to key order, one the root key signed |
| Recipe.PathsCollideIffNamesDo | host/src/recipe.ts:121 | two manifest paths are one exactly when the sanitised ids are |
| Recipe.CompiledPasses | host/src/recipe.ts:109-135 | with pairwise distinct file names every compiled entry passes verification, whatever the hash |
| Recipe.CompiledVerifiesIff | host/src/recipe.ts:109-135 | under an injective hash every compiled entry passes verification exactly when for each the last entry of its file name wrote the same text |
| Recipe.CompiledVerifiesIffNamesDistinct | host/src/recipe.ts:109-135 | for distinct ids that is exactly when the sanitised file names are pairwise distinct |
| Recipe.AnyIdsCompile | host/src/recipe.ts:109-135 | any list of non-empty ids has a ceremony that compiles it |
| Recipe.CompiledEntryCanFail | host/src/recipe.ts:121 | a ceremony over the ids "a b" and "a_b" succeeds and emits an entry that fails verification |
| Recipe.EntryPasses | host/src/recipe.ts:149-162 | a compiled entry whose manifest file no later entry overwrote passes, whatever the hash |
| Recipe.EntryPassesIff | host/src/recipe.ts:149-162 | under an injective hash a compiled entry passes exactly when the last entry that wrote its manifest file wrote the same text |
| Recipe.CompiledRecipeVerifies | host/src/recipe.ts:136-143 | the emitted recipe verifies under the key it names |
| Recipe.CompiledRecipeFileVerifies | host/src/recipe.ts:144 | the written recipe file reads back as the recipe without its undefined members and still verifies |
| Recipe.AcceptedRecipeWasSigned | host/src/recipe.ts:30-37 | an accepted recipe whose signature exists is, up to key order, one that key signed |
| Recipe.ManifestIsSigned | host/src/recipe.ts:117-124 | each compiled manifest carries a signature the root key made over it in that ceremony |
| Recipe.RecipeIsSigned | host/src/recipe.ts:140-143 | the compiled recipe carries a signature the root key made over it in that ceremony |
| Recipe.OnlyCompiledManifestsPass | host/src/recipe.ts:149-162 | after a ceremony an entry that passes under a signature that exists holds, up to key order, a manifest of that ceremony |
| Recipe.OnlyTheCompiledRecipePasses | host/src/recipe.ts:35-37 | after a ceremony a recipe that verifies under a signature that exists is one of the values signed, and without a manifest version it is the compiled recipe, up to key order |
| RecipeReader.SameReads | host/src/recipe.ts:12-29 | two recipes that are the same up to key order and undefined members are both read or both refused |
| RecipeReader.CompiledRecipeReadsIff | host/src/recipe.ts:12-29 | the recipe file a ceremony writes is read back, without its undefined members, exactly when the spec has a name, an entry and no negative phase, and refused otherwise |
| RecipeAcceptance.DoublingManifestIsAccepted | host/src/recipe.ts:30-37 | a manifest of the ceremony that holds a recipe's fields and names the root key there, its signature moved to the top, is accepted as a recipe and is not the compiled one |
| RecipeAcceptance.AcceptedIsCompiledOrDouble | host/src/recipe.ts:12-37 | after a ceremony a recipe accepted under a signature that exists is, up to key order, the compiled one or such a manifest |
| RecipeAcceptance.OnlyTheCompiledIffNoDouble | host/src/recipe.ts:12-37 | only the compiled recipe is accepted under the signatures that exist exactly when no manifest of the ceremony holds a recipe's fields and names the root key there |
| RecipeAcceptance.AnyRecipeHasADouble | host/src/recipe.ts:86-124 | for any readable recipe under the root key a ceremony succeeds whose signed manifest holds exactly that recipe's fields |
| Recipe.AcceptedEntryWasSigned | host/src/recipe.ts:149-162 | an entry that passes has the recorded digests, and a manifest the root key signed when its signature exists |
| Recipe.BuildDirectory.CompileComposition | host/src/recipe.ts:101-146 | the loop writes exactly the files of the entries before the first error and returns the signed recipe when there is none |
| RecipeContents.CeremonySucceedsIff | host/src/recipe.ts:108-116 | a ceremony succeeds exactly when every source has a readable, honest manifest of the entry's id and a digest |
| RecipeContents.EntriesStandForSpec | host/src/recipe.ts:125-134 | entry i has the id, source, phase, capabilities, contracts and configuration of the spec's entry i, its manifest's version and its sources' digest |
| RecipeContents.RecipeFileGrantsSpec | host/src/recipe.ts:125-144 | parsing the written recipe gives, under composition[i], exactly the capabilities, contracts, id, source, phase and configuration of the spec's entry i, in order |
| RecipeContents.ManifestHolds | host/src/recipe.ts:116-120 | a compiled manifest says what the source's manifest says but for content hash and publisher |
| RecipeContents.FilesWritten | host/src/recipe.ts:121-124 | a ceremony writes the files of the entries before the first error, the last of one path winning, and no others |
| RecipeContents.ManifestText | host/src/recipe.ts:122 | a manifest is written as its two-space text |
| RecipeContents.ManifestPathIs | host/src/recipe.ts:121 | manifest files are named after the id, every unit but letters, digits, dots and dashes replaced by an underscore |
| RecipeContents.EntryErrorsIff | host/src/recipe.ts:149-162 | the entry check throws exactly on a file that is no manifest and otherwise reports each error exactly for its cause |
| PlanCycle.DetectCycle | contracts/src/intent-plan.ts:28-58 | null exactly when the known-dependency graph is acyclic; a reported list ends in a real cycle, starts at the first step that reaches one and always follows the first dependency that does |
| PlanCycle.DetectorFollowsLast | contracts/src/intent-plan.ts:29-31 | the graph the detector walks has an edge exactly for a dependency on a step id that the last step with its id lists |
| DependencyGraph.KeptInOrder | contracts/src/intent-plan.ts:31 | of a dependency list the known ones are kept, in order and as often as they stand there |
| PlanCycle.DepthFirst.Visit | contracts/src/intent-plan.ts:36-52 | a visit either blackens the node with everything below it or returns a real cycle, and ends because white nodes run out |
| DependencyGraph.AcyclicIffOrdered | contracts/src/intent-plan.ts:28-58 | a graph is acyclic exactly when it has a topological order |
| PlanDepth.MaxDependencyDepth | contracts/src/intent-plan.ts:61-75 | the length of the longest dependency chain, an unknown dependency counting as one link; at most the number of steps plus one |
| PlanDepth.GuardFollowsFirst | contracts/src/intent-plan.ts:65-70 | the graph the guard walks has an edge exactly for a dependency that the first step with an id lists |
| PlanDepth.DepthMemo.Compute | contracts/src/intent-plan.ts:62-72 | the memoised depth of an id is the length of its longest chain |
| PlanDepth.DepthExistsIffAcyclic | contracts/src/intent-plan.ts:61-75 | every step has a finite depth exactly when the graph the guard walks is acyclic |
| PlanDepth.DetectorGuardsDepth | contracts/src/intent-plan.ts:28-75 | with distinct ids the detector finds no cycle exactly when the depth guard ends |
| PlanDepth.DetectorGuardsIffDistinct | contracts/src/intent-plan.ts:28-75 | every plan with given step ids that the detector passes has a depth computation that ends, exactly when those ids are distinct |
| PlanDepth.RepeatedIdEscapesDetector | contracts/src/intent-plan.ts:28-75 | for any ids with a repetition, a plan whose first step of the repeated id depends on itself passes the detector and does not end in the guard |
| LayerDag.CheckLayerDag | tooling/gates/genome.ts:91-118 | unknown dependencies one by one, then a cycle exactly when the known graph has one or a known dependency is repeated, naming in registry order exactly the layers from which one of these is reached |
| LayerDag.ReportedInOrder | tooling/gates/genome.ts:94-96 | unknown dependencies are reported layer by layer, each layer's in their order |
| LayerDag.KahnOrder | tooling/gates/genome.ts:98-112 | the emitted order has every dependency first and stops exactly at the blocked layers |
| LayerDag.CompleteIffSound | tooling/gates/genome.ts:98-118 | every layer is emitted exactly when the graph is acyclic and repeats no dependency; otherwise the layers left out are the blocked ones |
| LayerDag.DetectorsAgree | tooling/gates/genome.ts:91-118 | both detectors look at one graph; the layer check reports whatever the plan detector does, and nothing else for a registry without a repeated known dependency |
| LayerDag.RepeatedDependencyIsReported | tooling/gates/genome.ts:98-118 | a registry in which the plan detector finds no cycle is reported for a repeated dependency |
| Stream.ShimEmitter.Emit | shim/src/index.ts:92-97 | chunks are numbered 1, 2, 3, … and an emit after the final one is refused |
| Stream.StreamCall.Push | sdk/src/stream.ts:51-56 | the chunk is queued; over the bound the error skips the wake-up |
| Stream.StreamCall.Next | sdk/src/stream.ts:63-78 | one run of the generator to its next yield, sleep or end |
| StreamChecks.YieldsInSequence | sdk/src/stream.ts:59-77 | of whatever chunks arrive the consumer yields 1, 2, 3, … in order of arrival, nothing after a final one, raises exactly on a chunk out of sequence, and loses and repeats none |
| StreamChecks.NextTakesOne | sdk/src/stream.ts:63-78 | a generator that may run takes exactly one queued chunk, or ends when settled, or sleeps |
| StreamChecks.OverflowIffFlooded | sdk/src/stream.ts:51-56 | the flood error is raised exactly when more chunks than the bound were queued at some moment |
| Stream.CheckedIffNumbered | contracts/src/port.ts:74-79 | a list passes the pairwise rule from the start exactly when it is numbered 1, 2, 3, … |
| Stream.ConsumerSeesAPrefix | sdk/src/stream.ts:45-81 | in every interleaving and for every buffer bound yielded plus queued chunks are a prefix of what the producer emitted, the consumer never raises, never sleeps once settled nor, with a bound of at least one, on a queued chunk, and ends only after the final chunk or after draining everything relayed |
| Stream.WakesIffBufferHoldsOne | sdk/src/stream.ts:50-56 | the consumer never sleeps on a queued chunk exactly when the buffer bound is at least one |
| Stream.AsleepForEverIffRejected | sdk/src/stream.ts:59-77 | a sleeping consumer is never woken, however the run goes on, exactly when its call was rejected |
| Stream.RejectedNeverEnds | sdk/src/stream.ts:59-77 | the consumer of a rejected call gets no chunk and no end: its first request sleeps for ever |
| Stream.DrainThenStop | sdk/src/stream.ts:65-77 | after settlement the generator yields everything relayed and ends |
| Stream.EnvelopeIsLawfulStream | contracts/src/parser.ts:84-104 | accepted exactly when the last row and no other is final; the result is what a producer would emit, a lawful stream |
| LineFraming.LineFramer.OnData | platform/src/spawn.ts:46-62 | one chunk dispatches the complete lines of buffer plus chunk and keeps the rest |
| LineFraming.FeedAll | platform/src/spawn.ts:46-62 | feeding all chunks to a framer dispatches and leaves what the specification of a whole run says |
| LineFraming.LinesEndAtNewlines | platform/src/spawn.ts:50-60 | a newline ends a line, which loses one trailing carriage return and is dropped when nothing is left; what no newline ends stays in the buffer |
| LineFraming.ChunkingIsIrrelevant | platform/src/spawn.ts:46-62 | however the stream is cut, the dispatched lines are the newline-terminated lines of the whole, one trailing CR removed, empty lines dropped |
| LineFraming.WrittenValuesArrive | platform/src/spawn.ts:46-73 | values written one per line arrive as those values, in order, whatever the chunking |

## Left out

- Workers, sockets, real timers, files, processes and the clock source: they appear as abstract steps, a monotone clock read once per event, and parameters.
- Payloads and error details of router results: a result is a value text or an error with a fixed or given reason; journal lines are not modelled.
- Exceptions thrown by a chunk sink inside the router's message handler, and the caller's own tap in a streaming call.
- Registering an id again while its compartment is live: boot and lazy spawn never do it, so the event is enabled for new ids only.
- Delays above what the platform timer can hold, and clearing a timer that already fired in the same turn.
- Ready waiters: `waitActive` is the step by which a spawn becomes ready or fails to.
- Host operations other than token revocation and termination: single-branch replies.
- The state arbitrator, policy libraries, recovery, pinning, devvault, session chains and the fake host.
- `verifyComposition` as one function: its parts — recipe signature, entry check, composition invariants, routing table — are modelled one by one.
- Honesty rules of manifests and content hashing of directories: a predicate and a digest table given to the ceremony, its digests prefixed with their algorithm where the reader needs it; path joining is taken to be inverse to making paths relative.
- Numbers other than integers, minus zero, exponents, integers printed in exponent form, and integer-like object keys, which JavaScript reorders.
- Property names that JavaScript objects inherit, such as `constructor`, when a plain object serves as a table.
- Lines that are not JSON: the framer's lines are modelled, what the receiver does with a malformed one is not.
- PlanDepth.MaxDependencyDepth: requires the graph the guard walks to be acyclic, because on a cycle the recursion of the source does not end; `None` stands for the -Infinity of an empty plan.
- LayerDag.CheckLayerDag: requires unique layer ids, which the registry reader enforces before the check.
- What happens outside the host's message handler after the overflow error of a stream leaves it: the runs of the streaming call go on, as they do where something catches it.
- Manifest.PublisherVerifies: refuses a signature that is no string; the source would read an array of numbers as bytes.
- GatedRouter.RiskyOnlyAfterTheLaw: the law question carries its causation id; its payload is not modelled, and the registrations of compartments in the router and in dispatch are separate steps.
- GatedRouter.RouterCallsAreGated: the law's questions are themselves never gated, so a delivery that is one, by target, op, id and deadline, is excepted even if law.check is declared risky.
- Dispatch.GateBeforeDelivery: resolution is an input of each call here, and delivered means handed to the target's queue; what resolution answers is the subject of `Resolution`, what the queue does that of the router modules.
