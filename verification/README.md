# Heimdall-Core decision layer, modelled and proved in Dafny

Heimdall-Core is a local router for language-model requests. Between the HTTP surface and the upstream providers sits a
decision layer that performs no I/O of its own: it orders policy gates at boot, checks and expands routing combos, refreshes
OAuth credentials once however many requests want it, opens and closes circuits, orders and tries candidates, counts quota,
relays event streams and rotates the keys of sealed credentials. This project models that layer and proves what it promises,
and where a promise does not hold it gives an input that breaks it and proves exactly when it does hold.

Run `dafny verify dfyconfig.toml` to check everything.

| files | what they model |
|---|---|
| ByteStrings, GateGraph, GateRegistry, GateBoot, GateBootTheorems, GateChain, StageCalls | registration, dependency graph, deterministic sort, cycle report, and the chain run with its failure policies |
| ComboGraph, ComboValidate, ComboStore, ComboVersions, ComboExpand, ExpansionSources | reference graphs, the memoised save-time search, the store over runs of writes, request-time expansion, its candidates and its agreement with saving |
| LockRegistry, RefreshFlight | the reclaimed per-credential lock and the refresh protocol, as interleaved steps of any number of callers |
| BreakerCircuit, Breaker, BreakerRuns, BreakerAnswers | one circuit and its histories, the breaker over all keys, runs of calls and what they answer |
| StableSorting, RouteOrder, RouteGroups, RouteTurns, RouteDraws, RouteStrategies, RouteDirections, RouteRounds | the ten strategies, demotion, grouping into panels and stages, round-robin and fill-first cursors, weighted and paired draws |
| Dispatch, DispatchTraces | the failover loop and its recursion through structural plans |
| Quota, QuotaPeriods | the usage recorder and the quota filter |
| Sse, SseEvents, SseRoundTrip, StreamLife | event decoding, encoding and relay; the concurrent life of one stream |
| Envelope, EnvelopeLayout | the enc:v1 envelope and key rotation |

## How to read the model

- Objects whose methods change fields are classes here (`GateBoot.Registry`, `ComboValidate.DepthSearch`, `ComboStore.Store`,
  `ComboExpand.Expander`, `LockRegistry.Locks`, `BreakerCircuit.Circuit`, `Breaker.Breaker`, `RouteTurns.Cursor`,
  `Quota.Recorder`, `Sse.Stream`); each method is tied to a specification function of the old state, and the theorems are about
  those functions. Loops of the source are loops here.
- Iterating a Go map is choosing elements in any order. Strings compare byte-wise. A slice that is nil and one that is empty are
  the same.
- Concurrent code (the lock registry, the refresh protocol, the stream) is a state machine: a critical section, a channel
  operation or a call to the outside is one step, and the theorems hold of every interleaving. `Breaker.Allow` is one step.
- The clock, random numbers, gates, executors, the model catalog, JSON rewriting and the AEAD are arguments: the theorems hold for
  all of them (for the AEAD, for every one whose open undoes its seal).
- Fractions of quota are reals; durations are integers of nanoseconds, in 64-bit arithmetic where the source shifts them.

## Where the code and its documentation part

The model follows the code. Each point is stated by a member of the table below.

- The registry's cycle error is said to name the gates still on the cycle; it also names every gate downstream of one
  (`GateBootTheorems.ReportNamesBystander`, `GateGraph.LeftoverIsBehindCycle`).
- A FailOpen gate that fails is meant to leave the request as it was; what it wrote to the shared scratch map stays
  (`GateChain.FailOpenLeaksScratch`), and it can be left out exactly when nobody sees that (`GateChain.FailOpenTransparentIff`).
- The combo store validates by ID but writes by name. Where the two differ a cycle can be stored
  (`ComboStore.ForeignNameStoresCycle`); where they agree it never can (`ComboStore.RunsStayAcyclic`), and whatever they
  are a run stores one exactly when one of its operations closes it (`ComboStore.RunsAcyclicIff`).
- Create and Save fill in a missing schema version, Update stores the combo without one; it is accepted, and then nothing can be
  stored until that combo is deleted (`ComboVersions.UpdateWithoutVersionSpoils`, `ComboVersions.StuckUntilDeleted`); exactly the
  successful writes of another version do that (`ComboVersions.StepKeepsReadableIff`).
- A comment has nested candidates keep their own weight; they get that of the step of the top combo
  (`ExpansionSources.ExpansionHasSources`).
- Refresh is single-flight except after a persist that failed (`RefreshFlight.FailedPersistRepeatsExchange`,
  `RefreshFlight.ExchangedAgainIff`). A login during an
  exchange is lost and a removed credential comes back (`RefreshFlight.LoginDuringExchangeLost`,
  `RefreshFlight.PersistDestroysIff`).
- A half-open probe whose request fails on the client's account, or with a failure that opens no cooldown, is never given back
  (`BreakerCircuit.ProbeEndsIffResolved`, `BreakerCircuit.UnresolvedProbeBlocks`).
- The shift cap is meant to keep the backoff from overflowing; for bases of 2^33 ns and more it may not
  (`BreakerCircuit.CooldownIsIdealIff`, `BreakerCircuit.WideBaseCollapses`).
- Demotion is meant to reach every strategy; fill-first escapes it (`RouteTurns.FillFirstEscapesDemotion`,
  `RouteOrder.DemotedSuitsFirstIff`). Steps are meant to stay apart in panels and stages; two that name one provider and model do
  not (`RouteGroups.SharedModelMergesSteps`, `RouteGroups.StepsAreOriginsIff`).
- Power of two choices is meant to take the better of two drawn candidates; it takes the first or second of those remaining
  (`RouteDraws.TakesWorse`, `RouteDraws.TakesBetterIff`, `RouteDraws.TakesFromFront`).
- Fill-first is meant to exhaust an account before moving on; its cursor moves on with every candidate
  (`RouteTurns.FillFirstStaysIff`).
- The attempts a fusion reports are not its upstream calls (`Dispatch.FusionOverstatesAttempts`, `Dispatch.FusionClaimsCallsIff`).
- The gateway does not escape line feeds: an event with several data lines is cut to its first (`SseRoundTrip.TwoDataLinesCut`,
  `SseRoundTrip.PassedDecodesIff`).
- A replayed usage is meant to replace the earlier value; it is dropped (`Quota.ReplayChangesNothing`). A retry hint is meant to last
  until its reset; it lasts until a header arrives (`Quota.HintOutlivesReset`, `Quota.HeaderLiftsHint`). Only the global cutoff is
  clamped to [0, 1]; a negative per-window one never blocks (`QuotaPeriods.BlocksIff`).
- A stream's watcher is said to record the terminal outcome; only the consumer does (`StreamLife.OnlyConsumerRecords`).
- Rewrap accepts 16- and 24-byte keys that Open refuses (`Envelope.RotationKeepsMeaning`).

## Model

| member | source | states |
|---|---|---|
| GateRegistry.Kahn | internal/gates/registry.go:207-251 | whatever order the maps are iterated in, the sort returns the greedy least-ready order, or reports exactly the nodes it could not place |
| GateRegistry.Place | internal/gates/registry.go:226-238 | one round takes the smallest ready node and leaves exact in-degrees and an exact ready queue |
| GateRegistry.Release | internal/gates/registry.go:232-237 | counting down the successors keeps every in-degree equal to the waiting predecessors and queues exactly the newly ready ones |
| GateRegistry.CountIndegrees | internal/gates/registry.go:208-216 | the in-degree map counts the predecessors of every node |
| GateGraph.GreedyCompleteIffAcyclic | internal/gates/registry.go:226-250 | the sort places every node exactly when the dependency graph has no cycle |
| GateGraph.GreedyTopological | internal/gates/registry.go:224-238 | a complete greedy order is a topological order of the graph |
| GateGraph.GreedyLeast | internal/gates/registry.go:203-206 | no topological order is lexicographically below the greedy one |
| GateGraph.LeastTopologicalUnique | internal/gates/registry.go:203-206 | there is only one least topological order |
| GateGraph.LeftoverIsBehindCycle | internal/gates/registry.go:240-249 | the nodes left over are exactly those on or downstream of a cycle |
| GateGraph.LeftoverNamesBystander | internal/gates/registry.go:240-249 | a node that only waits for a cycle is left over too, and is on no cycle |
| GateBoot.Registry.RegisterGate | internal/gates/registry.go:61-107 | registration accepts exactly sound, new gates, which are those without a defect; otherwise nothing changes and the error names the first defect in the source's order of checks |
| GateBoot.Registry.CollectEdges | internal/gates/registry.go:175-199 | the edge map holds exactly the writer-to-reader and After edges of the stage, no self-edges |
| GateBoot.Registry.OrderStage | internal/gates/registry.go:155-201 | a stage's order is the one named by the specification of its graph |
| GateBoot.Registry.Build | internal/gates/registry.go:113-150 | build names the first unresolved After target, else the first stage with a cycle, else all three orders |
| GateBootTheorems.BootSucceedsIff | internal/gates/registry.go:113-150 | build succeeds exactly when every After target is registered and no stage graph has a cycle |
| GateBootTheorems.BootOrdersLeast | internal/gates/registry.go:203-251 | every stage runs in the unique least topological order of its dependency graph |
| GateBootTheorems.TopologicalIffDeclared | internal/gates/registry.go:175-199 | an order is topological exactly when it lists the gates of the stage once and puts every gate behind all that write a field it reads or that it names: the graph holds what is declared and nothing more |
| GateBootTheorems.BootOrderIsDeclared | internal/gates/registry.go:113-251 | every stage's order is, in the words of the declarations, the first by name among all such lists |
| GateBootTheorems.BootCycleReport | internal/gates/registry.go:240-249 | a cycle error lists, sorted, exactly the gates reachable from a cycle of the first cyclic stage |
| GateBootTheorems.ReportNamesBystander | internal/gates/registry.go:240-249 | a registry whose cycle error names a gate that is on no cycle |
| GateBootTheorems.RegistrationOrderIrrelevant | internal/gates/registry.go:61-107 | permuting registrations changes neither acceptance nor the registry they end in |
| GateBootTheorems.BuildDeterministic | internal/gates/registry.go:113-150 | two builds of the same registry have the same outcome |
| GateChain.PreRequestStage | internal/pipeline/chain.go:171-229 | the gate loop computes the specified run: working input, decision, shared scratch |
| StageCalls.CallsTellDecision | internal/pipeline/chain.go:171-229 | over the calls of every run: each gate gets the body and headers of the last earlier reply that replaced them, else the original ones, and the scratch map the gate before it left; the first stopping gate decides with its own payload; else the stage returns Modify with the last body and headers exactly when some reply replaced one, else Continue |
| GateChain.SecurityGatesRan | internal/pipeline/chain.go:171-229 | whenever a request is let through, every pre-request gate writing a security field ran once, without error, after every writer of what it reads |
| GateChain.FeedersFirst | internal/gates/registry.go:175-199 | in the boot order a gate stands once and after everything that feeds it |
| GateChain.ChainsCompose | internal/pipeline/chain.go:171-229 | running two chains one after the other is running their concatenation |
| GateChain.FailOpenTransparentIff | internal/pipeline/chain.go:171-229 | leaving out the gates that failed open is invisible, whatever the gates do elsewhere and whichever follow, exactly when no gate that stays, and nothing behind the chain, sees a scratch map they changed |
| GateChain.FailedGateTransparentIff | internal/pipeline/chain.go:171-229 | one gate that failed open can be left out exactly when it left the scratch map as it found it |
| GateChain.FailOpenTransparent | internal/pipeline/chain.go:171-229 | then the chain without them also leaves the same scratch map |
| GateChain.CleanIsSeamless | internal/pipeline/chain.go:171-229 | gates that failed open and wrote nothing are invisible in that sense |
| GateChain.FailOpenLeaksScratch | internal/pipeline/chain.go:171-229 | a FailOpen gate that writes the scratch map and then fails can change the decision: the map is not restored |
| GateChain.ChunkStage | internal/pipeline/chain.go:238-263 | the chunk loop computes the specified run on the shared map with chunk index and size stamped into it |
| StageCalls.FirstVerdictDecides | internal/pipeline/chain.go:238-263 | the first gate that neither passes the chunk nor fails open decides, with its own reply; no later one is called; every gate finds the map as the gates before it left it |
| ComboValidate.ValidateGraph | internal/combos/validate.go:115-216 | accepts with depth d exactly when the combo is well shaped, its targets allowed, its fan-out legal, its references known, everything reachable resolves without a cycle and the longest path is d, at most 8; under its own name the references need no condition of their own |
| ComboValidate.OwnNameRefsKnown | internal/combos/validate.go:115-150 | for a combo stored under its own name a sound graph already means known references and none to itself |
| ComboValidate.DepthSearch.DepthOf | internal/combos/validate.go:172-212 | the memoised three-colour search returns the longest path, a real cycle or a real dangling reference |
| ComboValidate.DepthSearch.Children | internal/combos/validate.go:190-206 | the loop over references yields one more than the deepest child |
| ComboValidate.OkIffSound | internal/combos/validate.go:159-216 | the search returns a depth exactly when everything below resolves without a cycle, and the depth is then the only longest path length |
| ComboGraph.LongestUnique | internal/combos/validate.go:159-216 | a combo has at most one longest path length |
| ComboGraph.BoundedIsAcyclic | internal/combos/validate.go:159-216 | a bound on path lengths rules out cycles |
| ComboStore.WriteKeepsAcyclicIff | internal/store/combo_store.go:43-127 | a write keeps the whole graph acyclic exactly when none of its references leads back to the name it is written under |
| ComboStore.RunsAcyclicIff | internal/store/combo_store.go:43-213 | in every run, whatever IDs and names, the stored graph stays acyclic up to any point exactly when no operation before it closes a cycle |
| ComboStore.StepKeepsAcyclicIff | internal/store/combo_store.go:43-213 | one operation keeps an acyclic store acyclic exactly unless it succeeds and a reference of what it writes leads back to the name written |
| ComboStore.RunsStayAcyclic | internal/store/combo_store.go:43-127 | no operation whose ID is empty or the name ever does: such runs of Create, Update, Save and Delete keep the whole stored graph acyclic |
| ComboStore.StepKeepsAcyclic | internal/store/combo_store.go:43-213 | one operation whose ID is empty or the name keeps an acyclic store acyclic |
| ComboStore.ForeignNameStoresCycle | internal/store/combo_store.go:68-81 | with an ID other than the name, four accepted operations store a cycle |
| ComboStore.Store.DoCreate | internal/store/combo_store.go:43-62 | create: defaults, duplicate check, validation, insert |
| ComboStore.Store.DoUpdate | internal/store/combo_store.go:68-81 | update: existing row, validation without it, write under the name |
| ComboStore.Store.DoSave | internal/store/combo_store.go:91-113 | save: insert or update as the ID is found |
| ComboStore.Store.DoDelete | internal/store/combo_store.go:204-213 | delete removes the row or reports it missing |
| ComboVersions.StoredRow | internal/store/combo_store.go:43-162 | a write stores what the caller gave under its name, with the longest reference path of the table it was validated in as depth, and leaves every other row as it was |
| ComboVersions.StepKeepsReadableIff | internal/store/combo_store.go:68-81 | one operation keeps a readable table readable exactly unless it succeeds and stores another schema version: Update does not fill in a missing one |
| ComboVersions.RunsReadableIff | internal/store/combo_store.go:43-277 | in every run the table stays readable up to any point exactly when no operation before it does |
| ComboVersions.UnreadableIsStuck | internal/store/combo_store.go:116-127 | once one row cannot be read no Create, Update or Save of any combo succeeds |
| ComboVersions.StuckUntilDeleted | internal/store/combo_store.go:116-213 | and that lasts until that very combo is deleted |
| ComboVersions.UpdateWithoutVersionSpoils | internal/store/combo_store.go:68-81 | two accepted operations lead there: create a combo, update it without giving a version |
| ComboExpand.ExpandTop | internal/router/expand.go:37-95 | on any combo map expansion succeeds exactly when all references resolve, all steps are known and no path exceeds 8; on a clean acyclic graph it can only fail for depth |
| ComboExpand.Expander.Expand | internal/router/expand.go:37-95 | the recursive expansion under the cycle and depth guards |
| ComboExpand.ExpansionIsFlattening | internal/router/expand.go:47-93 | the candidates are those of every reference route, each once, in order, with the top-level step's index and weight |
| ExpansionSources.ExpansionHasSources | internal/router/expand.go:47-120 | every candidate comes from one place, a route to a model step and a registered provider declaring the model, or a route to a wildcard and one of the provider's models; every place gives one candidate; they stand in the order of routes, then providers or models; each carries the pair's fit, the last step's credentials and quota flag, the top step's index and weight |
| ExpansionSources.ExpandsToIff | internal/router/expand.go:47-76 | a pair is among the candidates exactly when the last step of some route names it: the model, declared by the registered provider, or a wildcard of the provider that has the model |
| ComboExpand.SaveAndRequestAgree | internal/router/expand.go:37-95 | where the catalog knows every step, request-time expansion succeeds exactly when the save-time search accepts the graph |
| ComboExpand.SavedComboExpands | internal/store/combo_store.go:91-113 | a combo just saved under its own name expands |
| LockRegistry.LockSafety | internal/store/credential_store.go:307-383 | in every interleaving at most one caller holds a credential's lock, all callers on one id share one entry, its count is holders plus waiters plus releasers, and an id nobody refers to has no entry |
| LockRegistry.LockNeverStuck | internal/store/credential_store.go:326-341 | whenever callers wait for an id and nobody holds it, one of them can take the lock |
| LockRegistry.StepKeepsInv | internal/store/credential_store.go:326-383 | every step of acquire, cancel and unlock keeps the registry invariant |
| LockRegistry.Locks.TakeRef | internal/store/credential_store.go:343-354 | find or create the entry and count the reference |
| LockRegistry.Locks.TrySend | internal/store/credential_store.go:326-341 | a send succeeds exactly when the slot is free, and fills it |
| LockRegistry.Locks.TryReceive | internal/store/credential_store.go:357-368 | a drain succeeds exactly when the slot is full, and empties it |
| LockRegistry.Locks.ReleaseRef | internal/store/credential_store.go:370-383 | drop a reference and remove the entry at zero if it is still the stored one |
| RefreshFlight.SingleFlight | internal/app/login.go:339-416 | in every interleaving with logins and removals a stored token version is exchanged at most once plus once per exchange whose result could not be persisted, and callers that read it cause no other exchange |
| RefreshFlight.ExchangedAgainIff | internal/app/login.go:339-416 | at every successful exchange in every run the version was exchanged before exactly when a caller that presented it failed to persist before; all earlier exchanges of it are such losses |
| RefreshFlight.RefreshTokenKept | internal/app/login.go:407-433 | every persist changes one row and stores the presented refresh token unless the grant rotated it, never an empty one; the row it writes over is the one presented exactly when nobody intruded |
| RefreshFlight.StepKeepsInv | internal/app/login.go:339-416 | every step of read, lock, re-read, exchange, persist, login and removal keeps the protocol invariant |
| RefreshFlight.FailedPersistRepeatsExchange | internal/app/login.go:407-412 | a failed persist lets the next caller exchange the same version again: the bound is met |
| RefreshFlight.PersistFindsRowIff | internal/app/login.go:389-412 | in every run a persist finds the row its caller re-read exactly when no login or removal of that credential came between |
| RefreshFlight.PersistDestroysIff | internal/app/login.go:389-412 | a persist brings a removed row back, or destroys the blob of a login that came between, exactly when a login or removal came between |
| RefreshFlight.LoginDuringExchangeLost | internal/app/login.go:389-412 | from any idle reachable state a login during an exchange ends in no row |
| BreakerCircuit.Circuit.Record | internal/breaker/breaker.go:292-367 | one record: lazy transition, absorbing terminal, success, promotion, counting, cooldown |
| BreakerCircuit.TerminalIffCondemned | internal/breaker/breaker.go:292-345 | over any history without Clear a key is terminal exactly when some outcome named a reason or was a non-retryable credential failure arriving as at least the N-th counted failure since the last success |
| BreakerCircuit.CondemnedForGood | internal/breaker/breaker.go:301-345 | it then stays terminal with the reason of the first such outcome |
| BreakerRuns.KeyTerminalIffCondemned | internal/breaker/breaker.go:292-446 | in every run of breaker calls a key is terminal exactly when an outcome recorded on it since its last Clear condemned it, with the reason of the first |
| BreakerAnswers.OutageOpensUntil | internal/breaker/breaker.go:347-366 | in every run: after a failure that opens a cooldown on a key shown closed or half-open, the key shows open and refuses exactly until now plus Retry-After, or plus the jittered backoff for the failures since the last success; from then on it shows half-open and admits one caller |
| BreakerAnswers.WaitIsBackoff | internal/breaker/breaker.go:347-383 | for bases under 2^33 ns that wait is Retry-After if given, else jitter(min(Base*2^min(f-1,30), Max)) |
| BreakerAnswers.OutageKeepsEnd | internal/breaker/breaker.go:356-363 | such a failure on a key that is still open changes nothing of what the key shows or admits |
| BreakerAnswers.StrikeBansIff | internal/breaker/breaker.go:332-345 | a non-retryable credential failure takes the key out of service exactly when it is at least the N-th failure since the last success; short of that it is a mere look |
| BreakerAnswers.FinalCondemns | internal/breaker/breaker.go:318-325 | an outcome with a reason takes the key out of service |
| BreakerAnswers.IgnoredIsALook | internal/breaker/breaker.go:312-331 | a failure of the request, or a non-retryable one of the provider, leaves the key as a look would |
| BreakerAnswers.CleanKeyAdmits | internal/breaker/breaker.go:303-309 | a key in service with nothing recorded since its last Clear, or a success last, shows closed and admits everybody at any time |
| BreakerAnswers.CandidateKeys | internal/breaker/breaker.go:401-446 | the keys of a candidate and those an outcome is recorded on, in terms of the key's fields |
| BreakerAnswers.HistoryGrowsIff | internal/breaker/breaker.go:388-446 | the history of a key is what the calls brought to it since its last Clear, in order |
| BreakerAnswers.AllowIffEachKeyWould | internal/breaker/breaker.go:455-474 | allow grants exactly when each key asked alone at its own clock reading would |
| BreakerCircuit.CooldownHolds | internal/breaker/breaker.go:347-366 | failures and questions before the end of a cooldown neither move that end nor admit anyone |
| BreakerCircuit.ProbeEndsIffResolved | internal/breaker/breaker.go:301-366 | which records free an outstanding half-open probe, and that the others leave it taken |
| BreakerCircuit.UnresolvedProbeBlocks | internal/breaker/breaker.go:240-253 | while no record resolves it an outstanding probe blocks the key, whatever time passes |
| BreakerCircuit.CooldownIsIdealIff | internal/breaker/breaker.go:371-383 | the 64-bit backoff is min(Base*2^min(f-1,30), Max) exactly unless the shift wraps to a positive value below Max |
| BreakerCircuit.SmallBaseBacksOff | internal/breaker/breaker.go:371-383 | for bases under 2^33 ns it is that, and never decreases along a streak |
| BreakerCircuit.WideBaseCollapses | internal/breaker/breaker.go:371-383 | a base of 2^34+1 ns collapses to about a second at the 31st failure |
| Breaker.Breaker.AllowKey | internal/breaker/breaker.go:231-237 | reserve one key after its lazy transition |
| Breaker.Breaker.Allow | internal/breaker/breaker.go:455-474 | reserve every key of a candidate, or roll back |
| Breaker.Breaker.RecordKey | internal/breaker/breaker.go:292-299 | record one outcome on one key, creating it when absent |
| Breaker.Breaker.Record | internal/breaker/breaker.go:436-446 | fan an outcome out over the candidate's keys |
| BreakerRuns.AllowAllOrNothing | internal/breaker/breaker.go:455-474 | allow grants exactly when every key admits; a denial leaves every circuit as found or as a look would have left it |
| BreakerRuns.OneProbeAtATime | internal/breaker/breaker.go:231-261 | between two grants of a half-open probe some record resolved it or Clear reset the key |
| BreakerRuns.LazyMatchesEager | internal/breaker/breaker.go:211-253 | with a clock that never goes back every call is answered as by an automaton that half-opens circuits on its own |
| BreakerRuns.TickHalfOpensAtOnce | internal/breaker/breaker.go:208-216 | that automaton never shows an expired cooldown |
| BreakerRuns.BackwardClockParts | internal/breaker/breaker.go:211-216 | for every clock that goes back across the end of a cooldown the answers differ |
| StableSorting.StableSortUnique | internal/router/strategies_sequential.go:36-41 | a stable sort's contract determines its result |
| StableSorting.SortIsStableSort | internal/router/strategies_sequential.go:36-41 | the sort used here meets that contract |
| RouteOrder.OrderBy | internal/router/strategies_sequential.go:34-50 | sort the expanded candidates and render them |
| RouteOrder.ComparisonsAreWeakOrders | internal/router/strategies_sequential.go:34-277 | the comparisons of priority, fallback, fusion, pipeline, cost and auto are weak orders |
| RouteOrder.OrderIsPermutation | internal/router/strategies_sequential.go:20-26 | no sorted strategy drops, repeats or invents a candidate |
| RouteOrder.OrderIsDeterministic | internal/router/strategies_sequential.go:20-50 | with distinct keys no sorted strategy's order depends on the order of expansion |
| RouteOrder.ComparisonsTieKeys | internal/router/expand.go:124-131 | their comparisons tie only candidates with one key |
| RouteOrder.Demote | internal/router/resolver.go:233-249 | compatible candidates first, both halves in the strategy's order, nothing dropped |
| RouteOrder.DemotedSuitsFirstIff | internal/router/resolver.go:233-249 | for orders with and without credentials: after demotion no incompatible candidate stands before a compatible one exactly when, among those the map does not call compatible, none did before |
| RouteDirections.DemotedIsDirected | internal/router/resolver.go:233-249 | for every strategy but fill-first: demotion puts out the candidates whose last expanded entry is compatible, then the others, and in each half nothing stands before what the strategy does not let it precede |
| RouteOrder.FilledCandidatesNeverDemoted | internal/router/resolver.go:233-249 | demotion leaves an order in which every candidate has a credential as it is |
| RouteGroups.GroupByStep | internal/router/strategies_structural.go:153-181 | non-empty groups by strictly ascending step, each in the given order |
| RouteGroups.GroupingIsPermutation | internal/router/strategies_structural.go:153-181 | the groups together hold every candidate exactly as often as the order did |
| RouteGroups.GroupFitsFirst | internal/router/strategies_structural.go:170-178 | each group of a demoted order is itself compatible-first |
| RouteGroups.StepsAreOriginsIff | internal/router/strategies_structural.go:154-157 | every candidate is grouped under the step it came from exactly when candidates that share a key share the step; the same for compatibility |
| RouteGroups.ResolveStructural | internal/router/resolver.go:146-176 | fusion panels or pipeline stages: one ascending step each, compatible first, together exactly the survivors, each in the stage of its own step exactly when no two steps share a key; and exactly when fusion is refused |
| RouteGroups.SharedModelMergesSteps | internal/router/strategies_structural.go:154-157 | two steps naming one provider and model become one stage |
| RouteTurns.Cursor.NextRR | internal/router/cursor.go:40-56 | hand out the cursor and advance it modulo the tier size |
| RouteTurns.Cursor.RoundRobin | internal/router/strategies_sequential.go:85-114 | each tier in step order, rotated to its own cursor, which moves on by one |
| RouteTurns.RoundRobinIsPermutation | internal/router/strategies_sequential.go:85-114 | round-robin drops and repeats nobody |
| RouteTurns.RoundRobinIsFair | internal/router/cursor.go:40-56 | over any run of calls in which a key keeps n candidates each index is handed out the floor or ceiling of an n-th of the time |
| RouteTurns.RoundRobinLeadsFairly | internal/router/strategies_sequential.go:85-114 | over any run of resolves in which a tier keeps its n candidates, from any cursors, each of them comes first in the tier the floor or ceiling of an n-th of the time |
| RouteTurns.TiersAreIndependent | internal/router/strategies_sequential.go:96-112 | the other tiers of a resolve do not change whom a tier puts first |
| RouteTurns.RRKeyInjective | internal/router/cursor.go:33-35 | different combos or tiers never share a cursor |
| RouteTurns.Cursor.NextFill | internal/router/cursor.go:60-76 | the same hand-out for fill-first's own cursor |
| RouteTurns.Cursor.FillFirst | internal/router/strategies_sequential.go:198-230 | each row, in step, provider and key order, takes the account its cursor stands at |
| RouteTurns.FillFirstIsPermutation | internal/router/strategies_sequential.go:198-230 | but for the accounts written in, fill-first drops and repeats nobody |
| RouteTurns.FillFirstStaysIff | internal/router/cursor.go:60-76 | two neighbouring rows of one provider and step get the same account exactly when there is at most one |
| RouteTurns.FillFirstEscapesDemotion | internal/router/resolver.go:233-249 | a fill-first order with an incompatible candidate in front of a compatible one keeps it there |
| RouteDraws.WeightedDraw | internal/router/strategies_sequential.go:150-187 | the draw without replacement by cumulative weights, or heaviest first without a random source |
| RouteDraws.WeightedOrder | internal/router/strategies_sequential.go:130-145 | sort by key, draw, render |
| RouteDraws.DrawIsProportional | internal/router/strategies_sequential.go:168-183 | in every round exactly as many random values select a candidate as it weighs |
| RouteDraws.DrawIsPermutation | internal/router/strategies_sequential.go:165-186 | the whole draw is a permutation |
| RouteDraws.PowerOfTwo | internal/router/strategies_sequential.go:291-326 | sort by key, take the answer of the comparison as the position in every round, render; stable order without a random source |
| RouteDraws.TakesBetterIff | internal/router/strategies_sequential.go:313-340 | the order is that of taking the better of the two drawn in every round exactly when each better one stood where the code looks |
| RouteDraws.TakesWorse | internal/router/strategies_sequential.go:313-340 | of two candidates drawn second first, the worse is taken |
| RouteDraws.TakesFromFront | internal/router/strategies_sequential.go:309-325 | whatever is drawn, only the first two of those remaining are ever taken |
| RouteStrategies.Order | internal/router/resolver.go:216-228 | the order of each of the ten strategies, under the cursor lock |
| RouteDirections.EveryOrderIsDirected | internal/router/strategies_sequential.go:34-431 | every order of every strategy renders the survivors rearranged so that, by strategy, no later step stands before an earlier one, no dearer or unpriced before a cheaper priced, no lower score before a higher, without a random source no lighter before a heavier; ties ascend by key; only fill-first writes credentials in |
| RouteRounds.TurnGoesRound | internal/router/strategies_sequential.go:98-118 | a round-robin tier's turn goes round its candidates in key order from where its cursor stands, 0 at first |
| RouteRounds.FillFirstGoesRound | internal/router/strategies_sequential.go:198-230 | a fill-first row takes the account as many places behind its cursor as rows of its provider and step precede it, or none if there is none |
| RouteRounds.WeightedRound | internal/router/strategies_sequential.go:130-188 | round j of the weighted draw takes, of the candidates not yet drawn in key order, the one in whose stretch the drawn value falls when their own weights are laid end to end |
| RouteRounds.PressureRound | internal/router/strategies_sequential.go:291-349 | round j of power of two choices draws two different candidates of those left and takes the second of all left if the second drawn is under less pressure, else the first |
| RouteStrategies.EveryStrategyKeepsSurvivors | internal/router/resolver.go:216-249 | all ten strategies followed by demotion put out exactly the survivors, up to the accounts fill-first writes in, and all but fill-first put no incompatible candidate before a compatible one |
| RouteStrategies.ResolveLinear | internal/router/resolver.go:127-140 | the plan of a linear strategy, or no candidate |
| Dispatch.RunLeaf | internal/dispatcher/dispatcher.go:141-225 | the failover loop computes the specified leaf run |
| Dispatch.TryOne | internal/dispatcher/dispatcher.go:142-214 | one pass of the loop: skip, build, call, report, wait |
| Dispatch.Execute | internal/dispatcher/dispatcher.go:116-122 | a plan runs as fusion, pipeline or leaf, recursively |
| Dispatch.RunPanels | internal/dispatcher/structural.go:118-144 | panel outputs in panel order |
| Dispatch.RunPipeline | internal/dispatcher/structural.go:201-228 | stages in order, each fed the previous response, only the last returned |
| Dispatch.RunCounts | internal/dispatcher/dispatcher.go:116-225 | every nested plan makes at most its summed min(MaxRounds, attempts) calls, and reports each call and failed build once, but for at most one when a streaming run wins |
| Dispatch.LeafIsFailover | internal/dispatcher/dispatcher.go:141-225 | the calls of a leaf run through its attempts in order; a winner or request-scoped refusal is the last call; an exhausted run has a last error |
| DispatchTraces.LeafTrail | internal/dispatcher/dispatcher.go:130-225 | a leaf takes up its candidates in order, passes none over, calls each it can with the request, and ends on a cancellation, an answer or a request-scoped failure, or out of calls or candidates, with the skips it saw and its last failure |
| DispatchTraces.RunReports | internal/dispatcher/dispatcher.go:160-214 | in every run of every plan each call and failed build is followed at once by one report on the same candidate with its result, except the answer a streaming run ends with |
| DispatchTraces.PipelineStages | internal/dispatcher/structural.go:201-228 | a pipeline of any plans: the first stage gets the request, each later one what feeding the answer before it into the request before it makes; a stage runs only if the one before won; only the last may stream; its response is returned, with the attempts of all |
| DispatchTraces.PipelineWires | internal/dispatcher/structural.go:201-228 | for leaf stages, in the events alone: every call of stage k carries w_k, with w_0 the request and w_(k+1) fed from w_k and the answer of stage k's last call; the response is the last stage's answer, counting all calls |
| DispatchTraces.FusionPanels | internal/dispatcher/structural.go:45-144 | a fusion of any plans: every panel gets the request; none succeeded is an error; without a judge the first success is the response; else the judge's, on the request made of the outputs; more than 8 panels are refused without a call |
| DispatchTraces.FusionWires | internal/dispatcher/structural.go:45-144 | the same for leaf panels and judge, in the events alone: whose calls carry what, and whose last answer is whose output |
| Dispatch.AttemptsAreCalls | internal/dispatcher/structural.go:201-228 | without fusion the reported attempt count is the number of upstream calls |
| Dispatch.FusionAttemptsIff | internal/dispatcher/structural.go:46-104 | in one run, what a winning fusion claims: its panels, or its successful panels and the judge's attempts; and when that is the number of upstream calls |
| Dispatch.FusionClaimsCallsIff | internal/dispatcher/structural.go:46-104 | a fusion of single-step panels, judged or not, always claims its upstream calls exactly when it has one panel with one attempt |
| Dispatch.FusionOverstatesAttempts | internal/dispatcher/structural.go:82-104 | fusion without a judge counts a panel that called nobody |
| Quota.Recorder.Record | internal/quota/recorder.go:92-134 | one delivery: the idempotency gate and the window updates |
| Quota.Recorder.ApplyLocked | internal/quota/recorder.go:161-196 | fold one usage into every declared window |
| Quota.Recorder.ApplyRetryHint | internal/quota/recorder.go:255-275 | a hint sets the reset and empties the window unless a header owns it |
| Quota.Recorder.ApplyHeader | internal/quota/recorder.go:225-248 | headers overwrite their windows |
| Quota.Recorder.SetTerminal | internal/quota/recorder.go:299-313 | mark one credential terminal, unless the credential or the code is empty |
| Quota.Recorder.Check | internal/quota/filter.go:68-100 | the filter's decision for one credential |
| Quota.UsedIsClampedSum | internal/quota/recorder.go:92-220 | within one period Used is min(Limit, sum of the first delivery of each attempt key), unclamped for Limit 0 |
| Quota.ReplayChangesNothing | internal/quota/recorder.go:107-120 | redelivering an attempt changes nothing |
| Quota.DeliveryOrderIrrelevant | internal/quota/recorder.go:92-220 | the deliveries of one period may come in any order |
| Quota.BlocksExactlyAtCutoff | internal/quota/filter.go:86-98 | the filter blocks exactly when a used credential has a limited window whose sum reached (1 - cutoff) of it |
| QuotaPeriods.WindowCountsItsPeriod | internal/quota/recorder.go:161-220 | whatever the times of the deliveries: a window holds the clamped sum of its current period, the first period opened by the first delivery that counts, each lasting the declared duration, the next opened by the first that counts after its end |
| QuotaPeriods.BlocksIff | internal/quota/filter.go:68-100 | in every run of deliveries and terminal marks the filter blocks a credential exactly when it was marked terminal or a limited window has used up (1 - cutoff) of its limit in its current period |
| Quota.HintOutlivesReset | internal/quota/recorder.go:182-191 | a retry hint is never lifted by later deliveries, and blocks nothing when the window was new |
| Quota.HintTouchesOnly | internal/quota/recorder.go:255-275 | a hint leaves every other window and credential alone, and its own window when a header owns that |
| Quota.HeaderLiftsHint | internal/quota/recorder.go:225-248 | the headers of a response lift a hint exactly when one is for its window, which is then what the last of them says |
| Sse.Stream.ReadEvent | internal/executors/stream.go:168-226 | one event, line by line |
| Sse.Stream.Recv | internal/executors/stream.go:103-139 | the next chunk or the terminal outcome, which is then final |
| SseEvents.EventSays | internal/executors/stream.go:168-226 | what the lines of an event say however they are written: last event name, last id, data joined by line feeds; comments, other fields, the space after the colon and carriage returns do not matter |
| SseEvents.EventArrives | internal/executors/stream.go:103-139 | such an event arrives as that chunk, is skipped when all three are empty, and ends the stream when it is a nameless sentinel |
| Sse.WriteChunk | internal/gateway/gateway.go:339-358 | one frame |
| SseEvents.FrameIsLaidOut | internal/gateway/gateway.go:339-358 | a frame, byte for byte |
| Sse.Relay | internal/gateway/gateway.go:277-313 | the relay loop with response gates |
| SseRoundTrip.FrameReadsBackIff | internal/gateway/gateway.go:339-358 | for every chunk: its frame reads back as the chunk, what follows left over, exactly when no field holds a line feed, ends in a carriage return or outgrows a line, and the chunk is neither empty nor the sentinel |
| SseRoundTrip.WrittenDecodesIff | internal/executors/stream.go:103-225 | for every list of chunks: decoding what the gateway writes for them gives them back exactly when each meets that condition |
| SseRoundTrip.RelayDecodesIff | internal/gateway/gateway.go:277-313 | for every upstream body and all gates: a client decodes exactly the chunks the relay sent when and only when each of them meets it |
| SseRoundTrip.PassedDecodesIff | internal/gateway/gateway.go:277-313 | without gates in its way an upstream stream reaches the client whole exactly when every chunk of it meets it |
| SseRoundTrip.RelayedIsFrames | internal/gateway/gateway.go:277-313 | for every upstream body and all gates the relay writes the frames of what it sends, and one sentinel unless an error or a relayed sentinel stands for it |
| SseEvents.SentChunkByChunk | internal/gateway/gateway.go:277-313 | what is sent, chunk by chunk: passed, with another body, or not at all, as the gates judge each by its number and data, until one aborts; then, or when the stream breaks off, an error comes last |
| SseRoundTrip.RelayTwiceIsOnceIff | internal/gateway/gateway.go:277-313 | framable output goes through a second relay byte for byte exactly unless the first ended in an error |
| SseRoundTrip.TwoDataLinesCut | internal/gateway/gateway.go:351-353 | an ordinary event with two data lines, relayed, loses the second |
| Sse.DecodeUndoesEncode | internal/executors/stream.go:103-225 | the k-th Recv over written frames and the sentinel returns the k-th chunk, then a clean end forever |
| Sse.ReadFrame | internal/executors/stream.go:168-225 | reading one frame without line feeds in its fields returns its chunk less trailing carriage returns, or fails on a line too long, and leaves what follows |
| StreamLife.StreamSafety | internal/executors/stream.go:65-161 | in every interleaving the body is closed at most once, a watcher lives only inside its event read, and Recv returns chunks followed by copies of one outcome |
| StreamLife.TerminalIsFinal | internal/executors/stream.go:155-162 | a terminal outcome never changes |
| StreamLife.OnlyConsumerRecords | internal/executors/stream.go:155-162 | only the consumer's own steps ever set it |
| StreamLife.BlameIsDeserved | internal/executors/stream.go:267-277 | a timeout is reported only after the watcher fired, a cancellation only after a close |
| StreamLife.OurCloseNeverBlamesPeer | internal/executors/stream.go:267-277 | a read error caused by closing the body is a timeout or a cancellation, never a peer failure |
| StreamLife.NeverDeadlocked | internal/executors/stream.go:237-290 | nobody waits in a state where nobody can move |
| StreamLife.InternalStepsRunOut | internal/executors/stream.go:237-290 | the steps that resolve a wait run out, so every wait ends |
| Envelope.DecodeUndoesEncode | internal/secret/envelope.go:334-342 | unpadded base64 decoding undoes encoding for every length |
| Envelope.ParseUndoesEncode | internal/secret/envelope.go:228-292 | parsing undoes encoding for records of every length |
| Envelope.ParseEnvelope | internal/secret/envelope.go:228-277 | what parses has parts of the pinned sizes |
| EnvelopeLayout.ParsesIff | internal/secret/envelope.go:228-277 | exactly the texts enc:v1:a:b:c whose parts decode to an IV, a blob of version 1 and a tag of the pinned sizes parse, and to those parts |
| EnvelopeLayout.EnvelopeIsLaidOut | internal/secret/envelope.go:282-295 | the stored text and the blob in it, byte for byte |
| EnvelopeLayout.EncodeIsBase64 | internal/secret/envelope.go:334-334 | the text of some bytes is their bits in groups of six, zero-filled, each the letter of the RFC 4648 alphabet it numbers |
| Envelope.RotationKeepsMeaning | internal/secret/envelope.go:76-221 | after any rotations the record is byte for byte what was sealed and opens under the last key to the plaintext exactly when that key is 32 bytes |

## Left out

- HTTP, SQLite, TLS, keyring and file custody, OAuth endpoints, the GUI, commands and message catalogs: plumbing around the layer.
- The redaction gate, configuration parsing, obfuscation and JSON rewriting: they rest on library regex and JSON.
- Scores, latency and the auto strategy's arithmetic: floating point; the order is modelled for any score (`RouteOrder.OrderBy`).
- Automatic resolution of a request that names no combo: the auto order and demotion over one model step, with one round.
- Scores and reason texts of candidates: they annotate and decide nothing.
- The slice that the sorted strategies reorder in place: its later readers look candidates up by key.
- Several concurrent saves of combos: the source does not serialise its reads and writes; one operation is one step here.
- Regular expression of combo names: modelled as a character test.
- ComboStore.RunsStayAcyclic: operations whose ID is empty or the name; ComboStore.RunsAcyclicIff is about all of them.
- ComboStore.StepKeepsAcyclic: likewise; ComboStore.StepKeepsAcyclicIff is about every operation.
- Lock registries of several processes on one database: each process has its own, so refresh is single-flight per process.
- RefreshFlight.SingleFlight: access tokens never repeat, as the protocol's comparison of versions assumes.
- The wrapping of a refresh failure into typed errors, and the account metadata copied onto the refreshed row.
- Breaker.Breaker.Allow: one step, with the keys' locks not modelled; releasing a probe can free another caller's slot between two
  locks.
- RetryAfter of the breaker and of the quota filter: reads of fields already modelled.
- Dispatch.RunPanels: panels run one after another here; in the source they run in parallel, each on its own plan, sharing only
  what a World answers. Credential selection inside one attempt is one answer of the World.
- The streaming wrapper that records usage at the end of a stream.
- The durable attempt and window store behind the recorder, and the state it reloads after a restart.
- Sse.Stream.Recv: trimming the sentinel considers ASCII blanks only.
- The payload of the error frame a broken upstream produces: a fixed text here.
- Time limits of the idle watcher: it may fire at any moment of an event read.
- Authenticity of the AEAD: nothing is claimed about opening under a wrong key or after tampering.
