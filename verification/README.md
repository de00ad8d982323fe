# Configstate controller of a Horizon node, in Dafny

This project models the configstate controller of the Horizon node agent (`api/path_configstate.go`).
The controller does two things:

- It gives the view of a node's configuration state, which is `configuring` or `configured`.
- It handles a request to change that state.

An update first looks the node's device record up in the local store. It then checks the request in three steps:

1. Is the requested value one of the two states?
2. Is the request a no-op?
3. Is the request the one supported change, `configuring` to `configured`?

When the device was registered with a pattern, the update then auto-configures the node:

1. It fetches the pattern from the exchange.
2. It resolves every version choice of every workload built for the node's architecture into API specs, which name the microservices the workload needs.
3. It folds those lists into one complete list. Shared singletons are replaced and exact duplicates are merged away.
4. It creates one service per entry. Each service is named from the spec's URL, organization and version.

Only when all of that succeeds does the update write the new configstate to the store (`SetConfigstate`). Service creation also changes the local store on the way.

The model is pure.

- Everything the controller consults outside itself is a field of a `Collaborators` value.
  - The device record the local store returns is a value.
  - The node's architecture is a string.
  - The exchange id, the pattern lookup, the workload resolver, the two spec-list operations, service creation and the configstate write are functions.
- Every run of the update returns its response together with the trace of collaborator calls it made, in order.
- The properties are stated over that response and that trace: which calls happen and in which order, what each failure is reported as, and that the configstate write is made at most once, last, and only after everything before it succeeded.

Modules:

- `Results`: the `Result` type.
- `States`: the two state values and the two state-change predicates.
- `ServiceNames`: `makeServiceName`, with models of Go's `strings.SplitN`, `TrimSuffix` and `Replace` for a one-character separator.
- `SpecLists`: API specs, exact duplicates, and the reference `MergeWith`.
- `Configstates`: the data model, the view, the resolution and creation loops, and the update.
- `ConfigstateProperties`: the properties of the update.
- `ProvisionAsWritten`: the creation loop as the source writes it (see Findings).

## Model

| member | source | states |
|---|---|---|
| States.NoOpIsSameState | api/path_configstate.go:19-24 | A state change is a no-op exactly when it names the same state twice. |
| States.OnlyForwardChangeIsValid | api/path_configstate.go:16-31 | The only valid change is configuring to configured. It is never a no-op, it only involves the two state values, and the reverse change is not valid. |
| States.StateValueChangesClassified | api/path_configstate.go:16-31 | Over the two state values, every requested change is exactly one of: a no-op, the valid forward change, or the unsupported reverse change. |
| Configstates.FindConfigstateForOutput | api/path_configstate.go:33-52 | The view fails only when the store read fails. With no device recorded it reports configuring; otherwise it reports the recorded configstate. |
| ConfigstateProperties.UnreadableDeviceIsSystemError | api/path_configstate.go:66-68 | When the device record cannot be read, the view fails with the read's error and the update is a system error carrying it, with no call after the lookup. |
| ConfigstateProperties.NoDeviceMeansNotFound | api/path_configstate.go:66-71 | With no device recorded, the view reports configuring and the update is a not-found error. The update makes no call after the lookup. |
| ConfigstateProperties.StateValueCheckedFirst | api/path_configstate.go:79-80 | A requested value other than the two states is a user-input error on `configstate.state`. This holds even when the recorded state has that same value, because the value check comes before the no-op check. |
| ConfigstateProperties.NoOpHasNoEffect | api/path_configstate.go:81-83 | A no-op request returns the recorded configstate (the same one the view shows), with no notices and no call after the lookup. |
| ConfigstateProperties.ReverseTransitionRejected | api/path_configstate.go:84-85 | Configured to configuring is a user-input error naming both states, with no call after the lookup. |
| ConfigstateProperties.NoPatternWritesOnly | api/path_configstate.go:172-181 | A device without a pattern skips auto-configuration. The trace is exactly lookup then write, and a success has no notices. |
| ConfigstateProperties.PatternFetchFailures | api/path_configstate.go:94-106 | A failed fetch, a fetch that returns other than one pattern, and a fetch without the org/name key are each their own system error. Nothing is called after the fetch. |
| ConfigstateProperties.FetchedAutoConfigureShape | api/path_configstate.go:94-166 | Once the pattern is fetched, auto-configuration is the resolution loop, then, if that succeeds, the creation pass over its list. The resolution loop meets the flat description `ResolvedAs`. |
| Configstates.ResolveWorkloadsResolves | api/path_configstate.go:111-136 | Over the flat request list, the nested workload and choice loops make one resolver call per request, in order. If all resolve, they return the fold of the resolved lists into the running list. Otherwise they return the first failure as a system error, after the calls up to and including it. |
| Configstates.ResolveChoicesResolves | api/path_configstate.go:122-134 | One workload's version choices are resolved in order, one call each. If all resolve, the result is their lists folded in. Otherwise it is the first failure, after the calls up to and including it. |
| ConfigstateProperties.RequestsAreMatchingChoices | api/path_configstate.go:113-123 | A resolver request is made exactly for each version choice of each workload built for the node's architecture, with the device's requester id and token. This is both directions. |
| ConfigstateProperties.OtherArchWorkloadIgnored | api/path_configstate.go:115-118 | Removing a workload built for another architecture does not change the resolver requests. |
| ConfigstateProperties.ResolutionFailureStops | api/path_configstate.go:123-126 | The first request the resolver fails on ends the update with a system error naming that request. The calls are the resolutions up to that one; no service is created and the configstate is not written. |
| Configstates.FirstUnresolved | api/path_configstate.go:123-126 | Gives the first failing request's index, or the list length when all resolve. Every request before it resolves. |
| SpecLists.MergeWith | api/path_configstate.go:132-133 | The merged list starts with the running list. The rest are incoming entries that are not exact duplicates of it. The keys are the union of both lists' keys, and a merge of duplicate-free lists is duplicate-free. |
| SpecLists.MergeWithSelf | api/path_configstate.go:132-133 | Merging a list with itself gives the list back. |
| ConfigstateProperties.CompleteListHasNoExactDuplicates | api/path_configstate.go:128-133 | The complete list holds no exact duplicates. This assumes MergeWith as the merge, a singleton replacement that keeps both lists it returns duplicate-free, and duplicate-free resolved lists. |
| Configstates.ProvisionProvisions | api/path_configstate.go:142-166 | The creation loop makes one creation per spec, in order. If no creation blocks, it returns the created services' notices. Otherwise it returns the first blocking outcome's error, after the creations up to and including that one. |
| Configstates.OutcomeAtHistory | api/path_configstate.go:144-147 | Each creation sees the services attempted before it in the same pass. |
| Configstates.FirstBlocked | api/path_configstate.go:148-161 | Gives the index of the first creation that ends the pass, or the list length when none does. No creation before it ends the pass. |
| ConfigstateProperties.ProvisioningBlocked | api/path_configstate.go:144-161 | After full resolution, the first blocking creation ends the update with its error. The calls are the resolutions and then the creations up to that one, and the configstate is not written. |
| ConfigstateProperties.ProvisioningThenWrite | api/path_configstate.go:144-181 | When no creation blocks, the trace is lookup, fetch, every resolution, one creation per spec, and then the write. A successful write reports the created services' notices in list order. |
| ConfigstateProperties.DuplicateThenCreated | api/path_configstate.go:155-164 | An already registered dependency followed by a new one succeeds, with exactly the new one's notice. |
| ConfigstateProperties.MissingVariableLeavesStateUnwritten | api/path_configstate.go:150-153 | A dependency that needs variables configured is a user-input error naming it, and the configstate is never written. |
| ConfigstateProperties.CreatedServicesNamedFromSpecs | api/path_configstate.go:146-147 | The i-th creation of a pass is for the service built from the i-th spec's reference, organization and version. Its name is the one makeServiceName derives from them. |
| ConfigstateProperties.CreatedMessagesAreCreations | api/path_configstate.go:162-165 | Every notice returned is the Created outcome of some spec's creation. |
| ConfigstateProperties.CreationsGiveMessages | api/path_configstate.go:162-165 | Every Created outcome's notice is among those returned. |
| ConfigstateProperties.AutoConfigureWritesNoConfigstate | api/path_configstate.go:89-170 | Auto-configuration never makes the configstate write (`SetConfigstate`). The store changes that its service creations make are not configstate writes. |
| Configstates.UpdateConfigstate | api/path_configstate.go:55-183 | The device lookup is always the first call. An unreadable device record is a system error carrying the read's error. A missing record is a not-found error. Both make no call after the lookup. A success that made calls after the lookup ends with the write of the requested state for the device's id. |
| ConfigstateProperties.ConfigstateWrittenAtMostOnceLast | api/path_configstate.go:79-181 | The configstate write (`SetConfigstate`) is made at most once. When it is made, it is the last call, with the device id and the requested state, and only for the valid change after auto-configuration succeeded. A success is either a no-op with no calls after the lookup, or reports the written record's configstate. |
| ConfigstateProperties.SuccessReportsRequestedState | api/path_configstate.go:173-181 | With a configstate write that records the state it is given, every success reports the requested state. |
| ServiceNames.MakeServiceName | api/path_configstate.go:185-196 | The name is a slash-free path part, `_`, the organization, `_`, and the version. The path part is empty when the URL holds fewer than two `/`. Otherwise it is the text after the second `/` (the host included, for a URL with a scheme), less one trailing `/`, with the other `/` made `-`. |
| ServiceNames.ServicePathFollowsSecondSlash | api/path_configstate.go:187-192 | With the first two `/` at i < j, the path part is the text after j, less one trailing `/`, with the other `/` made `-`. |
| ServiceNames.ServicePathEmptyWithoutTwoSlashes | api/path_configstate.go:188-189 | Splitting a URL with at least two `/` gives three pieces. With fewer, the path part is empty. |
| ServiceNames.SplitNJoin | api/path_configstate.go:188 | Joining SplitN's pieces with the separator gives back the string. |
| ServiceNames.SplitNLength | api/path_configstate.go:188-189 | SplitN gives one piece more than there are separators, capped at n. |
| ServiceNames.SplitNPieces | api/path_configstate.go:188 | Every piece but the last is free of the separator. The last one is too, unless the cap was reached. |
| ServiceNames.TrimSuffix | api/path_configstate.go:190 | Exactly one trailing separator is dropped, when there is one. |
| ServiceNames.ReplaceAll | api/path_configstate.go:191 | Each separator becomes the replacement, and every other character stays. |
| ProvisionAsWritten.AsWrittenPanicsOnMissingVariable | api/path_configstate.go:142-166 | The loop as written panics exactly when the pass would end on a missing-variable outcome, after the same creations. Otherwise it gives the corrected loop's result. |
| ProvisionAsWritten.OneMissingVariableSpecPanics | api/path_configstate.go:149-153 | With one spec whose creation needs variables, the loop as written panics, where the corrected loop reports a user-input error naming the spec. |

`ResolvedAs` is the flat description of resolution:

- When every request resolves, the result is the list folded from the running list, after one resolver call per request, in order.
- Otherwise the result is the first failure as a system error, after the calls up to and including the failing one.

`ProvisionedAs` is the flat description of the creation pass:

- When no creation blocks, the result is the notices of the created services, after one creation per spec, in order.
- Otherwise the result is the first blocking outcome's error. Its calls are the creations up to and including that one, none of them undone.

## Left out

- The local store (BoltDB), the exchange and the workload resolver are functions in `Collaborators`; their own behaviour is not modelled.
- The node's architecture (`cutil.ArchString`) and the exchange id (`GetId`) are inputs.
- Logging (`glog`) has no effect on the result, so it is not modelled.
- The error handler's boolean result and the HTTP response are not modelled. An error is a `Failed` response carrying the error's class and its cause; message texts are not modelled.
- `ConvertFromPersistentHorizonDevice` is taken to return the recorded configstate unchanged.
- `ReplaceHigherSharedSingleton` is a collaborator; the version comparison it makes is not modelled. It returns both the running list and the resolved list, since it may change the caller's resolved list in place (line 130), and the merge at line 133 takes the list as it left it.
- The orchestrator's `MergeWith` is a collaborator. `SpecLists.MergeWith` follows the source comment at lines 132-133 and is the reference the duplicate-freedom lemma assumes.
- `CreateService` and `NewService` are reduced to the outcome the pass-through error handler reports: created with a notice, duplicate, missing variable configuration, or other failure. Their own checks and store writes are not modelled.
- A request whose `state` field is absent makes line 79 dereference a nil `cfg.State`. The model takes the requested state as a string, so that case is not represented.
- The message slice's initial capacity (line 74) has no observable effect.
- ServiceNames.SplitN: only models a one-character separator and n >= 1, the only form `makeServiceName` uses.

## Findings

| source | as written | input that shows it | evidently intended | confidence | as-written member | corrected member |
|---|---|---|---|---|---|---|
| api/path_configstate.go:151 | The missing-variable branch type-asserts `err`, the pattern fetch's error, which is nil when the loop runs. A Go type assertion on a nil interface panics. | A pattern whose complete list holds one spec whose service creation reports missing variable configuration. | Assert `createServiceError` and report a user-input error naming the spec. | not executed | ProvisionAsWritten.AsWrittenPanicsOnMissingVariable | Configstates.ProvisionProvisions |
