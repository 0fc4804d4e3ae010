# Node agent: a verified model

The agent keeps a store of versioned placements (which client uses which backend) and drives a proxy so that
what runs matches the store. This project models its hard core in Dafny and proves, for all inputs, runs and
schedules, what that core promises. `dafny verify dfyconfig.toml` checks everything; nothing here executes the
agent.

## How it is organised

| part | modules | main results |
|---|---|---|
| placement protocol | `Applier`, `Convergence`, `Overlap`, `Shards`, `Snapshot` | `Converges`, `RefinesSerial`, `LoweredByOverlap`, `SnapshotIsExact` |
| graceful flip | `Flip`, `FlipLaws` | `FreshRunIsSafe`, `CoolsOnlyWhenDrained`, `QueriesBounded`, `SuccessMeansSwapped` |
| sing-box rendering | `Tags`, `Config`, `Build`, `Meaning`, `Merge`, `MergeLaws`, `ConfigText` | `BuildRoutesToPlacement`, `BuildSends`, `MergeAbsorbs`, `MergeKeepsOperatorRows`, `OperatorRowsSurvive`, `PrintParse` |
| external entry node | `EntrySpec`, `Agreement`, `EntryRuns`, `EntryProgress`, `EntryLimits`, `EntryActions`, `Coalescer`, `MergeRuns` | `EveryRunAgrees`, `DoneIsInForce`, `NothingIsDropped`, `EveryRunAdvances`, `EndOnCourseIff`, `NextFlushRepairs`, `EveryMergeRunAgrees`, `BatchEqualsOneByOne` |
| embedded entry proxy | `Fnv`, `EntryProxy`, `Rendezvous`, `ProxyActions`, `ProxyRuns` | `LiveMatchesRebuild`, `LiveFlowsMatchRebuild`, `EverPlacedIsRouted`, `PoolRemovalIsStable`, `ScoreTellsOctets`, `BreakerRefinesHistory` |
| traffic accounting | `Traffic` | `TrafficTelescopes` |

`Domain` holds the shared values and `Order` the sorting facts. The source's objects are classes whose methods
are proved against specification functions or step predicates; runs and schedules are sequences of those steps.
`Config` gives a sing-box config its meaning: first rule that names the user, then the selector's override or
default, then the outbound with that tag.

## What is taken as given

- Calls into the store, sing-box, NATS, the clock and the network are parameters (`Env`, `Delivery`): each may
  succeed or fail as the theorem says. The store is a map, a publication an entry in a log.
- A reload that succeeds drops earlier selections; one that fails leaves the loaded config as it was. sing-box
  accepts a selection on a selector that lists the target; its own validation of configs is not modelled.
- JSON is a value (RFC 8259), not text. The config hash tells apart the configs that are compared (`Separates`):
  the finitely many that are loaded or rendered in the run at hand. For any of them there is such a hash
  (`SeparatingHash`).
- In runs of the external entry node a flush is two steps, rendering and loading, and a flip is two, selecting and
  storing; anything may come in between. The reload of a batch and its store writes are one step.
- In those runs each client has one placement throughout (`Owners`), and a placement's next command comes after its
  last one was answered. `HandoverDisagrees` shows what the first excludes.
- Ids are ASCII. Where tags must not clash (`TagsDistinct`), ids in the text form of section 4 of RFC 9562 that
  do not differ in case alone suffice (`UuidsHaveDistinctTags`).
- Placement id and version determine a placement's content where a lemma says so (`Determined`, `Fair`).
- Ranging over a Go map or listing the store visits entries in any order.
- Durations and byte counts are unbounded integers; hashes are 64 bits wide.
- The items of a snapshot chunk are applied one after the other.

## Where a promise fails

Each has a lemma with the failing family and, where the property is of interest, its exact condition.

- A flip that is selected and stored while a flush is between its rendering and its reload is lost: the reload
  brings the client back while the store keeps the new backend (`FlipDuringFlushIsLost`; exact: `EndOnCourseIff`,
  `EndAgreesIff`). The next flush that no flip overlaps repairs it (`NextFlushRepairs`).
- A client is moved away by its selector, and back by a command whose selection fails: the rebuild finds an
  unchanged hash, loads nothing and stores the new backend (`FailedFlipBackDisagrees`). With every call successful,
  the same happens when one batch hands the moved client to another placement on the old backend
  (`HandoverDisagrees`). Exact: `SkipAgreesIff`, `AgreesIff`.
- Placements stored or deleted without telling sing-box, as after a failed command or by a snapshot, keep agreement
  exactly when they leave every route as it is (`WriteAgreesIff`, `DeleteAgreesIff`).
- A selector flip leaves the inbound's user list of a full rebuild exactly when the flow is unchanged
  (`FlipMatchesRebuildIff`).
- With several active placements per client `Build` takes the last and `MergeBase` the least backend id
  (`MergeAgreesWithBuild`).
- Merging a state without active clients keeps the users of the state before (`MergeAbsorbs`, `DepartedUsersStay`).
- With a config file that starts empty, the built selectors stay in the file for good: later selections are
  accepted and move nobody (`BuiltFileKeepsSelectors`, `MergedFlipMovesNobody`).
- A command without a version is never stale, so storing it lowers the version of its placement (exact:
  `SimpleLowersIff`); with versions throughout no run lowers any (`EveryRunAdvances`).
- A flip in the embedded proxy never changes the user's flow, so a command leaves its client with its flow exactly
  when it is not a flip that changes it (`FlowAfterIff`).
- A rebuild of the embedded proxy removes nobody (`RebuildExactIff`); a flip cancelled before its swap is stored
  without its route (`CancelledFlipIff`); a failed command delivered again at its version is recorded as applied
  but not executed (`SkippedIff`, `AppliedIsInForceIff`, `AppliedFlipIsRoutedIff`).
- A flip plan resumed after its swap or in an unknown phase succeeds without swapping (`ResumedSuccessSwapsIff`,
  `UnknownPhaseDoesNothing`); a drain-timeout error from the validation or the swap is reported as success
  (`SuccessMeansSwapped`).
- The last chunk of a snapshot, delivered again after its rebuild failed, removes what only earlier chunks
  mentioned (`RedeliveredLastChunk`); items of a snapshot with an empty id panic (`Consumer.Handle`).
- A stored version goes down exactly when a handler writes an older version than is stored by then, which takes
  another handler of the same placement between its read and its write (`LoweredByOverlap`; every pair of events
  has such a schedule: `OverlappingHandlersLoseUpdates`). Workers never overlap (`NeverTwoAtOnce`), but snapshot
  items and commands are not serialised against each other; without overlap every schedule is serial
  (`ApartIsSerial`).
- The bytes of a traffic report that could not be published are never reported (`DeliveredIff`).

Code and documentation differ in three places, and the model follows the code. `CHANGELOG.md:9` lists five flip
phases and a forced close after a drain timeout; the code has a sixth phase, `cool`, and no forced close.
`docs/adr/0005-embedded-singbox-entry.md:52-53` describes a flip as replacing the client's backend; the code adds
the new backend to the client's route and keeps the old one, so a destination moves only if the new backend
ranks first for it (`FlipMovesIff`). `README.md:10` says the old backend is removed after the drain; in the
embedded proxy cooling does nothing.

## Model

| member | source | states |
|---|---|---|
| `Tags.JoinSplit` | internal/wire/singboxgen/builder.go:281-290 | joining the parts of a split tag gives the tag back |
| `Tags.ParsedTagShape` | internal/wire/singboxgen/builder.go:281-290 | every tag that parses is `b-` client `-` backend, with four hyphens in each id |
| `Tags.ParsesShapedTag` | internal/wire/singboxgen/builder.go:281-290 | every tag of that shape parses, to those ids |
| `Tags.PrintParse` | internal/wire/singboxgen/builder.go:281-294 | parsing undoes printing, up to case, if and only if both ids have four hyphens |
| `Tags.PrintInjective` | internal/wire/singboxgen/builder.go:292-294 | printing is injective up to case on such ids |
| `Tags.PrintCollides` | internal/wire/singboxgen/builder.go:292-294 | other ids can share a tag |
| `Tags.LowerTells` | internal/wire/singboxgen/builder.go:292-294 | lower-casing forgets the case of letters and nothing else |
| `Tags.TagText` | internal/wire/singboxgen/builder.go:22-32 | the two tags spelled out for an example |
| `Order.LessIff` | internal/wire/singboxgen/merge.go:127-132 | ids compare by their first difference, and a proper prefix comes first |
| `Tags.SuffixIsParsedBackend` | internal/app/executor/entry_actions.go:181-194 | on tags that parse, the drain's suffix test is equality of the parsed backend |
| `Tags.SuffixCountIsBackendCount` | internal/app/executor/entry_actions.go:181-194 | the suffix count is the number of connections whose tag names the old backend |
| `Tags.OldBackendConnections` | internal/app/executor/entry_actions.go:181-194 | the loop sums exactly the entries that pass the suffix test, in any order |
| `Build.Validate` | internal/wire/singboxgen/builder.go:55-87 | no error if and only if the tag, the port, every backend and every active placement are complete, backend ids differ and active placements name listed backends |
| `Build.GatherUsers` | internal/wire/singboxgen/builder.go:122-141 | the active clients in ascending order, each with the flow of its first active placement |
| `Build.CollectActiveUsers` | internal/wire/singboxgen/builder.go:122-141 | the user entries of those clients, in that order |
| `Build.BuildOutbounds` | internal/wire/singboxgen/builder.go:169-232 | one block per client: an outbound per backend in id order, and a selector set to its last placement's backend |
| `Build.BuildRoute` | internal/wire/singboxgen/builder.go:234-273 | one rule per routable client, in ascending order |
| `Build.BuildConfig` | internal/wire/singboxgen/builder.go:34-53 | a config exactly for valid states, and which |
| `Meaning.UuidsHaveDistinctTags` | internal/wire/singboxgen/builder.go:22-32 | UUID-shaped ids that differ beyond case never share a tag |
| `Meaning.DispatchFollowsSelector` | internal/wire/singboxgen/builder.go:169-273 | a rendered config sends an active client to whichever backend its selector is set to |
| `Meaning.DispatchOfStranger` | internal/wire/singboxgen/builder.go:234-273 | and matches no rule for anybody else |
| `Meaning.BuildRoutesToPlacement` | internal/wire/singboxgen/builder.go:122-273 | each active client reaches the address and port of its last active placement's backend under its own uuid |
| `Meaning.ConfigCongruence` | internal/wire/singboxgen/builder.go:107-273 | the config depends on clients, chosen backends and flows alone |
| `Meaning.BuildIgnoresOrder` | internal/wire/singboxgen/builder.go:34-53 | with one active placement per client, any order or repetition of placements renders the same config |
| `ConfigText.BuildSends` | internal/wire/singboxgen/builder.go:169-273 | a client reaches the backend of the last active placement in the list, under its own uuid |
| `ConfigText.BuildSendsNobodyElse` | internal/wire/singboxgen/builder.go:234-273 | no rule names anybody without an active placement; such traffic leaves by the direct outbound |
| `ConfigText.SelectorOffers` | internal/wire/singboxgen/builder.go:195-232 | a client's selector offers exactly its outbound to every backend and blocking, and starts at its last placement's backend |
| `ConfigText.BackendsAscend` | internal/wire/singboxgen/builder.go:169-194 | backends are listed by ascending id |
| `ConfigText.BuildListsUsers` | internal/wire/singboxgen/builder.go:107-141 | one inbound with one row per active client, ascending: uuid as name and uuid, and the vision flow if and only if its first active placement is on REALITY |
| `ConfigText.MergeListsUsers` | internal/wire/singboxgen/merge.go:44-83 | the same rows in every inbound under the node's tag if there are any; every other inbound stays |
| `Merge.GatherPairs` | internal/wire/singboxgen/merge.go:107-146 | the distinct active (client, backend) pairs, by backend and then client |
| `Merge.MergeInbounds` | internal/wire/singboxgen/merge.go:44-83 | fails unless an inbound matches; otherwise only matching inbounds get the users, and only if there are any |
| `Merge.MergeOutbounds` | internal/wire/singboxgen/merge.go:85-146 | the base's own outbounds in order, then one per pair |
| `Merge.MergeRules` | internal/wire/singboxgen/merge.go:148-222 | one rule per pair, then the base's own rules in order |
| `Merge.MergeBase` | internal/wire/singboxgen/merge.go:22-42 | succeeds exactly on valid states and empty or mergeable bases, with which result |
| `Merge.MergeIgnoresOrder` | internal/wire/singboxgen/merge.go:22-42 | with one active placement per client, the order of placements does not matter |
| `MergeLaws.MergeAbsorbs` | internal/wire/singboxgen/merge.go:22-83 | a second merge erases the first if and only if the second state has a client, or the first had none, or its users were there already |
| `MergeLaws.MergeIdempotent` | internal/wire/singboxgen/merge.go:22-42 | merging the same state again changes nothing |
| `MergeLaws.DepartedUsersStay` | internal/wire/singboxgen/merge.go:71-73 | a base and two states for which the first merge shows through |
| `MergeLaws.LatestStateWins` | internal/wire/singboxgen/merge.go:22-42 | after any sequence of merges the file is the merge of the latest state into the original base, once it has a client |
| `MergeLaws.MergeKeepsFrame` | internal/wire/singboxgen/merge.go:22-176 | one merge leaves every other key, the inbounds' other fields, and the base's own outbounds and rules |
| `MergeLaws.MergesKeepFrame` | internal/wire/singboxgen/merge.go:22-176 | so does any sequence of merges, hence the REALITY block survives |
| `ConfigText.DynamicTagIff` | internal/wire/singboxgen/merge.go:18-20 | the agent claims exactly the tags that are `b-` or `backend-` followed by anything |
| `ConfigText.MergeKeepsOperatorRows` | internal/wire/singboxgen/merge.go:85-176 | a merge keeps, in order, exactly the base's outbounds and rules without such a tag, with the new outbounds behind and the new rules in front |
| `ConfigText.NewOutboundsAreExact` | internal/wire/singboxgen/merge.go:133-145 | the new outbounds are exactly one per client and backend with an active placement, field by field |
| `ConfigText.NewRulesAreExact` | internal/wire/singboxgen/merge.go:178-222 | and so are the new rules |
| `ConfigText.NewRowsAscend` | internal/wire/singboxgen/merge.go:127-132 | they stand by ascending backend id, then client id |
| `ConfigText.OperatorRowsSurvive` | internal/wire/singboxgen/merge.go:85-176 | no sequence of merges drops or adds a row that is not the agent's |
| `ConfigText.DirectAndBlockSurvive` | internal/wire/singboxgen/merge.go:85-100 | direct and block outbounds survive every sequence of merges |
| `MergeLaws.FirstDynamicRule` | internal/wire/singboxgen/merge.go:178-222 | a client's first dynamic rule names its backend of least id |
| `MergeLaws.MergeRoutesToLeast` | internal/wire/singboxgen/merge.go:85-222 | whatever the base and whatever was selected, a merged config sends each client to that backend under its own uuid |
| `ConfigText.MergeSends` | internal/wire/singboxgen/merge.go:85-222 | a merged config sends a client to the least backend id among its active placements in the list |
| `MergeLaws.MergeAgreesWithBuild` | internal/wire/singboxgen/merge.go:178-222 | both renderers send a client to the same place if and only if its last active backend is its least one |
| `MergeLaws.MergeMatchesBuild` | internal/wire/singboxgen/merge.go:85-222 | always so with one active placement per client |
| `EntrySpec.SeparatingHash` | internal/app/executor/coalescer.go:157-158 | for any finite set of configs some hash tells them apart |
| `EntrySpec.AnyListing` | internal/app/executor/coalescer.go:139-156 | any listing order of the store builds the same config |
| `EntrySpec.AnyRendering` | internal/app/executor/entry_actions.go:347-362 | and renders, built or merged, to the same |
| `Agreement.RenderInjective` | internal/app/executor/coalescer.go:157-172 | equal configs come from stores with the same active clients on the same backends, so an equal hash hides no move |
| `Agreement.RoutedIff` | internal/app/executor/entry_actions.go:142-179 | a client leaves by a backend if and only if the loaded config has a selector for it that is set there, by selection or by default |
| `Agreement.AgreesIff` | internal/app/executor/coalescer.go:139-179 | a node agrees with its store if and only if the loaded config was rendered for its active clients and every selector is set to the stored backend |
| `Agreement.InSyncAgrees` | internal/app/executor/entry_actions.go:72-179 | in an in-sync node every active client leaves by its stored backend and nobody else is routed |
| `Agreement.WriteAgreesIff` | internal/app/applier/applier.go:159-165 | a placement stored without telling sing-box keeps agreement if and only if it changes no route |
| `Agreement.DeleteAgreesIff` | internal/app/snapshot/consumer.go:188-198 | a placement deleted so keeps it if and only if it was not active |
| `Agreement.FlipIsServable` | internal/app/executor/entry_actions.go:142-179 | in an in-sync node the selection for an active client and a registered backend is one sing-box accepts |
| `Agreement.FlipKeepsSync` | internal/app/executor/entry_actions.go:142-179 | a flip by selector stays in sync without touching the loaded config |
| `Agreement.LoadSyncs` | internal/app/executor/coalescer.go:157-172 | loading a fresh render puts a node in sync whatever it ran before |
| `Agreement.SkipAgreesIff` | internal/app/executor/coalescer.go:157-172 | skipping a reload agrees with the store if and only if no active client's selector was moved off its stored backend |
| `EntryRuns.BeginEndIsFlush` | internal/app/executor/coalescer.go:139-179 | rendering and loading with nothing in between are a whole flush |
| `EntryRuns.SelectPutIsSwap` | internal/app/executor/entry_actions.go:94-108 | selecting and storing with nothing in between are a whole swap |
| `EntryRuns.StepKeepsInv` | internal/app/executor/entry_actions.go:72-323 | every command, stored flip, rebuild request, rendering and loading keeps the invariant, however they overlap |
| `EntryRuns.EveryRunOnCourseIff` | internal/app/executor/coalescer.go:139-179 | in every run, overlaps and all, a client is where its placement is headed if and only if its selector was moved since the last load or that load rendered it there |
| `EntryRuns.EndOnCourseIff` | internal/app/executor/coalescer.go:157-178 | after a flush, a client is where its placement is headed if and only if the reload was skipped and it has a selection, or the flush rendered it there |
| `EntryRuns.EndAgreesIff` | internal/app/executor/coalescer.go:157-178 | a flush that reloads ends in agreement if and only if no active client's stored backend differs from the one it rendered |
| `EntryRuns.StepKeepsCalm` | internal/app/executor/entry_actions.go:72-323 | every step that does not reload over a flip keeps every client where its placement is headed |
| `EntryRuns.EveryRunAgrees` | internal/app/executor/entry_actions.go:72-323 | in every run in which no flip overlaps a reload, after every event, each active client's effective outbound is its stored backend or the one just selected for it, although flips never reload and equal hashes skip |
| `EntryRuns.FlipDuringFlushIsLost` | internal/app/executor/coalescer.go:139-169 | every flip selected and stored between a flush's rendering and its reload is undone by the reload |
| `EntryRuns.OvertakingSchedule` | internal/app/executor/coalescer.go:139-169 | and every flip selected while a flush is under way has such a schedule |
| `EntryRuns.NextFlushRepairs` | internal/app/executor/entry_actions.go:212-220 | whatever was lost, the next flush that no flip overlaps restores agreement |
| `EntryProgress.SimpleApplyLands` | internal/app/executor/entry_actions.go:234-301 | a command that can be executed is selected and stored, queued as it is, or refused by the store; which of them |
| `EntryProgress.SimpleApplyRefuses` | internal/app/executor/entry_actions.go:234-256 | any other changes nothing: refused without id, with an unregistered backend or on a failed read, done already when not newer |
| `EntryProgress.SwapRouteLands` | internal/app/executor/entry_actions.go:72-138 | the same of a swap that can be executed |
| `EntryProgress.SwapRouteRefuses` | internal/app/executor/entry_actions.go:72-93 | and of any other |
| `EntryProgress.DoneIsInForce` | internal/app/executor/entry_actions.go:72-301 | a newer command that an in-sync node reports as done is stored, and its client leaves by its backend |
| `EntryProgress.SimpleQueuesRegistered` | internal/app/executor/entry_actions.go:238-242 | no simple application brings an unregistered backend into a batch |
| `EntryProgress.SimpleLowersIff` | internal/app/executor/entry_actions.go:247-254 | a command lowers a stored version if and only if it is stored without one of its own |
| `EntryProgress.FlushStores` | internal/app/executor/coalescer.go:173-178 | a successful flush stores every overlay |
| `EntryProgress.TakenIsOnItsWay` | internal/app/executor/coalescer.go:65-79 | a command that can be executed is on its way to the store as soon as it is taken |
| `EntryProgress.NothingIsDropped` | internal/app/executor/coalescer.go:81-179 | whatever happens next, it stays on its way or is stored, unless the flush that carries it fails |
| `EntryProgress.CommandArrives` | internal/app/executor/coalescer.go:81-179 | over any stretch of a run it is stored, lost in a failed flush, or still on its way |
| `EntryProgress.EveryRunAdvances` | internal/app/executor/entry_actions.go:83-90 | in every run a stored placement stays and changes only to a later version |
| `EntryRuns.Starts` | internal/app/executor/entry_actions.go:303-323 | an empty node and a freshly loaded one are agreeing starts |
| `EntryRuns.SkippedBatchIsInactive` | internal/app/executor/coalescer.go:157-172 | when the hash is unchanged no overlay of the batch is active |
| `EntryLimits.FailedFlipBackDisagrees` | internal/app/executor/coalescer.go:157-172 | every move away by selector and back after a failed selection leaves the client on the wrong backend |
| `EntryLimits.HandoverDisagrees` | internal/app/executor/coalescer.go:157-172 | so does, with every call successful, every batch that hands a moved client to another placement on its old backend |
| `EntryLimits.FlipMatchesRebuildIff` | internal/app/executor/entry_actions.go:142-179 | a flip leaves the user list of a rebuild if and only if the flow did not change |
| `EntryActions.ApplyPlacementOverlay` | internal/app/executor/entry_actions.go:364-379 | the placements other than the overlay's, and the overlay |
| `EntryActions.EntryActions.TrySelectorFlip` | internal/app/executor/entry_actions.go:142-179 | moves the selector exactly when the client is known, the backend registered and the selection accepted; otherwise changes nothing |
| `EntryActions.EntryActions.SwapRoute` | internal/app/executor/entry_actions.go:72-138 | the swap step: refused for a missing or mismatching id, stale, flipped and stored, or queued |
| `EntryActions.EntryActions.SimpleApply` | internal/app/executor/entry_actions.go:234-301 | the apply step: refused, stale, flipped and stored, or queued |
| `EntryActions.EntryActions.SelectOutbound` | internal/adapters/singbox/config.go:85-112 | a selection takes effect exactly when the selector exists, lists the target and the call goes through |
| `EntryActions.EntryActions.RenderWith` | internal/app/executor/entry_actions.go:329-362 | merged into the file if it has contents, built otherwise, from the placements as listed; an error exactly when neither is possible |
| `EntryActions.EntryActions.Overlaid` | internal/app/executor/coalescer.go:139-147 | the stored placements with all overlays on top, whatever order they are visited in |
| `EntryActions.EntryActions.Persist` | internal/app/executor/coalescer.go:173-178 | all overlays stored, or some of them and an error |
| `EntryActions.EntryActions.Load` | internal/app/executor/coalescer.go:157-178 | write, reload and remember the hash unless unchanged, then persist; a failed write or reload persists nothing |
| `EntryActions.EntryActions.FlushBatch` | internal/app/executor/coalescer.go:139-179 | uninterrupted, one flush is the specified step for the placements as listed, and the same for every listing with one placement per client |
| `Coalescer.RenderCoalescer.constructor` | internal/app/executor/coalescer.go:37-63 | a batch size of 256 unless given, no request waiting |
| `Coalescer.RenderCoalescer.DoFlush` | internal/app/executor/coalescer.go:98-113 | one flush answers every waiting request with its result and disarms the timer |
| `Coalescer.RenderCoalescer.Arrive` | internal/app/executor/coalescer.go:117-127 | a request that fills the batch flushes it at once; any other joins it, answers nobody, touches nothing, and the timer runs exactly while requests wait |
| `Coalescer.RenderCoalescer.Run` | internal/app/executor/coalescer.go:81-137 | in every run each request taken is answered exactly once, in order, or still waits; no batch exceeds its maximum; the timer empties the batch; cancellation, and nothing else, ends the run and leaves none waiting |
| `Coalescer.FlushLoadsRender` | internal/app/executor/coalescer.go:139-179 | a successful flush leaves the rendering of the new store loaded, with the selections so far if it was loaded already and none otherwise; a failed render, write or reload changes no placement |
| `Coalescer.BatchEqualsOneByOne` | internal/app/executor/coalescer.go:139-179 | a coalesced flush leaves the store and config of flushing its requests one by one |
| `MergeRuns.NoSelection` | internal/adapters/singbox/config.go:85-112 | no selection for a client is accepted on a config merged into a base without client selectors |
| `MergeRuns.StepKeepsInv` | internal/app/executor/entry_actions.go:347-362 | with renders merged into the file, every event keeps the invariant whatever fails but store writes |
| `MergeRuns.EveryMergeRunAgrees` | internal/app/executor/entry_actions.go:347-362 | in every run, from the first successful flush on, each active client reaches its stored backend under its own uuid, others follow the operator's rules, and the operator's config is preserved |
| `MergeRuns.MergedFlipMovesNobody` | internal/app/executor/entry_actions.go:142-179 | a selection on a merged config moves nobody |
| `MergeRuns.BuiltFileKeepsSelectors` | internal/app/executor/entry_actions.go:347-362 | a file built from empty keeps accepting such selections after any sequence of merges |
| `MergeRuns.MergedBatchEqualsOneByOne` | internal/app/executor/coalescer.go:139-179 | coalescing is invisible with a merged file too, if a client is active at the end |
| `Applier.Applier.PublishReport` | internal/app/applier/applier.go:180-202 | acknowledged exactly when the report went out |
| `Applier.Applier.Handle` | internal/app/applier/applier.go:105-178 | the store, counters, report and verdict of every case: foreign, undecodable, stale, idempotent, retryable, failed, applied |
| `Applier.ReportTells` | internal/app/applier/applier.go:131-177 | each report status if and only if its case: a later version stored, this version applied alike, executed and persisted, executed and ended fatally |
| `Applier.OutcomeTells` | internal/app/applier/applier.go:131-177 | what is stored afterwards in every case, applied or failed as the executor ended |
| `Applier.ReportReflectsStore` | internal/app/applier/applier.go:152-177 | the reported applied state is the stored one, unless a failure could not be written |
| `Convergence.StepAt` | internal/app/applier/applier.go:131-177 | one event leaves a placement alone, or at the larger version with the content of either |
| `Convergence.HoldsLatest` | internal/app/applier/applier.go:131-177 | after any events the store holds for each placement a highest version among what was stored and what landed |
| `Convergence.VersionsNeverDecrease` | internal/app/applier/applier.go:131-177 | a stored version never goes down |
| `Convergence.Converges` | internal/app/snapshot/consumer.go:202-217 | two histories in which the same contents landed, in any order and with any repetitions and failures, leave the same contents |
| `Convergence.ConvergesExactly` | internal/app/applier/applier.go:131-177 | with the no-op executor the stores are equal |
| `Overlap.UndisturbedIsAtomic` | internal/app/applier/applier.go:131-177 | a write that finds what its handler read does what atomic handling does |
| `Overlap.ApartIsSerial` | internal/app/snapshot/consumer.go:202-217 | while handlers of one placement do not overlap, every schedule is handling one after the other in the order of the writes |
| `Overlap.LoweredByOverlap` | internal/app/snapshot/consumer.go:202-217 | in every schedule a step lowers a stored version if and only if it writes an older one than is stored by then, and then another handler of the placement wrote a newer one between its read and its write |
| `Overlap.OverlappingHandlersLoseUpdates` | internal/app/snapshot/consumer.go:202-217 | every two events for one placement that would both be written have such a schedule, though one after the other the older is skipped |
| `Shards.DispatchedHome` | internal/app/applier/applier.go:95-103 | all deliveries for a placement go to one shard |
| `Shards.SharesShardIff` | internal/app/applier/applier.go:95-103 | commands share a shard if and only if the hashes of their placement ids agree modulo the pool |
| `Shards.UndecodedTakeTurns` | internal/app/applier/applier.go:95-99 | messages that cannot be decoded take turns |
| `Shards.QueuesStayBounded` | internal/adapters/nats/subscribe.go:80-97 | no queue ever holds more than sixteen messages |
| `Shards.NeverTwoAtOnce` | internal/adapters/nats/subscribe.go:80-114 | in every schedule no two workers handle one placement at once |
| `Shards.HandledInOrder` | internal/adapters/nats/subscribe.go:80-114 | in every schedule a placement's deliveries are handled in the order delivered |
| `Shards.RefinesSerial` | internal/adapters/nats/subscribe.go:80-148 | the store is always that of handling the finished deliveries serially, and in the end that of serial consumption in delivery order |
| `Shards.ShardIndex` | internal/adapters/nats/subscribe.go:136-148 | an index of an existing shard |
| `Snapshot.Consumer.TrackSeen` | internal/app/snapshot/consumer.go:158-168 | the ids seen so far in this snapshot, afresh when it changes, for every id; panics exactly when it must write to the missing set |
| `Snapshot.Consumer.ApplyItem` | internal/app/snapshot/consumer.go:202-217 | stored exactly when newer than what is stored |
| `Snapshot.Consumer.PruneAbsent` | internal/app/snapshot/consumer.go:170-200 | keeps exactly what was seen; nothing seen removes nothing; the seen ids are forgotten in every case |
| `Snapshot.Consumer.Handle` | internal/app/snapshot/consumer.go:90-156 | what is tracked, stored and pruned, and the result, in every case: foreign, panic, an item that fails, a failed prune, rebuild or report, success |
| `Snapshot.StepHolds` | internal/app/snapshot/consumer.go:202-217 | no item or command removes a placement or sets it back |
| `Snapshot.SnapshotIsExact` | internal/app/snapshot/consumer.go:90-217 | whatever commands are interleaved, with any executor that keeps its own placement, after the prune the keys are exactly the ids in the chunks, each at the snapshot's version or later |
| `Snapshot.EmptySnapshotRemovesNothing` | internal/app/snapshot/consumer.go:177-181 | a snapshot without items removes nothing |
| `Snapshot.RedeliveredLastChunk` | internal/app/snapshot/consumer.go:170-176 | a redelivered last chunk keeps the keys if and only if it is empty or mentions them all |
| `Flip.Orchestrator.constructor` | internal/app/flip/orchestrator.go:29-51 | the poll bounds, positive and in order |
| `Flip.Poll` | internal/app/flip/orchestrator.go:160-190 | another round follows only before the deadline, after a wait within the bounds |
| `Flip.Orchestrator.PollOnce` | internal/app/flip/orchestrator.go:160-190 | one round of the loop is the specified one |
| `Flip.Orchestrator.Drain` | internal/app/flip/orchestrator.go:146-191 | the loop is the specified drain; an unreachable backend is not queried |
| `Flip.Orchestrator.RunPhase` | internal/app/flip/orchestrator.go:117-144 | the result of each phase's action |
| `Flip.Orchestrator.Execute` | internal/app/flip/orchestrator.go:58-115 | invalid plans do nothing; others run the phases from theirs on, with this final phase, error and trace |
| `FlipLaws.WaitsStayInBounds` | internal/app/flip/orchestrator.go:146-191 | every wait is within the poll bounds through every doubling, cap and reset |
| `FlipLaws.DrainSchedule` | internal/app/flip/orchestrator.go:175-184 | n rounds in a row without progress wait the minimum doubled n times, at most the maximum; progress sets the wait back to the minimum |
| `FlipLaws.DrainHistory` | internal/app/flip/orchestrator.go:146-191 | every query but the last found connections; what the last found, the deadline and cancellation decide the error; and the time it all took |
| `FlipLaws.QueriesBounded` | internal/app/flip/orchestrator.go:146-191 | at most ceil(timeout / minimum) + 1 queries |
| `FlipLaws.EndBounded` | internal/app/flip/orchestrator.go:146-191 | the drain ends before the deadline plus one maximal wait, one timer's lateness and one query |
| `FlipLaws.ExactDrainEnds` | internal/app/flip/orchestrator.go:146-191 | before the deadline plus one maximal wait when timers are exact and queries instant |
| `FlipLaws.DrainOutcome` | internal/app/flip/orchestrator.go:146-191 | success means the last query saw none left; a timeout means it saw some, past the deadline |
| `FlipLaws.FreshRunIsSafe` | internal/app/flip/orchestrator.go:58-144 | the trace is a prefix of validate, swap, drain, cool, each after the success of the one before; the phase returned is the last completed one |
| `FlipLaws.SucceedsIff` | internal/app/flip/orchestrator.go:58-115 | a fresh flip succeeds if and only if all four actions do and the context lasts through every phase |
| `FlipLaws.CoolsOnlyWhenDrained` | internal/app/flip/orchestrator.go:117-191 | cooling follows a successful swap and a drain whose last query saw no connection, or an unreachable backend |
| `FlipLaws.SuccessPerformsRest` | internal/app/flip/orchestrator.go:58-115 | a run resumed in any phase that succeeds performed exactly the actions left from that phase on |
| `FlipLaws.ResumedSuccessSwapsIff` | internal/app/flip/orchestrator.go:58-115 | its success means swapped if and only if it was resumed before the swap |
| `FlipLaws.UnknownPhaseDoesNothing` | internal/domain/flip.go:28-44 | a plan in an unknown phase tries nothing and fails only by cancellation |
| `FlipLaws.RunUpToSwap` | internal/app/flip/orchestrator.go:58-144 | when a fresh run reaches its swap, and how it ends when it does not |
| `FlipLaws.FlipExecutor.constructor` | internal/app/executor/executor.go:28-47 | a drain timeout of 30 seconds unless given |
| `FlipLaws.FlipExecutor.Apply` | internal/app/executor/executor.go:49-94 | a flip exactly for a change of backend alone on an applied, active placement of one client; a drain timeout counts as success |
| `FlipLaws.SuccessMeansSwapped` | internal/app/executor/executor.go:56-80 | a flip reported as successful has swapped, if and only if validation and swap do not fail with the drain-timeout error |
| `Fnv.Write` | internal/entryproxy/proxy.go:539-547 | writing a slice folds the FNV-1a step of section 2 of draft-eastlake-fnv over it |
| `Fnv.HrwScore` | internal/entryproxy/proxy.go:539-547 | the score is the hash of the three names joined by zero bytes |
| `Fnv.DraftValues` | internal/entryproxy/proxy.go:539-547 | the draft's hashes of the empty text and of "a" |
| `Fnv.StepTells` | internal/entryproxy/proxy.go:539-547 | one step tells any two octets apart |
| `Fnv.ScoreTellsOctets` | internal/entryproxy/proxy.go:539-547 | changing one octet of the backend, the client or the destination changes the score |
| `Fnv.ZeroBytesJoin` | internal/entryproxy/proxy.go:539-547 | the names are joined by single zero bytes |
| `Fnv.StepInvertible` | internal/entryproxy/proxy.go:539-547 | one step is undone by the inverse of the prime modulo 2^64 and a second exclusive-or |
| `Fnv.FoldInjective` | internal/entryproxy/proxy.go:539-547 | every input acts injectively on the hash state |
| `Fnv.TiesIgnoreClientAndDestination` | internal/entryproxy/proxy.go:539-547 | two backends tie for some client and destination iff for all, iff their names collide |
| `EntryProxy.BreakerRefinesHistory` | internal/entryproxy/proxy.go:474-537 | unhealthy exactly with two failures since the last success, until 30 s after the latest |
| `EntryProxy.Proxy.MarkBackendFailure` | internal/entryproxy/proxy.go:516-528 | one more failure; unhealthy for 30 s from the second on |
| `EntryProxy.Proxy.MarkBackendSuccess` | internal/entryproxy/proxy.go:530-537 | a known record is cleared |
| `EntryProxy.Proxy.ConnBackends` | internal/entryproxy/proxy.go:484-514 | the ranking of the client's route |
| `EntryProxy.Proxy.AddUser` | internal/entryproxy/proxy.go:417-426 | the client with its flow; nothing for an empty id |
| `EntryProxy.Proxy.RemoveUser` | internal/entryproxy/proxy.go:428-435 | neither the user nor its route is left |
| `EntryProxy.Proxy.SelectBackend` | internal/entryproxy/proxy.go:437-450 | accepted exactly for known backends; the old route stays in front |
| `EntryProxy.SelectionExtends` | internal/entryproxy/proxy.go:437-450 | the new route is the old one and the selected backend, if it was absent; nothing else changes |
| `EntryProxy.LastSpecWins` | internal/entryproxy/proxy.go:559-568 | of several backends with one id the last wins |
| `EntryProxy.Proxy.SetUserBackends` | internal/entryproxy/proxy.go:452-472 | the route becomes the given ids, cleaned |
| `EntryProxy.CleanedFacts` | internal/entryproxy/proxy.go:452-472 | cleaning keeps exactly the non-empty ids, each once |
| `EntryProxy.Proxy.SetBackends` | internal/entryproxy/proxy.go:559-568 | the pool becomes the given backends by id |
| `Rendezvous.RankedIsExact` | internal/entryproxy/proxy.go:484-514 | exactly the known backends of the route, each once, healthy first, each part by descending score |
| `Rendezvous.RankedInTables` | internal/entryproxy/proxy.go:484-514 | of any two in the list, the earlier is healthy if the later is, and scores higher for this client and destination if their health is equal |
| `Rendezvous.PoolRemovalIsStable` | internal/entryproxy/proxy.go:484-514 | without a backend of the pool every list is the old one with it filtered out |
| `Rendezvous.RouteRemovalIsStable` | internal/entryproxy/proxy.go:484-514 | likewise for a backend of the route |
| `Rendezvous.OnlyItsOwnMoves` | internal/entryproxy/proxy.go:484-514 | a destination moves only if the backend that served it left the pool or the route |
| `Rendezvous.FlipMovesIff` | internal/entryproxy/proxy.go:437-514 | a backend added to a route takes a destination exactly when it ranks before the one that served it |
| `Rendezvous.SelectionMovesIff` | internal/entryproxy/proxy.go:437-514 | the same on the route a selection leaves |
| `Rendezvous.ScoresApart` | internal/entryproxy/proxy.go:539-547 | backends whose names do not collide never tie |
| `ProxyActions.EntryProxyActions.SwapRoute` | internal/app/executor/entry_proxy_actions.go:57-83 | the tables, store and result of a swap: refused for a missing or mismatching id, stale, unknown backend, routed |
| `ProxyActions.EntryProxyActions.SimpleApply` | internal/app/executor/entry_proxy_actions.go:110-150 | the tables, store and result of an application, and when it becomes pending |
| `ProxyActions.ApplicationTells` | internal/app/executor/entry_proxy_actions.go:110-150 | refused, nothing to do, added under its flow and routed, or removed: when, and with which tables and store |
| `ProxyActions.SwapTells` | internal/app/executor/entry_proxy_actions.go:57-83 | the same of a swap, which touches no user |
| `ProxyActions.EntryProxyActions.SyncBackends` | internal/app/executor/entry_proxy_actions.go:213-223 | the pool becomes the registry |
| `ProxyActions.EntryProxyActions.EligibleBackendIds` | internal/app/executor/entry_proxy_actions.go:195-210 | the known backends of the placements, in order |
| `ProxyActions.EligibleFacts` | internal/app/executor/entry_proxy_actions.go:195-210 | those are exactly the known ones, each once |
| `ProxyActions.EligibleInOrder` | internal/app/executor/entry_proxy_actions.go:195-210 | in the order in which the client's placements first name them |
| `ProxyActions.EntryProxyActions.GroupByUser` | internal/app/executor/entry_proxy_actions.go:155-170 | each client with access and its placements, in the order listed |
| `ProxyActions.EntryProxyActions.RebuildFromStore` | internal/app/executor/entry_proxy_actions.go:155-193 | the same tables whatever the map order; pending exactly when some client with access has no known backend |
| `ProxyActions.AlongAny` | internal/app/executor/entry_proxy_actions.go:171-190 | rebuilding clients in any order gives one result |
| `ProxyRuns.RebuildIsExact` | internal/app/executor/entry_proxy_actions.go:155-193 | an empty proxy gets exactly the clients with access, each routed to its known backends without duplicates, in the order its placements first name them |
| `ProxyRuns.RebuildIdempotent` | internal/app/executor/entry_proxy_actions.go:155-193 | a second rebuild changes nothing |
| `ProxyRuns.RebuildExactIff` | internal/app/executor/entry_proxy_actions.go:155-193 | a rebuild leaves exactly the clients with access if and only if no other was served before |
| `ProxyRuns.FlipIsExecuted` | internal/app/executor/executor.go:49-81 | what a flip does to the tables is what the flip executor's run does, with this validation and swap |
| `ProxyRuns.ExecutedKeepsOwn` | internal/app/executor/entry_proxy_actions.go:57-150 | the executor neither removes its placement nor sets it back |
| `ProxyRuns.HandledByApplier` | internal/app/applier/applier.go:131-177 | what a command does to the store is what the applier does with this executor |
| `ProxyRuns.StepKeepsInv` | internal/app/executor/entry_proxy_actions.go:57-150 | every command keeps users and routes in step with the store |
| `ProxyRuns.LiveMatchesRebuild` | internal/app/executor/entry_proxy_actions.go:57-193 | after every run the live users are those a rebuild would install in an empty proxy, and every live route contains the rebuilt one |
| `ProxyRuns.RouteGrows` | internal/entryproxy/proxy.go:443-448 | while a client stays served its route only grows |
| `ProxyRuns.EverPlacedIsRouted` | internal/entryproxy/proxy.go:443-448 | so it holds every known backend that a placement of the client was ever on |
| `ProxyRuns.RunKeepsRoutedServed` | internal/entryproxy/proxy.go:428-435 | over every run only served clients have routes |
| `ProxyRuns.FlowAfterIff` | internal/app/executor/entry_proxy_actions.go:57-150 | a command leaves its client with its flow if and only if it is not a flip that changes it |
| `ProxyRuns.LiveFlowsMatchRebuild` | internal/app/executor/entry_proxy_actions.go:57-193 | after every run without such a flip the live users and flows are exactly those of a rebuild |
| `ProxyRuns.BeginsRebuilt` | internal/app/executor/entry_proxy_actions.go:155-193 | such a run may begin with any store pushed to an empty proxy |
| `ProxyRuns.FreshRunMatchesRebuild` | internal/app/executor/entry_proxy_actions.go:57-193 | from an empty proxy, or any store pushed to it, every run leaves the users and covers the routes of a rebuild |
| `ProxyRuns.CancelledFlipIff` | internal/app/executor/executor.go:49-81 | a flip cancelled before the swap is stored; its backend is routed if and only if it had been before |
| `ProxyRuns.SkippedIff` | internal/app/executor/entry_proxy_actions.go:64-67 | a command that is neither stale nor idempotent is skipped by the executor if and only if its version is stored already; the tables stay and this is recorded |
| `ProxyRuns.AppliedIsInForceIff` | internal/app/applier/applier.go:152-175 | a command recorded as applied is in force if and only if its version was not stored before or it was in force before |
| `ProxyRuns.AppliedFlipIsRoutedIff` | internal/app/applier/applier.go:152-175 | the same of a flip's route |
| `Traffic.PickBackendId` | internal/app/traffic/publisher.go:171-178 | the backend of the first tag of the chain that parses |
| `Traffic.PicksPrinted` | internal/app/traffic/publisher.go:171-178 | behind tags that do not parse, a printed tag of UUID-shaped ids gives its backend |
| `Traffic.PicksNothing` | internal/app/traffic/publisher.go:171-178 | a chain without a tag that parses gives none |
| `Traffic.OneConnection` | internal/app/traffic/publisher.go:113-135 | a connection's upload growth goes out, its download growth comes in, and it is one session |
| `Traffic.SessionsCount` | internal/app/traffic/publisher.go:134-134 | sessions count the connections of a backend |
| `Traffic.Publisher.constructor` | internal/app/traffic/publisher.go:47-73 | nothing remembered, nothing published |
| `Traffic.Publisher.Account` | internal/app/traffic/publisher.go:108-136 | per backend the summed growth in each direction and the live connections; the counters to remember |
| `Traffic.Publisher.Tick` | internal/app/traffic/publisher.go:100-166 | a failed fetch changes nothing; otherwise the counters are remembered before the report is published |
| `Traffic.Publisher.Run` | internal/app/traffic/publisher.go:84-98 | over any firings of the ticker the published reports give each backend the bytes booked by the ticks that were published |
| `Traffic.BookedIsGrowth` | internal/app/traffic/publisher.go:113-135 | with unique ids a tick books a connection's growth, nothing for a new one or a fallen counter |
| `Traffic.ConnectionTelescopes` | internal/app/traffic/publisher.go:100-137 | over any ticks a connection's bytes are last minus first over each maximal run; none is counted twice |
| `Traffic.TrafficTelescopes` | internal/app/traffic/publisher.go:100-178 | so are a backend's, summed over its connections |
| `Traffic.DeliveredIff` | internal/app/traffic/publisher.go:137-165 | all bytes are reported if and only if no failed publication had any |

## Left out

- EntryRuns.EveryRunAgrees: no flip overlaps a reload, commands' selections and listings succeed, the store accepts writes and each client keeps its placement, because the property is false otherwise: `FlipDuringFlushIsLost`, `FailedFlipBackDisagrees` and `HandoverDisagrees` are the failing families, `EndOnCourseIff`, `SkipAgreesIff` and `AgreesIff` the exact conditions.
- EntryRuns.StepKeepsInv: the reload of a flush and its store writes are one step; until the last write the store lacks placements that are loaded already.
- MergeRuns.EveryMergeRunAgrees: store writes succeed; a write that fails after the reload leaves the store behind the loaded config.
- MergeRuns.MergedBatchEqualsOneByOne: stated for a batch that ends with an active client; without one `MergeAbsorbs` says when it holds.
- ProxyRuns.LiveMatchesRebuild: commands are handled one at a time, the registry is fixed, store and proxy calls succeed and no flip is cancelled before its swap; `CancelledFlipIff` has the cancelled case.
- ProxyRuns.LiveFlowsMatchRebuild: likewise, and no flip changes a flow; `FlowAfterIff` says what such a flip leaves.
- EntryProgress.EveryRunAdvances: commands carry versions, because a command without one can lower a stored version: `SimpleLowersIff` says when.
- EntryProgress.NothingIsDropped: a command whose flush fails is answered with an error and is no longer on its way; its redelivery is a new command.
- Convergence.Converges: executors that write nothing themselves, and handling in one step; `ApartIsSerial` and `LoweredByOverlap` say when handling in two steps amounts to that.
- Snapshot.SnapshotIsExact: items and commands take effect in one step each, likewise.
- Snapshot.Consumer.Handle: items are applied in the order listed, while the source applies several at a time, so after a failed item others than the earlier ones may be stored.
- Overlap.LoweredByOverlap: what an executor writes itself and the applier's final write are taken as one write.
- Coalescer.RenderCoalescer.Run: the length of the debounce interval; the timer may fire at any moment while armed.
- Merge.MergeBase: the source rewrites the decoded JSON maps in place; the model computes new values, so aliasing between them is not captured.
- Fnv.Write: octets of ASCII text only, through `Octets`.
- The path of `EntryActions` without a coalescer, which repeats render, write, reload and persist for one overlay.
- NATS, Badger, HTTP, gRPC and WireGuard adapters apart from the shard dispatch; VLESS and REALITY termination, relaying and UDP.
- JSON and protobuf codecs, the backend registry and its listener, heartbeats, other reporters, metrics, bootstrap and configuration: easy members or foreign libraries.
- The backend role's xray executor, whose behaviour turns on a remote service's error texts.
- Wall-clock fields, event ids, tracing, log messages; 64-bit overflow of byte counters and durations.
