# Ratatoskr: a verified model

Ratatoskr serves OpenShift and OLM update data from shared in-memory state. Its contract is that
it never serves stale, older, partial or wrong-source data. This project models the parts of the
program that carry that contract and proves it, in Dafny 4.11. `dafny verify dfyconfig.toml`
checks everything.

The program's own form is kept. Where it updates fields under a mutex, rewrites a slice in place
or runs a worklist, the model is a class, an array or a loop, proved equal to a small pure
function or to a declarative specification. Concurrency is a state machine: each critical
section is one step, goroutines have program counters, steps interleave freely, and the theorems
are about every run.

## Parts

- **OpenShift lookups.** `LookupProtocol` (steps and invariant), `LookupSafety` (theorems over
  runs), `LookupAnswers` (when a lookup is answered, and with what), `LookupService` (the service's
  fields, shared records and eviction loop).
- **Catalog refresh and reload.** `RefreshState` (critical sections as functions),
  `RefreshProtocol` (goroutines, semaphore, callers), `RefreshSafety` (invariants, last-known-good),
  `ReloadCoverage` (no lost reload, and exactly when one is lost), `LostReload` (a run that loses
  one), `QueueFlags` (when a queued flag stands for one goroutine), `OrphanedRefresh` (a run in which
  it does not), `RefreshService` (the service's methods).
- **OLM update graphs.** `SemVer`, `VersionGrammar` and `Precedence` (the grammar and section 11 of
  Semantic Versioning 2.0.0), `FamilyOrder` and `Channels` (channel names and when their order is
  one), `VersionOrders`, `UpdateGraph` (edges and reachability), `Resolve`, `ChannelSwitch` and
  `ChannelReleases` (the queries), `AnswerOrder` (the order of their answers).
- **Advisories.** `ChangelogProtocol`, `ChangelogSafety`, `ChangelogAnswers` and `ChangelogCache`
  (single flight), `AdvisoryBudget` (the aggregate budget in place), `AdvisoryRender` and
  `AdvisoryNote` (the renderer, its reserve and its lines), `Utf8` and `CodePoints` (RFC 3629) and
  `TruncateText`.
- **OpenShift releases.** `ReleaseOrder`, `ReleaseGraph`, `ReleaseStream`, `ReleaseUpdates`
  (validation, lag, stream merge), `ReleaseAnswers` and `ReleaseFields` (what a successful
  answer contains), `DowngradeEdge` (a graph with an edge down) and `BroughtBack` (a node that only
  the stream brings in).
- **Building and configuring.** `CatalogBuild`, `CatalogContents` and `CatalogRead` (records to
  packages, in any order), `SourceIDs`, `SourceConfig` and `ConfiguredSources` (source expansion).
- **Shared.** `Orders` (text order, strict weak orders, a sort known by its contract),
  `OpenShiftTypes`, `CatalogTypes`.

## What is taken as given

The clock, the network, the registry, JSON, YAML and HTML decoding, URL parsing, regular
expressions over advisory text, and skip-range constraints appear as inputs: clock readings and
fetch outcomes are parameters of steps, decoded records are arguments, and the range check is an
arbitrary function. Times are unbounded integers of nanoseconds, with 0 for Go's zero time.
Attempts and generations are unbounded naturals. Map iteration order is arbitrary.

## Where a stronger claim is false

- A reload can be lost. If a source is removed or changed and then restored after the refresh of
  the old value has recorded its result and before that refresh has cleared its running flag,
  nothing is queued again. `ReloadCoverage.QueueRefreshCoversIffOutsideWindow` says exactly when a
  queueing call covers its source, and `LostReload.RestoringInTheWindowLosesTheReload` is a
  complete run, for any source, that ends at rest with nothing to show for it.
- A queued flag does not always stand for one goroutine. It does up to a state of a run exactly when
  no goroutine that found its source missing left before while its id was queued anew
  (`QueueFlags.FlagsMatchGoroutinesIff`). `OrphanedRefresh.LeavingWhileQueuedAnewDoublesTheRefresh`
  is a run, for any source, in which one does, and two goroutines then wait for the same id.
- A rendered note is not always within its limit. `AdvisoryRender.NoteWithinLimitIff` says when it is,
  and `AdvisoryRender.LongTypeBreaksTheLimit` that a type as long as the limit always breaks it.
- The OpenShift answer is not always strictly ascending: `ReleaseAnswers.AnswerAscendsIff` is the exact
  condition, with no assumption on versions or tags.
- The order of channel names is not always an order: 1.6, 1.10 and 1.5-foo of any family form a
  cycle (`Channels.ChannelLessCanCycle`). `Channels.ChannelLessOrdersIffContiguous` is the exact
  condition, `Channels.CandidateLessOrdersIff` the one for candidate lists, and
  `ReleaseOrder.VersionLessOrdersIff` the one for OpenShift releases. Claims about sorted output
  are made under these conditions; claims about contents are not.
- The installed OpenShift release is not always first:
  `ReleaseAnswers.InstalledIsFirstIffNoDowngrade` says when it is, and
  `DowngradeEdge.TheOlderReleaseComesFirst` is a graph for which it is not.
- A deprecated release may have a node in the graph. The comment above addReleaseStreamHistory speaks
  of releases that the graph omits; the code marks every accepted release that is not the installed
  one or a kept successor. `ReleaseFields.DeprecatedIffUnnamedIff` says when the two agree, and
  `BroughtBack.TheStreamBringsANode` is an answer in which they do not.
- Contradicting catalog records make the outcome depend on parsing order:
  `CatalogBuild.ContradictionsMakeOrderMatter`.

## Model

| member | source | states |
|---|---|---|
| `LookupService.Service.BeginUpdate` | internal/service/snapshot.go:58-68 | the first locked section is the Begin step: a new attempt, the key's shared record with one more reference, and nothing else changes; the protocol's invariant is kept |
| `LookupService.Service.FinishUpdate` | internal/service/snapshot.go:74-119 | the second locked section is the Finish step for every outcome and clock reading, with its reply: refused after a reconfiguration, last-known-good on failure, the newer result when one exists, else publication; it needs and keeps only the protocol's invariant |
| `LookupService.Service.OldestSnapshot` | internal/service/snapshot.go:107-113 | the eviction scan finds a key whose attempt no retained result is below |
| `LookupService.Service.StoreResult` | internal/service/snapshot.go:106-118 | publication evicts when all slots are taken by other keys, stores the result, and records the attempt in the shared record |
| `LookupService.Service.Depart` | internal/service/snapshot.go:76-81 | a finished lookup drops one reference, and the record with the last one |
| `LookupService.Service.Reload` | internal/service/service.go:192-199 | a changed graph URL clears the retained results and advances the generation; any other change keeps both |
| `LookupSafety.RunsAreReadyToFinish` | internal/service/snapshot.go:62-81 | in every reachable state an active lookup's record exists and counts it, so its second section can run |
| `LookupSafety.NothingNewerWasPublished` | internal/service/snapshot.go:24-28 | when record and retained result show nothing newer than a lookup, nothing newer was ever published for its key, whatever was evicted or cleared |
| `LookupSafety.PublishedAttemptsIncrease` | internal/service/snapshot.go:95-118 | over a whole run, with evictions and URL changes back and forth, the attempts published for one key strictly increase |
| `LookupSafety.BoundedMemoryDecidesLikeFullHistory` | internal/service/snapshot.go:97 | the bounded memory says "newer" exactly when the full history would, and the record alone already decides it |
| `LookupSafety.RecordsMirrorActiveLookups` | internal/service/snapshot.go:62-81 | records exist exactly for keys with active lookups and count them; at most 128 results are kept and their attempts differ |
| `LookupSafety.EvictionDropsTheLeastAttempt` | internal/service/snapshot.go:106-115 | with 128 other keys retained, publishing drops exactly the one with the least attempt |
| `LookupSafety.GenerationPinsTheURL` | internal/service/service.go:195-199 | the generation never goes back, and two moments of one generation have the same graph URL |
| `LookupSafety.ResponsesAreTheLatestPublication` | internal/service/snapshot.go:84-119 | a successful response is the latest publication of its key at that moment, within the age limit, from the URL configured then, and no older than this lookup's own success |
| `LookupSafety.SuccessSeesOneConfiguration` | internal/service/snapshot.go:82-86 | from Begin to Finish of a successful lookup the configured URL is always the one it fetched from |
| `LookupSafety.ResponsesNeverGoBackwards` | internal/service/snapshot.go:84-119 | two successful responses for one key carry publications in the order in which they finished |
| `LookupAnswers.ReconfiguredLookupIsRefused` | internal/service/snapshot.go:82-86 | a lookup that finishes under another generation or graph URL than it began with is refused and changes no result |
| `LookupAnswers.FailedLookupServesTheRetainedResult` | internal/service/snapshot.go:87-94 | after a failed fetch the reply is exactly the result retained for the key when its time is set and its age at most the configured one (24 hours when not positive), and the upstream error otherwise; no result changes |
| `LookupAnswers.OvertakenLookupServesTheRetainedResult` | internal/service/snapshot.go:95-105 | a completed fetch after something newer was published for the key is answered with the retained result when that is young enough, else refused as evicted or expired; it publishes nothing |
| `LookupAnswers.CompletedLookupServesItsResult` | internal/service/snapshot.go:71-73 | any other completed fetch is answered with its own list, empty for an unknown installed version, at that moment, and exactly that is published and retained |
| `LookupAnswers.ServedIsYoung` | internal/service/snapshot.go:30-36 | no served result is older than the configured age |
| `RefreshService.SourcesByID` | internal/service/service.go:233-239 | the map holds the last source of each id |
| `RefreshService.SourceChanges` | internal/service/service.go:222-231 | the ids of next sources that the previous configuration lacks or has otherwise, in order |
| `RefreshState.ChangedIdsExact` | internal/service/service.go:222-231 | with unique ids, a source's id is listed exactly when that very source was not configured before |
| `RefreshService.Service.MarkAttempt` | internal/service/service.go:129-139 | the attempt is recorded for a configured source only; stored entries stay those of configured sources and every other id's are untouched |
| `RefreshService.Service.MarkFailure` | internal/service/service.go:141-152 | a failure of a configured source sets its error and leaves every snapshot alone; stored entries stay those of configured sources and every other id's are untouched |
| `RefreshService.Service.Publish` | internal/service/service.go:118-124 | a read of a configured source replaces its snapshot and status; any other read changes nothing; stored entries stay those of configured sources and every other id's are untouched |
| `RefreshService.Service.Reload` | internal/service/service.go:190-220 | the configuration is replaced, exactly the snapshots and statuses of sources no longer configured are removed, and what must be queued is returned |
| `RefreshService.Service.QueueRefresh` | internal/service/service.go:273-299 | unknown, running and queued ids start nothing; any other is flagged and starts one goroutine; stored entries stay those of configured sources and every other id's are untouched |
| `RefreshService.Service.TakeQueued` | internal/service/service.go:310-316 | the queued flag becomes a running flag exactly when the id is configured; stored entries stay those of configured sources and every other id's are untouched |
| `RefreshService.Service.FinishRun` | internal/service/service.go:334-341 | the running flag is cleared, and the source is reported changed exactly when it is no longer configured; stored entries stay those of configured sources and every other id's are untouched |
| `RefreshService.Service.FinishQueued` | internal/service/service.go:347-356 | both flags and the status's refreshing mark are cleared; stored entries stay those of configured sources and every other id's are untouched |
| `RefreshService.Service.IsReady` | internal/service/service.go:450-459 | the readiness loop computes, in fields: some source is configured, and each has a snapshot of its own whose time is set and whose age is within the limit |
| `RefreshState.ReadyServesEverySource` | internal/service/service.go:450-466 | readiness holds exactly when every configured source would be served, and then each is served a snapshot of itself |
| `RefreshState.ServedIffYoung` | internal/service/service.go:786-799 | a snapshot is served exactly when one is stored under the id, its time is set, and its age is at most maxSnapshotAge when that is positive and 24 hours otherwise; and it is the stored one |
| `RefreshState.ReadyMeansYoung` | internal/service/service.go:450-459 | ready means exactly that some source is configured and each has a snapshot of itself that is that young |
| `RefreshService.Service.SnapshotFor` | internal/service/service.go:786-799 | the read-locked lookup returns the stored snapshot exactly when it is that young |
| `RefreshSafety.RefreshingIsSerialAndCurrent` | internal/service/service.go:92-152 | in every reachable state one thread at most is in a refresh body, running names at most its source, queued and running are disjoint, a refreshing status is queued or running, and everything stored belongs to a source configured now under its own id |
| `QueueFlags.FlagsMatchGoroutinesIff` | internal/service/service.go:301-356 | in every run and up to every state: each queued flag has one goroutine that will clear it and each such goroutine its flag, exactly when no earlier step was a goroutine with a missing source leaving while its id was queued |
| `QueueFlags.DroppedFlagOrphansAWorker` | internal/service/service.go:316-319 | such a step leaves another goroutine waiting for the id without a flag |
| `OrphanedRefresh.LeavingWhileQueuedAnewDoublesTheRefresh` | internal/service/service.go:310-320 | for any source there is a run in which such a step happens and after which two goroutines wait for the same id |
| `RefreshSafety.SnapshotsFollowStartOrder` | internal/service/service.go:102-103 | an older refresh never replaces a newer one: publications follow the order in which the bodies started |
| `RefreshSafety.OnlyCompleteReadsReplaceSnapshots` | internal/service/service.go:104-127 | a snapshot changes only by a complete uncancelled read of a configured source, which stores exactly that read, or by a reload that unconfigures its source, which removes it |
| `RefreshSafety.GenerationTimesArePast` | internal/service/service.go:120 | every stored generation time is a clock reading that the run already made |
| `RefreshSafety.LastKnownGoodIsKept` | internal/service/service.go:104-152 | while its source stays configured a snapshot is never lost, and under a monotone clock its generation time never decreases |
| `RefreshSafety.ReloadQueuesWhatChanged` | internal/service/service.go:190-220 | a reload goes on to queue every source when the signature policy or the parse concurrency changed, and otherwise exactly the sources that are new or different |
| `ReloadCoverage.QueueRefreshCoversIffOutsideWindow` | internal/service/service.go:273-299 | a queueing call leaves a thread that will refresh the source, except exactly when its refresh has recorded a result but not cleared its flag and no other thread is on its way |
| `ReloadCoverage.NoReloadIsLost` | internal/service/service.go:190-220 | without cancellation and without queueing an unmet source in that window, once no goroutine and no caller is left every source a reload added or changed has completed a refresh of its current value and has a snapshot or an error |
| `ReloadCoverage.NoReloadIsLostUnlessRestored` | internal/service/service.go:190-220 | the same from what reloads do: unique ids, no cancellation, and no reload that brings back a source whose refresh has recorded its result and not yet cleared its flag |
| `LostReload.RestoringInTheWindowLosesTheReload` | internal/service/service.go:334-344 | for any source there is a run that removes and restores it in the window and comes to rest with it configured, added by a reload, and neither refreshed nor failed |
| `SemVer.LessThanOrder` | pkg/catalog/resolve.go:211-226 | precedence after section 11 of Semantic Versioning 2.0.0 is a strict total order on versions without build metadata |
| `Precedence.LessThanIff` | pkg/catalog/resolve.go:211-226 | it is section 11: lower major, then minor, then patch number first; with equal numbers a prerelease before its release; then the first differing identifier decides, and a prefix comes first |
| `Precedence.PrereleaseLessIff` | pkg/catalog/resolve.go:211-226 | numeric identifiers compare as numbers, others as texts, and numbers precede texts, at the first place where the lists differ |
| `Precedence.TextLessIff` | pkg/catalog/resolve.go:351 | texts compare at their first difference, and a proper prefix comes first |
| `VersionGrammar.TextParses` | pkg/catalog/resolve.go:310 | every text of the grammar of sections 2, 9 and 10 is a version with the numbers and identifiers it spells; build metadata is not part of it |
| `VersionGrammar.NumberIsDecimal` | pkg/catalog/resolve.go:310 | a text is a version number exactly when it is the decimal spelling of a value of 64 bits, and then it means that value |
| `VersionGrammar.ParsedTextIsWellFormed` | pkg/catalog/resolve.go:310 | and every text that is a version is of that grammar |
| `VersionGrammar.ExampleAscends` | pkg/catalog/resolve.go:211-226 | section 11's own example, on parsed texts: 1.0.0-alpha, -alpha.1, -alpha.beta, -beta, -beta.2, -beta.11, -rc.1 and 1.0.0 ascend |
| `FamilyOrder.FamilyLessOrdersIffContiguous` | pkg/catalog/resolve.go:343-351 | ordering by version inside a family and by text otherwise is a strict weak order exactly when no foreign name separates two members that are not ascending |
| `Channels.ChannelLessOrdersIffContiguous` | pkg/catalog/resolve.go:343-351 | the same for channel names and their suffix families |
| `Channels.ChannelLessCanCycle` | pkg/catalog/resolve.go:343-351 | 1.6, 1.10 and 1.5-foo of any family form a cycle |
| `Channels.CandidateLessOrdersIff` | pkg/catalog/resolve.go:353-366 | the candidates' order is a strict weak order exactly under that condition on the names outside the current family |
| `Channels.SuffixAfterHyphen` | pkg/catalog/resolve.go:372-385 | what follows the last hyphen alone decides whether a name has a version, and what precedes it is the family |
| `Channels.MinorVersion` | pkg/catalog/resolve.go:387-407 | two numbers abbreviate that minor version's patch zero |
| `Channels.AbbreviatedVersion` | pkg/catalog/resolve.go:387-407 | one to three numbers or wildcards ("x", "X", "*") are the version they spell, with zero for a wildcard and for what is left out |
| `Channels.NoHyphenNoSuffix` | pkg/catalog/resolve.go:372-385 | a name without a hyphen has no version |
| `VersionOrders.BundleLessOrder` | pkg/catalog/resolve.go:211-226 | bundle order is irreflexive, asymmetric, transitive, and total on bundles with distinct names |
| `VersionOrders.VersionTextLessIsStrictWeak` | pkg/catalog/resolve.go:324-341 | the order of version texts, valid before invalid, is a strict weak order on all texts |
| `Resolve.CurrentBundle` | pkg/catalog/resolve.go:228-258 | the named bundle, or the only entry that carries the version; each failure is told apart |
| `Resolve.Successors` | pkg/catalog/resolve.go:270-284 | exactly the bundles one replaces, skips or skip-range edge away; none exactly for terminal names |
| `Resolve.Explore` | pkg/catalog/resolve.go:60-83 | the worklist ends on cyclic graphs with exactly the current version and the non-empty versions of the bundles within reach that are not deprecated |
| `Resolve.VersionUpdates` | pkg/catalog/resolve.go:43-90 | exactly the current version and the versions of the bundles that are not deprecated within one edge, or any number in "reachable" mode, each once and sorted; no path is an empty answer; other failures are errors |
| `AnswerOrder.UpdatesAscend` | pkg/catalog/resolve.go:324-341 | of two valid versions in the answer the one that precedes by section 11 comes first, valid versions come before invalid ones, and invalid ones are in text order |
| `UpdateGraph.EdgeIff` | pkg/catalog/resolve.go:270-322 | an edge leads to a stored bundle exactly when one of its entries replaces the current name, lists it in skips, or has a skip range that holds the current bundle's valid version |
| `UpdateGraph.EntersIff` | pkg/catalog/resolve.go:161-167 | an installed bundle enters at its own entry and wherever such an update from it is declared |
| `UpdateGraph.ClosedHoldsReachable` | pkg/catalog/resolve.go:66-83 | everything reachable from a set closed under edges is in it |
| `UpdateGraph.UpgradeHeadsAreHeads` | pkg/catalog/resolve.go:141-189 | an upgrade head is a head of its channel |
| `UpdateGraph.RaisingEdgesReachATerminal` | pkg/catalog/resolve.go:161-189 | when every edge raises the version, every entry reaches a terminal entry |
| `UpdateGraph.RaisingEdgesYieldAHead` | pkg/catalog/resolve.go:161-189 | so a channel of live bundles that admits the installed one has an upgrade head for it |
| `ChannelSwitch.ChannelHeads` | pkg/catalog/resolve.go:141-157 | exactly the terminal bundles of the channel, ordered by name |
| `ChannelSwitch.SearchHeads` | pkg/catalog/resolve.go:161-186 | the search ends on cyclic graphs with exactly the live terminal bundles reachable from the entries that admit the installed bundle, each once |
| `ChannelSwitch.ChannelUpgradeHeads` | pkg/catalog/resolve.go:159-189 | those heads in bundle order, each once |
| `ChannelReleases.OfferedIffAHeadIsReachable` | pkg/catalog/resolve.go:122-131 | a channel is offered exactly when it is another, live channel in which some live head can be reached |
| `ChannelReleases.CollectOffers` | pkg/catalog/resolve.go:121-131 | exactly one offer for each such channel, with its greatest reachable head, in any map order |
| `AnswerOrder.OfferedHeadIsHighest` | pkg/catalog/resolve.go:126-130 | no other reachable head of an offered channel has a version that follows the offered one, and between equal or invalid versions the later name is offered |
| `AnswerOrder.NewerIff` | pkg/catalog/resolve.go:191-201 | a channel counts as newer exactly when it is of the current family at a version that follows |
| `AnswerOrder.OffersAscend` | pkg/catalog/resolve.go:132-134 | when offers can be ordered, the current family comes first, one family ascends by version, and the others ascend as texts |
| `ChannelReleases.NextChannelRelease` | pkg/catalog/resolve.go:191-209 | the first newer channel of the current family, or the first candidate that is not the current channel when there is none; nothing exactly when every candidate is the current channel |
| `ChannelReleases.FirstNewerIsNext` | pkg/catalog/resolve.go:193-209 | that choice is newer whenever a newer one is offered; on ordered offers none of the family lies strictly between, and without a newer one no offer precedes it |
| `ChannelReleases.ChannelReleases` | pkg/catalog/resolve.go:106-139 | the current channel with the installed bundle first, then every offer in candidate order when that is an order, or only the next one; unknown channel and bundle are errors, no path is empty |
| `ChangelogCache.ChangelogCache.Arrive` | internal/openshift/changelog.go:168-191 | the first locked section is the Arrive step: a fresh entry answers, a call under way is joined, else this request leads a new call and keeps the stale entry |
| `ChangelogCache.ChangelogCache.Complete` | internal/openshift/changelog.go:193-207 | the second locked section is the Complete step: success replaces the entry with the time sampled before, failure falls back to the stale entry, and the call gets its result |
| `ChangelogCache.ChangelogCache.Wake` | internal/openshift/changelog.go:182-187 | a waiter takes its call's result |
| `ChangelogSafety.SingleFlight` | internal/openshift/changelog.go:180-191 | two requests fetching for one key at the same moment are the same request |
| `ChangelogSafety.OnlyTheLeaderReplacesAnEntry` | internal/openshift/changelog.go:175-203 | an entry changes only when its key's leader succeeds, still is what the leader saw, and had expired by the leader's clock |
| `ChangelogSafety.StoresAreSpaced` | internal/openshift/changelog.go:166-203 | any two stores of one key are at least the TTL apart in fetch time, in whatever order the clock was sampled |
| `ChangelogSafety.WaitersShareTheResult` | internal/openshift/changelog.go:180-206 | all replies from one call are equal, the leader's included |
| `ChangelogSafety.RepliesCarryStoredContent` | internal/openshift/changelog.go:175-207 | content in a reply was stored by a successful fetch for the same key |
| `ChangelogSafety.FailureServesTheCurrentEntry` | internal/openshift/changelog.go:193-207 | a failed fetch answers with the key's current entry, reports the error exactly when there is none, and changes no entry |
| `ChangelogSafety.NoWaiterIsStranded` | internal/openshift/changelog.go:180-206 | a waiter's call has its result, or the call's leader is still at work |
| `ChangelogAnswers.ArrivalDecides` | internal/openshift/changelog.go:166-191 | a request is answered at once with an entry younger than six hours, else waits for the key's call, else starts one and remembers the entry it found |
| `ChangelogAnswers.CompletionAnswers` | internal/openshift/changelog.go:193-207 | completing a call answers its leader once: with the fetched content, which becomes the key's entry as of the leader's clock reading; after a failure with the entry's content; without an entry with the error |
| `ChangelogAnswers.CallAnswersWithItsFetch` | internal/openshift/changelog.go:180-206 | whenever a waiter of that call wakes, it gets what the fetch yielded: after a success exactly the fetched content |
| `ChangelogAnswers.WaiterLeavesTheCacheAlone` | internal/openshift/changelog.go:180-188 | a waiter that wakes or gives up is answered once and changes no entry and no call |
| `ChangelogSafety.CacheKeyIsInjective` | internal/openshift/changelog.go:149-159 | keys of different endpoints or advisories differ, identifiers having no NUL |
| `AdvisoryBudget.EnforceBudget` | internal/openshift/changelog.go:113-134 | the loop rewrites the slice in place to the releases after the budget is spent newest first |
| `AdvisoryBudget.BudgetHolds` | internal/openshift/changelog.go:113-134 | the notes together never exceed the budget, whatever the inputs |
| `AdvisoryBudget.EachNoteIsFitted` | internal/openshift/changelog.go:114-133 | each release keeps its note exactly when the newer notes leave room for it, else the fallback exactly when there is room for that, else nothing; other fields are untouched |
| `AdvisoryBudget.NewestThatFitAreKept` | internal/openshift/changelog.go:113-134 | the newest releases whose notes fit together keep them unchanged |
| `AdvisoryBudget.NewestFourNotesAreServedInFull` | internal/openshift/changelog.go:20-29 | with notes rendered at the per-note limit under the exact condition for them to keep it, the newest four are unchanged |
| `AdvisoryRender.AppendReferences` | internal/openshift/changelog.go:385-396 | a list is appended up to its first line that does not fit before the reserve |
| `AdvisoryRender.Render` | internal/openshift/changelog.go:376-452 | the note is the required header, each list cut exactly where it stops fitting, and a closing line that says "shortened" exactly when something was omitted |
| `AdvisoryNote.NoteIsItsLines` | internal/openshift/changelog.go:376-452 | a note is these lines joined by newlines: title, blank, link and synopsis, what is known of type, severity and dates, each list under its heading up to what is shown, blank, and the closing line, whose text says "shortened" exactly when something is not shown |
| `AdvisoryNote.BulletForms` | internal/openshift/changelog.go:454-466 | a list line names the reference by identifier or title, links it when it has a URL, and adds a title that says more |
| `AdvisoryNote.MetaIsItsFields` | internal/openshift/changelog.go:401-411 | the fourth line is the type and the known severity and dates with a dot between them, an unchanged date not repeated |
| `AdvisoryRender.CutToFitIsUnique` | internal/openshift/changelog.go:385-444 | what is shown is determined by the summary and the limit |
| `AdvisoryRender.NoteStaysWithinLimit` | internal/openshift/changelog.go:376-452 | the note is within its limit when the header leaves the reserve free and headings and closing line fit in the reserve |
| `AdvisoryRender.NoteWithinLimitIff` | internal/openshift/changelog.go:376-452 | when headings and closing line fit in the reserve, the note is within its limit exactly when the header leaves the reserve free or header, headings and closing line fit by themselves |
| `AdvisoryRender.LongHeaderShowsNothing` | internal/openshift/changelog.go:385-396 | under a header that reaches into the reserve nothing is listed, and that is the only cut |
| `AdvisoryRender.BareNoteLength` | internal/openshift/changelog.go:398-450 | a note that lists nothing is as long as its header, headings and closing line, shortened exactly when there are references |
| `AdvisoryRender.LongTypeBreaksTheLimit` | internal/openshift/changelog.go:401 | a summary whose type is as long as the limit has a note, and it is over the limit |
| `AdvisoryRender.ShortURLFitsTheReserve` | internal/openshift/changelog.go:20-29 | headings and either closing line fit in the reserve for every URL of up to 800 bytes |
| `AdvisoryRender.ShortenedIffTooLong` | internal/openshift/changelog.go:385-450 | a note is shortened exactly when it has references and all of them would reach into the reserve |
| `TruncateText.TruncateText` | internal/openshift/changelog.go:541-561 | unchanged when short enough, empty for a limit of zero or less, else cut at the last character start and trimmed, with an ellipsis when there is room and no white space before it; never over a limit that is not negative; valid UTF-8 stays valid |
| `TruncateText.CutDropsAtMostOneRune` | internal/openshift/changelog.go:549-559 | in valid text the cut loses at most three bytes |
| `Utf8.CutAtRuneStart` | internal/openshift/changelog.go:551-559 | cutting valid UTF-8 at a character's first byte leaves valid text on both sides |
| `Utf8.TrimSpaceKeepsValid` | internal/openshift/changelog.go:554-560 | trimming Unicode white space from valid UTF-8 leaves valid UTF-8 |
| `CodePoints.ValidIffEncoded` | internal/openshift/changelog.go:551 | text is valid UTF-8 exactly when it is the encoding of code points by the table of section 3 of RFC 3629 |
| `CodePoints.SpaceIffWhiteSpace` | internal/openshift/changelog.go:554-560 | a character is trimmed exactly when it has Unicode's White_Space property |
| `CodePoints.TrimmedIsWhiteSpace` | internal/openshift/changelog.go:554-560 | trimming takes encoded white space from both ends and nothing else |
| `ReleaseOrder.SortReleases` | internal/openshift/releases.go:200-209 | a permutation, and sorted whenever the comparison orders the versions |
| `ReleaseOrder.VersionLessOrdersIff` | internal/openshift/releases.go:200-209 | the comparison is a strict weak order exactly when no invalid version lies textually between two valid ones that are not ascending |
| `ReleaseGraph.CheckNodes` | internal/openshift/releases.go:115-124 | accepts exactly distinct non-empty versions, and otherwise reports the first fault |
| `ReleaseGraph.CheckEdges` | internal/openshift/releases.go:125-132 | accepts exactly pairs of indexes in range, and otherwise reports the first fault |
| `ReleaseGraph.Targets` | internal/openshift/releases.go:145-156 | exactly the releases one edge from the installed one, each once, in order when there is one |
| `ReleaseGraph.KeptIffEnoughAbove` | internal/openshift/releases.go:157-161 | a successor survives the lag exactly when at least that many successors are higher |
| `ReleaseStream.LatestVersion` | internal/openshift/release_stream.go:195-205 | the highest valid version from a valid first one; an invalid first version stays |
| `ReleaseStream.StreamReleasesBetween` | internal/openshift/release_stream.go:166-193 | exactly the accepted tags without prerelease strictly above one version and not above the other, as often as they are listed, ascending; nothing for an empty window |
| `ReleaseUpdates.AddReleaseStreamHistory` | internal/openshift/release_stream.go:32-74 | unchanged for fewer than two releases, an architecture without a stream or a private graph without its controller; an incomplete answer is an error; else exactly the new tags in the window are appended, each deprecated, without content or digest, with its advisory URL or none |
| `ReleaseUpdates.Updates` | internal/openshift/releases.go:62-177 | each rejection exactly in its order, graph faults by first fault, an unknown version, a missing stream, and otherwise the installed release, the kept successors and the history, sorted when the comparison orders them |
| `ReleaseAnswers.AnswerIsExact` | internal/openshift/releases.go:145-174 | for valid successors of distinct precedence, a release is in the answer exactly when it is the installed one, a direct successor with at least lag higher ones, or history |
| `ReleaseAnswers.HistoryIsExact` | internal/openshift/release_stream.go:53-73 | history is exactly the accepted tags above the installed version, not above every kept successor and not already named |
| `ReleaseFields.AnswerFields` | internal/openshift/release_stream.go:53-73 | a release of the answer is deprecated exactly when it is neither the installed release nor a kept successor; the others have their node's version, URL and digest, one edge away at most; a deprecated one is an accepted stream release without content or digest, with the advisory URL the graph gives for its version, or none |
| `ReleaseFields.AcceptedReleasesFillIn` | internal/openshift/release_stream.go:47-73 | whenever the stream is asked for, every accepted release above the installed one, not above every kept successor and not itself one, is in the answer as deprecated |
| `ReleaseFields.DeprecatedIffUnnamedIff` | internal/openshift/release_stream.go:29-73 | the deprecated releases of an answer are exactly those the graph has no node for, if and only if the stream brings in no node that is not a kept successor |
| `BroughtBack.TheStreamBringsANode` | internal/openshift/release_stream.go:57-71 | a graph of 4.16.0, 4.16.1 and 4.16.2 with no edge to 4.16.1 and a stream that has accepted it: the answer lists 4.16.1 as deprecated, with its node's advisory URL and no digest |
| `ReleaseAnswers.AnswerAscendsIff` | internal/openshift/releases.go:163-175 | for every graph and stream: the answer is strictly ascending exactly when the installed release is alone, or the graph versions in it are valid and nothing ties among them and the accepted in-window new tags, counted as often as they are listed |
| `ReleaseAnswers.AnswerAscends` | internal/openshift/releases.go:174 | in particular it ascends when graph versions and accepted tags are valid and of distinct precedence and no tag is listed twice |
| `ReleaseAnswers.WithheldNeverReappears` | internal/openshift/releases.go:157-161 | a successor that lag withholds is in no part of the answer, whatever tags the stream lists |
| `ReleaseAnswers.InstalledIsFirstIffNoDowngrade` | internal/openshift/releases.go:163-175 | for valid graph versions of distinct precedence, and whatever the stream adds, the installed release comes first exactly when every kept successor is higher |
| `DowngradeEdge.TheOlderReleaseComesFirst` | internal/openshift/releases.go:163-175 | a graph with one edge from 4.16.0 to 4.15.0 meets every hypothesis of that condition, and its answer begins with 4.15.0 |
| `DowngradeEdge.TheOnlySuccessorIsWithheld` | internal/openshift/releases.go:157-161 | with a lag of one the same graph meets every hypothesis about withheld successors, and the answer is the installed release alone |
| `CatalogBuild.FindPackageVersion` | pkg/catalog/catalog.go:307-325 | the first olm.package property decides: its version, or why there is none |
| `CatalogBuild.Builder.EnsurePackage` | pkg/catalog/catalog.go:297-305 | an existing package is kept, a missing one is created empty |
| `CatalogBuild.Builder.AddMeta` | pkg/catalog/catalog.go:254-295 | a record's refusal depends on the record alone; an accepted one sets its default channel, channel or bundle and nothing else |
| `CatalogBuild.BuildRepresents` | pkg/catalog/catalog.go:171-178 | after any sequence of accepted, consistent records the packages say exactly what the records say |
| `CatalogContents.RecordsAreKept` | pkg/catalog/catalog.go:254-295 | every record of a consistent catalog is in the built packages: the default channel, a channel with its entries in their order, a bundle with its image and the version of its first olm.package property |
| `CatalogContents.NothingIsInvented` | pkg/catalog/catalog.go:254-295 | and every package, default channel, channel and bundle in them is some record's |
| `CatalogContents.FaultlessIffFit` | pkg/catalog/catalog.go:254-325 | records are all accepted exactly when each is named, with its package, and each bundle's first olm.package property gives a version |
| `CatalogBuild.OrderDoesNotMatter` | pkg/catalog/catalog.go:171-178 | consistent records give the same packages in every order and with any repetition, so in every interleaving of the concurrent parsers |
| `CatalogBuild.ContradictionsMakeOrderMatter` | pkg/catalog/catalog.go:254-295 | two records that say different things of one key give different packages in the two orders |
| `CatalogRead.ReadFS` | pkg/catalog/catalog.go:161-199 | a read succeeds exactly when no record is refused and every package has its default channel and every entry its bundle; it then serves those packages with entries in name order |
| `CatalogRead.AcceptedPackagesAreWellFormed` | pkg/catalog/catalog.go:185-197 | every package served has matching keys and names, a present default channel, no entry without a bundle, and sorted entries |
| `CatalogRead.AcceptanceIsOrderIndependent` | pkg/catalog/catalog.go:171-199 | consistent records are accepted or refused alike in every order |
| `SourceIDs.ReferenceOfSourceID` | internal/service/service.go:670-691 | an identifier made from a catalog and a version is read back as them, without the optional "v" |
| `SourceIDs.SourceIDOfReference` | internal/service/service.go:670-691 | an identifier that reads as a catalog and a version is the one made from them, with or without "v" |
| `SourceIDs.CatalogVersionIff` | internal/config/config.go:62-75 | a text is a catalog version exactly when it is a positive and any decimal number with a dot between them, perhaps after a "v", and decoding makes the form with the "v" of it |
| `SourceConfig.SelectCatalogs` | internal/config/config.go:240-262 | succeeds exactly for distinct built-in names, with those catalogs in order, or all of them for no names; otherwise the first fault |
| `SourceConfig.GeneratedIdsAreDistinct` | internal/config/config.go:201-213 | distinct channels and catalogs give exactly one source per pair, with distinct identifiers |
| `SourceConfig.GeneratedSourcesAreAddressable` | internal/config/config.go:204-209 | every generated source can be addressed by its catalog and version, with or without "v" |
| `SourceConfig.ApplyExplicit` | internal/config/config.go:215-237 | succeeds exactly for complete sources with distinct ids and valid platforms; replaces in place, appends in order |
| `SourceConfig.ExpandedHolds` | internal/config/config.go:215-237 | a source is in the result exactly when it is explicit, or generated and not replaced |
| `SourceConfig.ExpandedIdsAreDistinct` | internal/config/config.go:178-238 | the result names every id once |
| `SourceConfig.ExpandSources` | internal/config/config.go:178-238 | succeeds exactly when every check passes, else reports the first fault; the result has distinct ids, generated sources first and in place, then the other explicit ones in order |
| `ConfiguredSources.SourcesAreConfigured` | internal/config/config.go:199-237 | a source is in the result exactly when it is an explicit one, with the configuration's platform where it names none, or it has the identifier, the image tagged with the channel and the platform of a selected catalog and a channel, and no explicit source has its identifier |
| `ConfiguredSources.GeneratedInOrder` | internal/config/config.go:201-213 | the generated source of the i-th channel and j-th catalog stands at i times the number of catalogs plus j |
| `ConfiguredSources.SourceOkIff` | internal/config/config.go:217-229 | an explicit source is accepted exactly when it has an identifier, an image and, itself or from the configuration, a platform os/architecture[/variant] with no part empty |

## Left out

- HTTP routing, headers, tokens, JSON responses, access logs, CLI and Helm charts; of the handlers only the readiness and snapshot decisions are kept.
- Status decoration (`freshStatusLocked`), the projection of channel releases to channel names, and comparison URLs: they only rearrange what is modelled.
- Pulling and unpacking images, filesystem guards, the walk itself and its cancellation: decoded records arrive as a sequence, in any order.
- Parsing advisory HTML and fetching: a summary or an error is an input. How the four concurrent enrichers fill in contents before the budget loop is not modelled; any contents are allowed.
- Timers, the periodic loop of Run and goroutine scheduling: any thread may take any enabled step, so nothing is said about how soon.
- Each section reads the clock once here; the code reads it again for a warning it logs.
- 64-bit wrap-around of attempts and generations, and saturation of durations.
- Semantic Versioning as the library implements it beyond section 11: a numeric prerelease identifier over 64 bits is compared as a number here.
- Skip-range constraint syntax: the check is an arbitrary function of range and version.
- The library sorts are known by contract only: a permutation, sorted when the comparison is a strict weak order; which permutation results otherwise is left open, and stability is not used.
- A signature-policy change queues every source, but nothing is claimed for a source that is running at that moment: it is read with the old policy, which the code allows too.
- Errors recorded in a status are taken to have a non-empty text.
- RefreshService.Service.Reload: the loops that call QueueRefresh afterwards are steps of RefreshProtocol, not of this method.
- LookupService.Service.FinishUpdate: one clock reading per call, and the deferred reference drop is its last statement.
- ReloadCoverage.NoReloadIsLost: assumes unique ids, no cancelled goroutine, and no queueing of an unmet source in the window; the window is exact by QueueRefreshCoversIffOutsideWindow, and NoReloadIsLostUnlessRestored states the assumption on reloads alone.
- ReleaseAnswers.AnswerAscends: a sufficient condition on the inputs; the exact one is AnswerAscendsIff.
- AdvisoryRender.NoteStaysWithinLimit: a header that reaches into the reserve is the subject of NoteWithinLimitIff instead.
- CatalogRead.AcceptanceIsOrderIndependent: entries of equal name within a channel may be served in either order.
