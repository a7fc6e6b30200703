# Workx, modelled in Dafny

A model of the hardest logic of Workx and proofs about it. Every statement is a theorem about the model,
for all inputs or all runs; nothing was executed.

| files | what they model |
|---|---|
| `Streaming`, `Transcript`, `TranscriptView`, `TranscriptLayout` | the desktop reducer that folds streamed events into turns, and the transcript built from them by updating shared entry objects in place |
| `Session`, `SessionSafety`, `SessionSelection`, `SessionOnce`, `SessionQueue`, `SessionCalls`, `SessionSends`, `SessionFlows`, `Hook` | the asynchronous protocol of the desktop hook: selecting threads, starting and steering turns, the message queue, its drain and the manual "send queued". `Session` is the state machine, one step per stretch of code between two awaits; `Hook` is the hook as an object whose refs are updated in place. Its `Valid()` says that it went through a run of the state machine, every step method keeps it, and so every theorem about runs holds of the object |
| `Catalog` | collecting model lists while temporarily switching the server's provider |
| `Provider`, `ProviderEndpoint`, `ProviderRoundTrip`, `ProviderStable` | provider settings, read from and written to the configuration, and the endpoint of the model list |
| `Toml`, `TomlText`, `TomlErrors`, `TomlRoundTrip`, `TomlInjective`, `Overrides`, `OverrideErrors`, `OverrideReading`, `OverrideTree`, `OverridesRoundTrip`, `OverrideTraces`, `OverrideLines`, `OverridesExact`, `Reordering` | the SDK's TOML printer and override flattener, a TOML parser written from the TOML v1.0.0 specification, and the command line that reads overrides and builds a configuration layer |
| `Gate`, `GateRun`, `GateTheorems`, `GateVerdict`, `GateEvidence`, `GateSkips` | the conformance regression gate, what a complete report is evidence of, and compact baselines |
| `Review`, `ReviewRun`, `ReviewTheorems`, `ReviewWriter`, `ReviewPlan` | the review regression gate and its compact baselines, and the runner that plans the cases and writes the report the gate reads |
| `AppServer` | the buffering JSON-RPC client of the conformance runner |
| `Release`, `ReleaseForms` | release versions, their normal form and their tags |
| `Sse` | server-sent event framing and a decoder written from the HTML Living Standard, section 9.2.6 |
| `Search`, `SearchOrder` | the bounded directory search |
| `Wrappers`, `Keyed`, `Json`, `Ordering`, `Trails`, `Errors` | shared vocabulary |

Requests that the source awaits become steps that settle later, in any order and with any outcome. What
the code cannot see becomes a parameter that the theorems quantify over: the rendering of activities, the
URL parser, path joining and lower-casing, the scenario catalogue, the required review cases, the
merging of two TOML tables, the number of messages that arrive before a deadline.

## Findings

Some promises do not hold of the code as it is. Each failure is shown by concrete inputs or a concrete run, and
is given its exact condition.

- A thread opened while a manual send is in flight whose message still waits can make that message be sent
  twice (`SessionSafety.LeakedMessageSentTwice`, `SessionOnce.StaleSentTwice`). Opening is safe exactly when
  there is no such send (`SessionOnce.SafeToOpen`, `SessionOnce.AtMostOnce`).
- A turn requested while a selection is pending can be shown in the wrong thread
  (`SessionSelection.TurnShownElsewhere`, `SessionSelection.TurnFiledRight`).
- Reordering that names a waiting message twice duplicates it (`SessionQueue.NamedTwice`,
  `SessionQueue.ReorderMeaning`).
- The model list of the configured provider is read under another provider unless it comes first
  (`Catalog.ConfiguredSecond`, `Catalog.CatalogRight`), and a switch whose reply is lost is not undone
  unless another switch is confirmed (`Catalog.LostReplyNotRestored`, `Catalog.Restored`).
- Normalising a models endpoint twice can strip more than once (`ProviderEndpoint.EndpointNotIdempotent`,
  `ProviderEndpoint.EndpointIdempotent`).
- Saving and loading provider settings a second time can change them again, and a third time too
  (`ProviderStable.ThreeNeeded`, `ProviderStable.ModelIdempotent`, `ProviderStable.ConfigIdempotent`).
- TOML strings with U+007F are rendered as invalid TOML (`TomlRoundTrip.RoundTrip`).
- A dotted key and a nested table flatten to the same overrides (`OverridesRoundTrip.DottedKeyCollides`),
  and a table whose children are all undefined is lost (`OverridesRoundTrip.OnlyHollowLost`). Which
  configurations are rebuilt is exact in `OverridesExact.RebuildsExactly`.
- A compact conformance baseline cannot be used if a required case or scenario was only skipped
  (`GateSkips.SkipsAreLost`, `GateTheorems.CompactComplete`).
- A server request with the awaited method ends a wait from the buffer but not from the queue
  (`AppServer.ServerRequestDependsOnTiming`, `AppServer.TimingIndependent`).

The comment above `collectProviderModels` says that a failed provider does not affect the others; the code
only guarantees that for the stored lists under the condition of `Catalog.CatalogRight`.

## Model

| member | source | states |
|---|---|---|
| Streaming.StepEffect | workx-desktop/src/app/useWorkx.ts:831-891 | one event adds at most its own turn, at the end, changes only that turn, and keeps turn ids distinct; completion of an unknown turn changes nothing |
| Streaming.AppendDeltaEffect | workx-desktop/src/app/useWorkx.ts:840-865 | a delta extends the text of its agent message, creates the message if it is unknown, and leaves every other item alone |
| Streaming.RunIsProjection | workx-desktop/src/app/useWorkx.ts:746-891 | after any run the turns are the projection of the log: turns and items in first-mention order, each item its last snapshot followed, for agent messages, by all later deltas |
| Streaming.RunWellFormed | workx-desktop/src/app/useWorkx.ts:746-891 | turn ids, and item ids within each turn, stay distinct over every run |
| Streaming.InterleavingIrrelevant | workx-desktop/src/app/useWorkx.ts:831-891 | two logs that create turns in the same order and agree on the events of each turn give the same view |
| Streaming.ItemLocality | workx-desktop/src/app/useWorkx.ts:831-865 | an item depends only on the events that name it |
| Transcript.RecordActivity | workx-desktop/src/app/transcript.ts:195-203 | the search-and-overwrite loop is an upsert by id |
| Transcript.RunsMeaning | workx-desktop/src/app/transcript.ts:159-203 | the accumulator at each item holds the activities since the last agent message, each id once, at its first position, with its last value |
| Transcript.CompleteReplies | workx-desktop/src/app/transcript.ts:222-233 | completing entries through the aliasing list gives every entry the turn's status and duration and marks and extends only the last |
| Transcript.CollectTurn | workx-desktop/src/app/transcript.ts:159-204 | the loop over the items creates the uncompleted entries of the turn and leaves the trailing run of activities |
| Transcript.AppendTurn | workx-desktop/src/app/transcript.ts:158-234 | the in-place construction of one turn yields the entries of the segment specification |
| Transcript.BuildTranscript | workx-desktop/src/app/transcript.ts:153-237 | the imperative transcript, with shared entries completed in place, equals the segment specification of all turns |
| TranscriptView.OnlyLastReplyActive | workx-desktop/src/app/transcript.ts:222-233 | every turn has a last assistant entry; it alone may be active, exactly when the turn is unfinished; all carry the turn's status and duration |
| TranscriptView.TurnShowsAllRuns | workx-desktop/src/app/transcript.ts:174-223 | a turn shows its runs of activities in order, the trailing one on its last entry |
| TranscriptView.NothingLost | workx-desktop/src/app/transcript.ts:158-223 | with distinct item ids a turn shows exactly its activities, each once and in order |
| TranscriptView.DeltaIsLocal | workx-desktop/src/app/useWorkx.ts:840-865 | after a delta to a known agent message the transcript is the old one with exactly that entry's text extended |
| TranscriptView.OneEntryPerMessage | workx-desktop/src/app/transcript.ts:174-190 | every agent message has exactly one entry, showing its text |
| TranscriptLayout.ContentShown | workx-desktop/src/app/transcript.ts:59-75 | the text of a user message is its text parts in order with one line feed between them, found by position, and its images are the paths and addresses in order |
| TranscriptLayout.TurnLaidOut | workx-desktop/src/app/transcript.ts:158-234 | the entries of a turn stand for its messages, each once and in order, and for a summary after the last item if it has no agent message. A user entry shows its content and is marked exactly for the first user message of a goal turn; a reply shows its text, the run of activities before it, the trailing run if it is the last, and the state of the turn |
| TranscriptLayout.TranscriptLaidOut | workx-desktop/src/app/transcript.ts:153-237 | the transcript lists the entries of all turns in order, each place once |
| Session.NextSound | workx-desktop/src/app/useWorkx.ts:2048-2134 | every step keeps the protocol invariant: at most one call serves the queue, and each flag is set exactly while its kind of call is in flight |
| Session.RunSound | workx-desktop/src/app/useWorkx.ts:1367-2134 | the invariant holds in every reachable state |
| Session.FlagsExclude | workx-desktop/src/app/useWorkx.ts:2048-2134 | in every interleaving the drain flag and the manual-send flag are never both set |
| SessionOnce.AtMostOnce | workx-desktop/src/app/useWorkx.ts:2048-2134 | in every run in which no thread is opened while a manual send is in flight whose message still waits, each queued message is handed over at most once, by drain or by hand, and none that waits was handed over |
| SessionOnce.SafeToOpen | workx-desktop/src/app/useWorkx.ts:2048-2134 | after any such run, opening a thread keeps at-most-once over all further such runs exactly when no manual send is in flight whose message still waits |
| SessionOnce.StaleSentTwice | workx-desktop/src/app/useWorkx.ts:2087-2134 | from every state with the invariants of a run in which the selection moved on under a manual send whose message still waits, some continuation without another open hands that message over twice |
| SessionSafety.LeakedMessageSentTwice | workx-desktop/src/app/useWorkx.ts:2048-2134 | a reachable run in which one message is handed over by hand and again by the drain |
| SessionSafety.RunFifo | workx-desktop/src/app/useWorkx.ts:899-905 | while the queue is only added to and drained, messages handed over followed by those waiting equal those enqueued, in order |
| SessionCalls.CallsServe | workx-desktop/src/app/useWorkx.ts:1367-2134 | in every run each call in flight serves the step that issued it: the thread opened there, the text and goal sent there, or the message that was waiting there; a goal is set exactly for a goal message. Only a start of a thread is shared |
| SessionCalls.RunOneStart | workx-desktop/src/app/useWorkx.ts:1674-1694 | in every run at most one start of a thread is in flight, and it is the one that sends wait for |
| SessionCalls.TurnForViewed | workx-desktop/src/app/useWorkx.ts:1877-1893 | whatever step requests a turn, the request is for the thread in view, under the current selection |
| SessionSends.RunLogs | workx-desktop/src/app/useWorkx.ts:2048-2134 | over every run the log of hand-overs lists exactly the messages that the requests carried: the one in the turn request of a drain, and those of accepted manual sends |
| SessionSends.SendsAtMostOnce | workx-desktop/src/app/useWorkx.ts:2048-2134 | in every careful run no message is carried by two such requests, and none that waits was carried |
| SessionSends.SendsInOrder | workx-desktop/src/app/useWorkx.ts:899-905 | while the queue is only added to and drained, the messages carried followed by those waiting are those enqueued, in order |
| SessionSends.DrainSendsFirst | workx-desktop/src/app/useWorkx.ts:2102-2134 | a drain requests a turn in the thread in view with the first waiting message as it stands, as a goal if it is one |
| SessionSends.SentWasWaiting | workx-desktop/src/app/useWorkx.ts:2048-2134 | in every run a message carried was the first one waiting when the drain sent it, or was the one waiting under the identifier that the manual send was asked for |
| SessionSends.WaitingCameFrom | workx-desktop/src/app/useWorkx.ts:899-915 | in every run each waiting message came from a send that was to be queued, with its goal mark and its text or the text it was given since |
| SessionFlows.OpenShows | workx-desktop/src/app/useWorkx.ts:1367-1477 | from any state, opening a thread shows it with its running turn and an empty queue once the server answers |
| SessionFlows.OpenShowsReadOnly | workx-desktop/src/app/useWorkx.ts:1367-1477 | a thread that cannot be resumed is read, and shown as read-only with nothing running |
| SessionFlows.OpenWithOverrides | workx-desktop/src/app/useWorkx.ts:1367-1477 | with overrides the thread is first unsubscribed, and shown however that ends |
| SessionFlows.SendQueues | workx-desktop/src/app/useWorkx.ts:1912-1945 | a text to be queued while a turn runs waits at the end of the queue |
| SessionFlows.SendStartsTurn | workx-desktop/src/app/useWorkx.ts:1912-1996 | a text sent while no turn runs starts one in the thread in view, which then runs; a goal is set next |
| SessionFlows.SteerTwice | workx-desktop/src/app/useWorkx.ts:1946-1990 | a steer under another turn than the one that runs is tried once more, under the turn that the server named, and then given up |
| SessionFlows.SteerFallsBack | workx-desktop/src/app/useWorkx.ts:1946-1994 | a steer that finds no running turn, at first or on the retry, starts one, which then runs |
| SessionQueue.ReorderMeaning | workx-desktop/src/app/useWorkx.ts:916-923 | reordering puts the named messages that wait first, in the order named, and the others after them in their old order; no message comes or goes, and each still waits once exactly when no waiting message is named twice |
| SessionQueue.NamedTwice | workx-desktop/src/app/useWorkx.ts:916-923 | a queue of one message, reordered by naming it twice, holds it twice |
| SessionQueue.NextNumbered | workx-desktop/src/app/useWorkx.ts:899-923 | a step keeps the identifiers in the queue distinct and below the counter, exactly unless it is a reordering that names a waiting message twice |
| SessionQueue.RunNumbered | workx-desktop/src/app/useWorkx.ts:899-923 | over every run without such a reordering the identifiers in the queue are distinct |
| SessionSelection.SecondDrainWaits | workx-desktop/src/app/useWorkx.ts:2102-2134 | between two drains the turn request of the first has settled for good |
| SessionSelection.DrainAfterClearing | workx-desktop/src/app/useWorkx.ts:2102-2134 | if that request was answered under an unchanged selection, some step before the second drain took the running flag from set to clear: the turn in view completed, a draft began or was given a project, or a thread was shown by a reply to the current selection |
| SessionSelection.RunningSet | workx-desktop/src/app/useWorkx.ts:1367-1909 | only a turn that started, a turn reply or a shown thread with a running turn sets the running flag |
| SessionSelection.NextWrites | workx-desktop/src/app/useWorkx.ts:1367-1671 | a step writes the viewed thread under the current token or not at all |
| SessionSelection.RunWrites | workx-desktop/src/app/useWorkx.ts:1367-1718 | over every run write tokens never decrease, none is newer than the counter, and the last write is what is in view |
| SessionSelection.LatestSelectionWins | workx-desktop/src/app/useWorkx.ts:1367-1718 | once a later selection has begun, no earlier open or start changes the view or the queue, however often it settles |
| SessionSelection.TurnReplyEffect | workx-desktop/src/app/useWorkx.ts:1894-1909 | the reply to a turn request puts its turn into the view exactly under an unchanged selection, and otherwise leaves the view alone |
| SessionSelection.TurnFiledRight | workx-desktop/src/app/useWorkx.ts:1877-1909 | however a run goes on, the turn of a request in flight is not shown in another thread than it was requested for, exactly when the selection has moved on, or that thread is in view and no selection is pending |
| SessionSelection.TurnShownElsewhere | workx-desktop/src/app/useWorkx.ts:1877-1909 | a reachable run after which the reply to a turn requested for one thread is shown in another |
| Hook.SessionHook.constructor | workx-desktop/src/app/useWorkx.ts:1061-1085 | a new hook is in the initial state of the protocol |
| Hook.SessionHook.Invariants | workx-desktop/src/app/useWorkx.ts:1367-2134 | a valid hook is in a reachable state of the protocol: at most one call serves the queue, the flags say which, the last write of the view has the newest token, and if its run was careful nothing was handed over twice |
| Hook.SessionHook.OpenThread | workx-desktop/src/app/useWorkx.ts:1367-1391 | the first stretch of `openThread` is the step Open, keeps the invariant, and makes every call in flight older than the selection |
| Hook.SessionHook.NewDraft | workx-desktop/src/app/useWorkx.ts:1708-1718 | starting a draft is the step Draft, keeps the invariant, and makes every call in flight older than the selection |
| Hook.SessionHook.ChooseDraftProject | workx-desktop/src/app/useWorkx.ts:1696-1705 | choosing the project of a draft resets what is shown and the queue, changes no ref, and keeps the invariant |
| Hook.SessionHook.SendInput | workx-desktop/src/app/useWorkx.ts:1912-1926 | the first stretch of `sendInput` is the step Send and keeps the invariant |
| Hook.SessionHook.SendQueuedMessage | workx-desktop/src/app/useWorkx.ts:2048-2083 | the first stretch of `sendQueued` is the step SendQueued, keeps the invariant, requests with the message that waits under that identifier, and after a careful run does nothing for a message that was handed over before |
| Hook.SessionHook.DrainQueue | workx-desktop/src/app/useWorkx.ts:2102-2134 | the queue effect is the step Drain, keeps the invariant, requests a turn with the first waiting message, and after a careful run sends only a message that was never handed over before |
| Hook.SessionHook.SettleCall | workx-desktop/src/app/useWorkx.ts:1367-2134 | whatever settles next, the code that waits for it makes exactly one step of the protocol and keeps the invariant; an open or start of an earlier selection changes neither view nor queue |
| Hook.SessionHook.QueueOrder | workx-desktop/src/app/useWorkx.ts:916-923 | reordering keeps the invariant; with distinct identifiers the named messages come first in the order named, the others keep their order, none comes or goes, and each waits once exactly when none is named twice |
| Catalog.CollectProviderModels | workx-desktop/src/app/useWorkx.ts:1184-1237 | the loop, with any requests failing, ends in the state of the run specification, restores the provider if it switched, clears the busy marks, and changes the cached list of exactly the providers whose list is obtained |
| Catalog.StoredExactly | workx-desktop/src/app/useWorkx.ts:1196-1207 | a list is stored for a provider exactly when some request for it succeeds at a position where it is the configured one or its switch was confirmed; another provider than the configured one then has its own list |
| Catalog.StoredForConfigured | workx-desktop/src/app/useWorkx.ts:1196-1207 | the configured provider gets the list of the provider the server stands at when it is last listed: where the last switch that was not refused took it, or where it began |
| Catalog.CatalogRight | workx-desktop/src/app/useWorkx.ts:1196-1207 | whichever requests fail every stored list belongs to its own provider, exactly when the configured provider is not listed, or is current at the start and preceded by no other |
| Catalog.ConfiguredSecond | workx-desktop/src/app/useWorkx.ts:1196-1207 | with another provider first, its list is stored for the configured one as well |
| Catalog.Restored | workx-desktop/src/app/useWorkx.ts:1199-1224 | whichever writes are refused or lose their reply, the server ends at the configured provider exactly when it was there and every switch was refused, or some switch was confirmed and the restoring write was not refused |
| Catalog.LostReplyNotRestored | workx-desktop/src/app/useWorkx.ts:1199-1224 | if the reply of a switch is lost and no switch is confirmed, the server ends at another provider than the configured one |
| ProviderEndpoint.NormalizeModelsEndpoint | workx-desktop/src/app/useWorkx.ts:322-343 | a relative endpoint loses exactly the longest run of leading base segments that it begins with; any other is only trimmed |
| ProviderEndpoint.StrippedUnique | workx-desktop/src/app/useWorkx.ts:322-343 | what is left is determined by the endpoint and the base segments |
| ProviderEndpoint.EndpointFixed | workx-desktop/src/app/useWorkx.ts:322-343 | an endpoint is unchanged exactly when it is trimmed and does not begin with the first base segment |
| ProviderEndpoint.EndpointIdempotent | workx-desktop/src/app/useWorkx.ts:322-343 | normalising twice is normalising once exactly when the trimmed endpoint is not a relative path that begins with base segments and then with the first base segment again where the base does not |
| ProviderEndpoint.EndpointNotIdempotent | workx-desktop/src/app/useWorkx.ts:322-343 | an endpoint that repeats the base segment twice loses one copy per call |
| ProviderRoundTrip.ModelRoundTrip | workx-desktop/src/app/useWorkx.ts:284-316 | reading what was written for a custom model gives the model exactly when it is in normal form |
| ProviderRoundTrip.ConfigReload | workx-desktop/src/app/useWorkx.ts:345-451 | what saving and loading does to every field of a configuration |
| ProviderRoundTrip.SaveAndReload | workx-desktop/src/app/useWorkx.ts:345-451 | saving and loading returns the configuration exactly when it is in normal form |
| ProviderRoundTrip.ConfigField | workx-desktop/src/app/useWorkx.ts:387-451 | the saved table of a configuration, key by key: which keys it has and what stands there |
| Provider.TrimParts | workx-desktop/src/app/useWorkx.ts:284-451 | trimming removes white space at both ends, all of it, and nothing else |
| Provider.WireApiRead | workx-desktop/src/app/useWorkx.ts:345-381 | only two names are read as their kind; a missing or unknown kind means responses |
| ProviderStable.ModelIdempotent | workx-desktop/src/app/useWorkx.ts:284-451 | saving and loading a model twice is saving and loading it once exactly when it has no default level beside only blank levels and is not saved as a table just for settings that do not load while naming the default modalities in the other order |
| ProviderStable.ThreeTimes | workx-desktop/src/app/useWorkx.ts:284-451 | whatever its settings, a model is in normal form once it was saved and loaded three times |
| ProviderStable.ThreeNeeded | workx-desktop/src/app/useWorkx.ts:284-451 | a model that is still not in normal form after two |
| ProviderStable.ConfigIdempotent | workx-desktop/src/app/useWorkx.ts:345-451 | a configuration that was saved and loaded stays the same when that is done again exactly when all its models with a name are so and its endpoint, once normalised, does not restart the base path |
| Toml.ToTomlValue | sdk/typescript/src/exec.ts:307-338 | the loop that collects parts equals the recursive rendering, errors and their paths included |
| TomlRoundTrip.RoundTrip | sdk/typescript/src/exec.ts:307-343 | parsing a rendering returns the value without undefined children, exactly when no string or key holds U+007F; otherwise the rendering is no TOML |
| TomlInjective.RenderInjective | sdk/typescript/src/exec.ts:307-343 | two values with the same rendering are the same up to undefined children, also where a string or key holds U+007F |
| TomlRoundTrip.RendersExactly | sdk/typescript/src/exec.ts:307-343 | rendering succeeds exactly on values built of strings, numbers, booleans, arrays and objects with non-empty keys |
| TomlErrors.RenderFails | sdk/typescript/src/exec.ts:307-338 | rendering fails exactly if some place in the value holds an empty key or a value of no TOML kind, and the error is that of the first such place in reading order, with its path in dots and brackets |
| TomlText.NumberText | sdk/typescript/src/exec.ts:307-315 | a number is its decimal digits without a leading zero, after a minus sign if it is negative |
| TomlText.QuotedAsIs | sdk/typescript/src/exec.ts:308-309 | a string stands between quotation marks as it is exactly when it has no quotation mark, backslash or control character |
| Overrides.OverrideList.constructor | sdk/typescript/src/exec.ts:261-265 | serialising starts from an empty list |
| Overrides.FlattenConfigOverrides | sdk/typescript/src/exec.ts:267-305 | the recursive push into the shared list appends exactly the overrides of the value, and on an error keeps what was pushed before |
| Overrides.SerializeConfigOverrides | sdk/typescript/src/exec.ts:261-265 | the overrides of a configuration object, or its first error |
| OverrideErrors.FlattenFails | sdk/typescript/src/exec.ts:267-305 | a table is flattened exactly if no place in it offends, and the error is that of the first place in reading order that does |
| OverrideErrors.SerializesExactly | sdk/typescript/src/exec.ts:261-305 | serialising gives overrides exactly for tables without an offending place |
| OverrideReading.LineRead | workx-rs/utils/cli/src/config_override.rs:49-93 | every line is split at its first equals sign; key and text lose the white space around them, an empty key is refused, the path is the key split at its dots or that of the alias, and the value is the text as TOML or else the text without quotation marks around it |
| OverrideReading.NoEqualsSign | workx-rs/utils/cli/src/config_override.rs:57-68 | a line is refused for a missing equals sign exactly if it has none |
| OverrideReading.StructuredMeans | workx-rs/config/src/merge.rs:62-74 | the features that are a flag or a table are three names, of the configuration or of a profile |
| OverrideTree.ApplyLook | workx-rs/config/src/overrides.rs:18-99 | whatever stands in the tree, an override leaves its value at its path, combined with what a structured feature has there, makes tables of what is above, turns a flag of a structured feature above into a table with that flag, and changes nothing else |
| OverrideTree.LayerHolds | workx-rs/config/src/overrides.rs:9-16 | overrides whose paths are pairwise incomparable all hold in the layer, and nothing else does |
| OverrideTree.WantedSpread | sdk/typescript/src/exec.ts:267-305 | the key paths to the leaves of a configuration, as lists of keys before they are joined with dots, are distinct and none is a prefix of another |
| OverridesRoundTrip.PathReadsBack | workx-rs/utils/cli/src/config_override.rs:49-93 | the command line reads a path as it was written exactly when no key has a dot or an equals sign, the ends are not white space, and the path is not empty and not the alias |
| OverridesRoundTrip.ValueReadsBack | workx-rs/utils/cli/src/config_override.rs:70-83 | a rendered value is read back exactly when it has no U+007F, or is a string that quoting left alone |
| OverridesRoundTrip.LineReadsBack | workx-rs/utils/cli/src/config_override.rs:49-93 | an override line is read back as written exactly under both conditions |
| OverridesRoundTrip.OnlyHollowLost | sdk/typescript/src/exec.ts:281-305 | flattening loses nothing but undefined children exactly when no sub-object has only undefined or hollow children |
| OverridesRoundTrip.OverridesRebuild | sdk/typescript/src/exec.ts:267-305 | for every configuration whose lines read back, the overrides, read and applied in any order and for any table merge, rebuild it without undefined children, empty sub-objects included; exactly when no sub-object is hollow is nothing else lost |
| OverridesExact.RebuildsExactly | sdk/typescript/src/exec.ts:267-305 | every override is read and together they rebuild the configuration without undefined children and hollow tables, under any table merge that adds nothing for an empty table, exactly when it is empty or every path to a leaf is addressable and every leaf legible |
| OverridesExact.ReadBackExactly | workx-rs/utils/cli/src/config_override.rs:49-93 | the lines of a configuration are read as what they were written for, one by one, exactly under that condition |
| OverridesRoundTrip.BareFaithful | sdk/typescript/src/exec.ts:267-305 | with bare keys, no U+007F and no value under the aliased top-level key, every line of a configuration reads back |
| OverridesRoundTrip.DottedKeyCollides | sdk/typescript/src/exec.ts:291-303 | a dotted key and a nested table give the same overrides |
| GateTheorems.StableNameMeaning | scripts/mcp_conformance/run_workx_compliance.py:1443-1449 | exactly a decimal number after the last hash sign is dropped, so retries share one identity |
| GateRun.ReadCases | scripts/mcp_conformance/run_workx_compliance.py:1593-1613 | the loop keeps the first case of each required mode and transport and reports an issue exactly when the cases are not proper |
| GateRun.ReadChecks | scripts/mcp_conformance/run_workx_compliance.py:1634-1664 | the loop adds exactly the well-formed checks, reports an issue exactly when one is malformed, and collects the scenarios shown |
| GateRun.ReadBucket | scripts/mcp_conformance/run_workx_compliance.py:1516-1554 | the loop adds exactly the listed identities and reports malformed and repeated records |
| GateRun.RequiredChecks | scripts/mcp_conformance/run_workx_compliance.py:1459-1679 | from either format the reader returns exactly what the report records, and the error list stays as it was exactly when the report is complete |
| GateRun.EvaluateGate | scripts/mcp_conformance/run_workx_compliance.py:1744-1809 | the verdict is the one the relational specification determines: success, and four sorted lists with exactly the new, missing, known and fixed checks |
| GateRun.CompactBaseline | scripts/mcp_conformance/run_workx_compliance.py:1682-1726 | a compact form is made exactly for complete reports that record a policy and have no shipping failure, and it lists exactly their passing and failing checks |
| GateTheorems.Reflexive | scripts/mcp_conformance/run_workx_compliance.py:1744-1809 | a report passes against itself exactly when a baseline can be made of it |
| GateTheorems.PassesTransitive | scripts/mcp_conformance/run_workx_compliance.py:1744-1809 | passing is transitive |
| GateTheorems.VerdictUnique | scripts/mcp_conformance/run_workx_compliance.py:1761-1809 | the verdict, lists and order included, is determined by the two reports |
| GateTheorems.CompactRecords | scripts/mcp_conformance/run_workx_compliance.py:1682-1726 | the compact form records the passing and failing checks of the report and drops what was only skipped |
| GateTheorems.CompactComplete | scripts/mcp_conformance/run_workx_compliance.py:1556-1591 | the compact form reads as complete exactly when every required case and scenario has a check that was not skipped |
| GateTheorems.CompactFaithful | scripts/mcp_conformance/run_workx_compliance.py:1682-1809 | against the compact form every candidate gets the same four lists, and the same success exactly under that condition |
| GateTheorems.CompactIdempotent | scripts/mcp_conformance/run_workx_compliance.py:1682-1726 | compacting a compact baseline changes nothing, and is possible exactly under that condition |
| GateSkips.SkipsAreLost | scripts/mcp_conformance/run_workx_compliance.py:1682-1726 | for every catalogue of named scenarios, a complete report with one skipped check for each required scenario passes against itself and fails against its own compact form |
| GateTheorems.NoDrift | scripts/mcp_conformance/run_workx_compliance.py:1744-1809 | along any chain of releases, each judged against the compact baseline of the one before, every release passes against the first |
| GateVerdict.PassesExactly | scripts/mcp_conformance/run_workx_compliance.py:1744-1809 | a candidate passes exactly when both reports are complete under one policy, no shipping check fails in either, and for every check: one that passed in the baseline passes, one that failed there is still seen, and none fails that did not fail there |
| GateVerdict.NoneWorse | scripts/mcp_conformance/run_workx_compliance.py:1744-1809 | along any chain of re-baselined releases no check is worse, in these three ways, than in the first |
| GateVerdict.ListsMean | scripts/mcp_conformance/run_workx_compliance.py:1768-1800 | which checks each of the four lists holds, in terms of what the two reports record |
| GateVerdict.FailuresAccounted | scripts/mcp_conformance/run_workx_compliance.py:1768-1800 | every failure of the baseline is known, fixed or missing; known and missing together exactly when the baseline also passed it and the candidate only fails it |
| GateVerdict.ListsDecide | scripts/mcp_conformance/run_workx_compliance.py:1791-1809 | for comparable reports success means that nothing is new and nothing missing, and fails exactly when some check is worse |
| GateVerdict.ListOrder | scripts/mcp_conformance/run_workx_compliance.py:1768-1800 | the lists are in order of mode, transport, source, scenario and check |
| GateEvidence.FullComplete | scripts/mcp_conformance/run_workx_compliance.py:1459-1679 | a full report is complete exactly when, in terms of its JSON, each of the three modes has one case for each transport whose checks are all well described, and the scenarios shown by the official and harness checks over HTTP are exactly those of the catalogue |
| GateEvidence.FullRecorded | scripts/mcp_conformance/run_workx_compliance.py:1593-1664 | a full report records a check with an outcome exactly if that was observed in the only case of its mode and transport |
| GateEvidence.BaselineComplete | scripts/mcp_conformance/run_workx_compliance.py:1500-1591 | a compact baseline is complete exactly when its records, each naming one check and no two in a list the same, show every mode over both transports and exactly the scenarios of the catalogue |
| GateEvidence.CompactRecorded | scripts/mcp_conformance/run_workx_compliance.py:1516-1554 | a compact baseline records exactly the checks that its two lists name |
| ReviewRun.ReadCases | scripts/mcp_conformance/review_regressions.py:940-993 | the loop over the cases reads exactly the first case of each kind and reports an issue exactly when the cases are not proper or a probe repeats |
| ReviewRun.RequiredChecks | scripts/mcp_conformance/review_regressions.py:859-1029 | from either format the reader returns the probes of the report, and the error list stays as it was exactly when the report is consistent |
| ReviewRun.EvaluateGate | scripts/mcp_conformance/review_regressions.py:1070-1110 | the verdict of the relational specification, with four sorted lists |
| ReviewRun.CompactBaseline | scripts/mcp_conformance/review_regressions.py:1032-1067 | a compact form is made exactly for consistent reports |
| ReviewTheorems.ProbesMeaning | scripts/mcp_conformance/review_regressions.py:940-993 | the probes of a consistent full report are exactly the checks of its cases |
| ReviewTheorems.SameProbes | scripts/mcp_conformance/review_regressions.py:859-1067 | the reader returns the same check map from the compact form |
| ReviewTheorems.CompactConsistent | scripts/mcp_conformance/review_regressions.py:995-1067 | the compact form of a consistent report is consistent, totals included |
| ReviewTheorems.CompactIdempotent | scripts/mcp_conformance/review_regressions.py:1032-1067 | compacting a compact baseline changes nothing |
| ReviewTheorems.CompactFaithful | scripts/mcp_conformance/review_regressions.py:1032-1110 | every candidate gets the same verdict against a report and its compact form |
| ReviewTheorems.PassesTransitive | scripts/mcp_conformance/review_regressions.py:1070-1110 | passing is transitive |
| ReviewTheorems.NoDrift | scripts/mcp_conformance/review_regressions.py:1070-1110 | along any chain of re-baselined releases every release passes against the first |
| ReviewTheorems.PassesExactly | scripts/mcp_conformance/review_regressions.py:1070-1110 | a candidate passes exactly when both reports are consistent, every probe of the baseline is there, and none fails that did not fail in the baseline |
| ReviewTheorems.NoneWorse | scripts/mcp_conformance/review_regressions.py:1070-1110 | along any chain of re-baselined releases no probe is worse than in the first |
| ReviewTheorems.FailuresAccounted | scripts/mcp_conformance/review_regressions.py:1070-1110 | every failure of the baseline is in exactly one of the known, fixed and missing lists |
| ReviewTheorems.ListOrder | scripts/mcp_conformance/review_regressions.py:1070-1110 | the lists are in order of mode, transport and check |
| ReviewWriter.WrittenConsistent | scripts/mcp_conformance/review_regressions.py:836-854 | the report that the runner writes is read as consistent exactly when it ran the three modes, ran every required case once and no other, and every case made checks with names of their own; its totals then agree with those the reader counts, whatever the outcomes |
| ReviewWriter.WrittenProbes | scripts/mcp_conformance/review_regressions.py:836-854 | from such a report the reader gets exactly the checks that the cases made |
| ReviewPlan.PlanCases | scripts/mcp_conformance/review_regressions.py:779-835 | the loops plan exactly the cases that run in the given modes, none twice if no mode is named twice |
| ReviewPlan.RunAccepted | scripts/mcp_conformance/review_regressions.py:71-92 | the cases planned for the three modes are the required ones, so the report of a run is consistent exactly when every case made checks with names of their own |
| AppServer.Client.constructor | scripts/mcp_conformance/run_workx_compliance.py:159-179 | a new client has sent nothing and counts from one |
| AppServer.Client.HandleServerRequest | scripts/mcp_conformance/run_workx_compliance.py:319-353 | a server request is buffered and answered once, with its own id: an elicitation is accepted with the content for its form, any other request refused by name |
| AppServer.Client.Request | scripts/mcp_conformance/run_workx_compliance.py:242-276 | what is sent is this request under a fresh id and then one answer for each server request among what was taken; only a response with the fresh id is returned; everything taken before it is buffered in order and the rest of the queue is left |
| AppServer.Client.WaitForNotification | scripts/mcp_conformance/run_workx_compliance.py:278-317 | a returned message is the first match of the buffer or else of the queue; on failure nothing taken matched; in every case what was taken is buffered in order, each server request among it answered once, and the rest of the queue is left |
| AppServer.FirstMeaning | scripts/mcp_conformance/run_workx_compliance.py:285-317 | a message is found exactly if it matches, or ends a wait, and nothing before it does |
| AppServer.TimingIndependent | scripts/mcp_conformance/run_workx_compliance.py:278-317 | wherever arrivals split between buffer and queue the wait finds the first match, exactly when that match is not a server request |
| AppServer.NothingMissed | scripts/mcp_conformance/run_workx_compliance.py:242-317 | for a notification-only method nothing that arrives during an earlier request is missed |
| AppServer.ServerRequestDependsOnTiming | scripts/mcp_conformance/run_workx_compliance.py:278-317 | a server request with the awaited method is found in the buffer and passed over in the queue |
| Release.ShowParses | sdk/python/release_version.py:10-12 | the pattern of normal versions matches every version in exactly one way |
| Release.ParseShows | sdk/python/release_version.py:10-12 | whatever matches is the text of a version |
| Release.NormalizeIdempotent | sdk/python/release_version.py:68-82 | normalising a normal form changes nothing |
| Release.TagRoundTrip | sdk/python/release_version.py:45-82 | normalising the tag of any accepted version gives its normal form |
| Release.TagInjective | sdk/python/release_version.py:45-82 | versions share a tag exactly when they share a normal form |
| ReleaseForms.NormalizeMarked | sdk/python/release_version.py:68-82 | every spelling of a pre-release, with white space, a prefix and an optional dot, normalises to the short form |
| ReleaseForms.NormalizeHotfix | sdk/python/release_version.py:68-82 | a hotfix of an alpha release normalises to its post-release |
| ReleaseForms.NormalizeNormal | sdk/python/release_version.py:68-82 | a version in normal form is its own normal form in every spelling |
| ReleaseForms.TagsOfStrings | sdk/python/release_version.py:45-65 | the tags of alpha, beta, candidate and hotfix versions, as strings, for every base and all numbers |
| ReleaseForms.TagOfPrerelease | sdk/python/release_version.py:45-65 | the tag of a numbered pre-release spells out its kind, whatever the spelling |
| ReleaseForms.TagOfHotfix | sdk/python/release_version.py:45-65 | the tag of a hotfix ends in both numbers |
| ReleaseForms.TagOfOther | sdk/python/release_version.py:45-65 | every other tag is the normal form after the prefix |
| Sse.RoundTrip | scripts/mcp_conformance/server.py:1344-1371 | decoding an encoded stream gives the messages, in all three framings, whatever comments precede them |
| Sse.FloodIgnored | scripts/mcp_conformance/server.py:1349-1357 | a flood of comment lines, each of the promised length, is ignored |
| Sse.StreamLines | scripts/mcp_conformance/server.py:1344-1371 | the lines of a stream are the comment lines of its profile (4097 of 2047 characters for the flood, one for the carriage-return profile, else none) and then a data line and an empty one for each message |
| Sse.StreamEnds | scripts/mcp_conformance/server.py:1344-1371 | the two comment profiles end lines with carriage returns only, all others with line feeds only |
| Sse.FloodSize | scripts/mcp_conformance/server.py:49-52 | a flood is longer than the limit of eight mebibytes on one event |
| Search.SearchDirectory | workx-desktop/src/main.ts:200-231 | the recursion with early returns adds to the shared list the unlimited walk, cut at the limit |
| Search.SearchRoots | workx-desktop/src/main.ts:233-252 | over all roots the result is the first 200 entries of the unlimited walk for the trimmed query in lower case, and nothing if that is empty |
| Search.WalkMember | workx-desktop/src/main.ts:206-230 | the walk finds exactly the matching entries reachable through directories that are entered, within the depth limit |
| SearchOrder.WalkInOrder | workx-desktop/src/main.ts:200-231 | the walk lists each hit once in depth-first order: the trails to its entries increase strictly, and they are all the trails that lead to a matching name |
| SearchOrder.RootsInOrder | workx-desktop/src/main.ts:233-252 | roots are walked one after the other |

## Left out

- React's render lag: a `dispatch` is taken to be part of the step that makes it, so code that runs between a dispatch and the next render, still seeing the old state, is not modelled.
- The environment of the session is over-approximated: any call may settle at any time with any reply, and notifications may name any thread and turn.
- Liveness of the queue: a late turn reply can leave the running flag set, so only safety is stated.
- Session: the images of messages, pending-steer markers, errors, warnings, approvals, side-chat panels and goal texts beyond whether a message is a goal; a goal text of only white space counts as a goal.
- Catalog.CollectProviderModels: one collection without interleaving; the configured provider does not change during it.
- Toml: numbers are integers of any size; the source prints fractions, and integers from 10^21 on, in other forms, and the command line's TOML reader only takes 64-bit integers.
- Toml: strings are sequences of Unicode scalar values, so lone surrogates are not modelled; the parser covers the part of TOML that the printer emits, without eight-digit escapes, literal strings, comments and dates.
- OverrideTree.ApplyLook: `apply_toml_override` moves a cursor through the tree and updates it in place; the model is a recursive function on values.
- Overrides: the merging of two tables at a structured feature is a parameter. It never applies when the lines read back; `OverridesExact.RebuildsExactly` otherwise only needs that merging an empty table into a table leaves it alone, as `merge_toml_values` does at the top (workx-rs/config/src/merge.rs:58-130).
- GateRun.RequiredChecks: the texts of the issues are not modelled, only that some issue is reported; a JSON array or object where a name is expected counts as malformed, where the source raises a type error.
- GateTheorems.StableNameMeaning: decimal digits are those of ASCII.
- Gate, Review and AppServer: JSON numbers are integers, and a boolean never equals a number.
- AppServer: sending to a process that has exited raises in the source; here every send succeeds.
- ReviewWriter.WrittenConsistent: of each case and check only the fields that the reader looks at; running a case is not modelled, its checks are any.
- Release: the command-line wrapper and its stricter pattern for runtime versions.
- Sse: the UTF-8 encoding of the text, and event names, ids and retry times, which no frame uses.
- Search: file-system links and changes during a search; lower-casing and path joining are parameters.
- Provider: numbers are integers; the merging of a saved table into an existing one happens in the app server and is not part of this model.
- Reducer actions that only replace one field (status, projects, threads, models and the like).
- Packaging, installation and version-bump scripts, the argument-comment lint, the Python SDK generator, Electron IPC and all views: little logic that a proof would add to.
