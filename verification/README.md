# Verification of the cmdcode-go plugin

A Dafny 4.11 model of the state machines behind the plugin: it answers OpenAI chat requests with turns
on a gateway, relays streams to a host, keeps upstream conversations apart, follows a model list that
can be replaced while it runs, and is released by two maintenance scripts.
`dafny verify dfyconfig.toml` checks the whole project.

## What is modelled

- **Task lifetime and the host pointer** (`Lifecycle.dfy`, `LifecycleSafety.dfy`, `LifecycleProgress.dfy`,
  `Runtime.dfy`). The adapter, any
  number of plugin instances one after another, callers that hold a stale reference, tasks, stream
  goroutines and host callbacks are one labelled step system. A step is one region under a lock, one
  callback entered or left, one release or one `done`. The safety theorems are about every sequence of
  steps; beside them stands what can happen from every state these reach: a lease is granted, a turn goes
  through a stream to the host and back, a shutdown comes to its end. The sessions of each instance are the store below, so the ownership of leases is part of it. The
  adapter and the instances are also objects, whose methods are proved to take these steps.
- **Session store with leases** (`Sessions.dfy`, `Leases.dfy`, `Conversations.dfy`, `SessionStore.dfy`). A class with the
  entry map, the recency list and release closures is proved against a function on rows; the rows are
  proved to refine a map with a reference meaning of acquire; and runs of acquires and releases, with
  closures called any number of times, keep leases and busy entries in step. When a conversation goes on
  and when it starts anew is told in times, over runs.
- **NDJSON turns** (`Turns.dfy`, `Rendering.dfy`, `EventDecoder.dfy`, `Streams.dfy`, `TurnMeaning.dfy`). One
  reading of a line list is the reference, and what it comes to is told over the lines themselves. The decoder class follows it in both modes, against a host that may take,
  refuse or never see each frame. Folding what a client receives gives the same message for the stream,
  the buffered response and the buffered chunks.
- **Configuration, model registry and turn snapshots** (`Configuration.dfy`, `Registry.dfy`,
  `Snapshots.dfy`, `SnapshotSafety.dfy`, `SnapshotProgress.dfy`, `PluginState.dfy`). A configuration request is merged field by
  field or refused as a whole. The registry is a class over value functions, a refresh being two methods because
  its lock is not held during the download. Configuration, refreshes and snapshots are then
  interleaved as steps: what every run keeps, and which refreshes start and are served.
- **Names, routing and rosters** (`Text.dfy`, `Models.dfy`, `Names.dfy`, `Routing.dfy`, `Rosters.dfy`,
  `Catalogue.dfy`, `Filters.dfy`). The two index maps, the parsing of names, the filters, the two paths on which one
  request name is parsed, the checks a downloaded roster must pass, and the list the host registers.
- **Session evidence and message conversion** (`Identity.dfy`, `WireMessages.dfy`).
- **Maintenance scripts** (`Release.dfy`, `ReplaceOutputs.dfy`, `Resolve.dfy`). Release publication
  against a store in which every call may fail before or after it took effect; replacing several files
  together; finding the catalogue record of a model id.

What comes from outside is a parameter: clocks, `newID` and `newUUID` (an id source `nat -> string`),
the outcome of downloads, file examinations and callbacks, parsed JSON, and the meaning of a duration
string. Integers are unbounded except where the code adds token counts, which wrap like a Go `int`
(`Rendering.Add64`).

## Results that differ from what one might expect

- ARCHITECTURE.md:92-95 says that efforts `none` and `off` fail; the code omits them (go/models.go:153-158),
  and so does the model (`Routing.EffortOf`).
- A name that routes is not always prepared: with a roster id that ends in a slash the empty name routes
  and is then refused (`Catalogue.EmptyNameRoutesButDoesNotPrepare`). `Routing.RoutedNamesPrepareTheSame`
  shows that the empty rest is the only such case in stable rosters, apart from an effort in the body
  that fails.
- The model that is sent is not always the one that was filtered, because the name is parsed a second
  time on the way to the gateway. `Routing.FilteredModelIsSentExactly` gives the exact condition: the
  two agree for all names, filters and bodies if and only if the roster is stable, that is, whatever
  parsing can leave of a name and the roster knows, it knows as the same model after parsing once more,
  or then as nothing while it already is the id. `Routing.StableRosterIsCheckable` turns this into a
  check of the ids and basenames, and plain ids pass it (`Routing.PlainRosterIsStable`). The roster
  checks of the code do not ensure it. Two kinds of files are accepted and fail: an id that is another
  id with a suffix in parentheses, where a disabled model is sent
  (`Catalogue.AcceptedSuffixEscapesTheFilter`), and an id that begins with the plugin's namespace in
  other letters, where a name is sent that is not in the roster
  (`Catalogue.AcceptedNamespaceEscapesTheRoster`).
- A structural catalogue match is returned exactly when one compatible record has the query's dates,
  dated or not: the date preference and the final date check of the code come to that
  (`Resolving.Structural`).

## Model

| member | source | states |
|---|---|---|
| LifecycleSafety.EveryRunKeepsInv | go/abi_runtime.go:17-61 | In every interleaving: the stored host pointer, `active`, task counters, sibling links and lease owners stay consistent, and every instance that is not active has stopped and drained |
| LifecycleSafety.CallbackUsesOwnHost | go/stream.go:10-26 | While any task of an instance is registered, inside a callback or not, the stored host pointer is the one installed for that very instance, which is still the active one; that streams do get there is LifecycleProgress.StreamGoesThrough |
| LifecycleSafety.StaleCallerIsRefused | go/plugin.go:43-57 | `begin` through a reference to an instance that is no longer active is refused, however late, and changes nothing else |
| LifecycleSafety.HostClearedOnlyWhenDrained | go/abi_runtime.go:44-61 | When the host pointer is about to be cleared no instance has a task and no conversation of any instance is busy |
| LifecycleSafety.AfterWaitNothingIsLeased | go/abi_runtime.go:53-60 | From the return of `Wait` on, while the pointer is cleared and in every continuation of the run, the instance has no task, no outstanding lease and no busy conversation, and never changes |
| LifecycleSafety.LeaseHasOneOwner | go/executor.go:156-203 | Each outstanding lease has exactly one owner, a registered task of its own instance, across the hand-over to the stream goroutine and on all error returns; that a lease is made and handed over is LifecycleProgress.AcquireMakesTurn and StreamGoesThrough |
| LifecycleSafety.LeaseReleasedExactlyOnce | go/executor.go:139-203 | In any run the number of release steps of a lease is one if it is spent and zero otherwise |
| LifecycleSafety.ShutdownReleasedEverything | go/plugin.go:59-66 | Once `Wait` has returned for an instance every lease it ever granted has been released exactly once |
| LifecycleProgress.StreamGoesThrough | go/executor.go:184-201 | From every reachable state a prepared turn of an instance that is not stopping can go to a stream, step after step: the sibling is one more task from its admission to its done, has the turn's lease from the hand-over to the release, is inside the host under its own instance's pointer for a frame and for the close, and leaves the counter as it was and the lease spent |
| LifecycleProgress.OpenedStreamGoesThrough | go/stream.go:10-26 | Once the sibling is admitted the same holds even if the instance has begun to stop |
| LifecycleProgress.OtherTurnSteps | go/executor.go:156-199 | A call without an identity has a turn without a lease; an instance that stops refuses the stream and the turn ends with its lease; an upstream that does not open gives the turn back and ends the sibling |
| LifecycleProgress.ShutdownCanEnd | go/abi_runtime.go:44-61 | From every reachable state with an active instance, whatever its tasks are doing, some continuation drains it and brings the shutdown to its end |
| LifecycleProgress.InitializeGoesThrough | go/abi_runtime.go:17-30 | On a free adapter Initialize changes nothing if an instance is active, and else installs the host pointer and a fresh instance that serves under it |
| LifecycleProgress.CallIsAdmitted | go/plugin.go:43-57 | A call that reads the active instance is admitted as one more task unless the instance is stopping, when nothing changes |
| LifecycleProgress.AcquireMakesTurn | go/executor.go:36-69 | An admitted call gets a turn with a new outstanding lease on its conversation if and only if no lease on it is outstanding and the store has room or an idle row; otherwise the call ends without a lease |
| Runtime.PluginRuntime.Initialize | go/abi_runtime.go:17-30 | On objects, takes the steps of the model: nothing when an instance is active, else the host pointer and a new instance |
| Runtime.PluginRuntime.Handle | go/abi_runtime.go:32-41 | Reads the active instance by the model's step; the reference outlives the lock |
| Runtime.PluginRuntime.BeginOn | go/plugin.go:43-57 | `begin` through any reference, stale or not, takes the model's step for that instance |
| Runtime.PluginRuntime.DoneOn | go/plugin.go:55-56 | The done closure takes the model's step |
| Runtime.PluginRuntime.ShutdownStart | go/abi_runtime.go:44-53 | Up to the wait, Shutdown takes the model's steps: the active instance admits no more tasks |
| Runtime.PluginRuntime.ShutdownFinish | go/abi_runtime.go:53-60 | After the wait the pointer is cleared and the instance dropped, by the model's steps |
| Sessions.SweepKeeps | go/session.go:49-57 | The sweep keeps exactly the rows that are busy or were touched less than the limit ago, and keeps keys unique |
| Sessions.SweepOrdered | go/session.go:49-57 | The sweep keeps the order by last touch |
| Sessions.VictimIsLeastRecent | go/session.go:64-75 | The idle row nearest the back of an ordered list is a least recently touched idle conversation |
| Sessions.AcquireRefinesMap | go/session.go:45-89 | On a map from key to id, last touch and busy, acquire does what the reference allows: busy refuses, idle is reused with its id, a new key needs room made by a least recently touched idle cell, all busy refuses; cells that are idle and were touched the limit ago or longer count as absent |
| Sessions.AcquireKeepsShape | go/session.go:45-83 | Unique keys, the size bound and the recency order survive acquire |
| Sessions.ReleaseRefinesMap | go/session.go:85-87 | Release makes the key's cell idle and freshly touched and changes no other, keeping order, keys and size |
| Leases.AcquireGrants | go/session.go:58-88 | Whatever the clock says, acquire never expires, evicts or replaces a busy conversation, and a grant makes busy exactly the requested one, which was not |
| Leases.TakeKeepsInv | go/session.go:45-89 | Acquire keeps outstanding leases and busy conversations in one-to-one correspondence and refuses a leased key |
| Leases.ReturnKeepsInv | go/session.go:84-87 | Calling a closure, also again, keeps the correspondence |
| Leases.EveryRunIsSafe | go/session.go:45-89 | Every run of acquires and closure calls under any clock: at most `capacity` conversations, at most one outstanding lease each, busy exactly while leased |
| Leases.LeaseIsUndisturbed | go/session.go:49-87 | No step but its own release touches a leased conversation, in particular no old closure |
| Leases.RunIsSorted | go/session.go:80-87 | With a clock that does not go back the list is sorted by last touch at every moment of every run |
| Leases.EveryTakeRefinesMap | go/session.go:45-89 | In every run with such a clock each acquire does to the map what the reference says |
| Conversations.ConversationGoesOn | go/session.go:45-89 | Over runs with a clock that does not go back: a conversation asked for less than the limit after its last return goes on under its id if the store had room meanwhile; from the limit on, what is granted is new |
| Conversations.IdleRowStays | go/session.go:49-57 | In a store with room, of the idle rows of other keys exactly those touched less than the limit ago stay, as they are |
| Conversations.IdByAge | go/session.go:48-88 | An idle row's id is handed out again while it was touched less than the limit ago; from then on a grant has the fresh id |
| Conversations.GrantedExactly | go/session.go:58-76 | A lease is granted if and only if none is outstanding on the key and there are fewer rows than the capacity or some idle row |
| SessionStores.SessionStore.constructor | go/session.go:38-40 | An empty store that satisfies the invariant |
| SessionStores.SessionStore.Expire | go/session.go:49-57 | The backwards loop with removal leaves exactly the swept rows |
| SessionStores.SessionStore.Victim | go/session.go:64-70 | The backwards search finds the idle entry nearest the back |
| SessionStores.SessionStore.Acquire | go/session.go:45-89 | Map and list hold the same entries, and result and rows are those of the row function; the closure is new and on the entry stored under the key |
| SessionStores.SessionStore.Release | go/session.go:84-87 | The first call of a closure releases its own entry, further calls change nothing |
| Turns.TerminalIsFinal | go/event_decoder.go:33-39 | Lines after the first terminal event do not matter |
| Turns.ScanBounds | go/response.go:119-184 | Every visible piece has text or is a call with an id, and a finished turn has fewer pieces than lines |
| Rendering.AccumulateMeans | go/response.go:119-184 | The accumulator holds the concatenated texts, the concatenated thoughts and the calls in order, or nothing of the answer when discarding |
| Rendering.Add64Wraps | go/response.go:434-440 | The token total is the sum wrapped into 64 bits, and the sum itself when it fits |
| Rendering.FoldEmitted | go/response.go:334-369 | Folding the frames of a finished stream gives the texts, the thoughts, the calls by index, the finish reason and the usage |
| Rendering.ChunksReadLikeResponse | go/response.go:296-393 | The buffered chunks fold to the message of the buffered response, for every accumulator |
| Decoding.EventDecoder.constructor | go/event_decoder.go:24-31 | A decoder that has read nothing |
| Decoding.EventDecoder.Show | go/response.go:119-170 | A visible piece is kept or only noted, and framed with the role if first and the next tool index, as the pieces say |
| Decoding.EventDecoder.ApplyEvent | go/response.go:119-192 | One event extends the reading as the reference says, in both modes; what that comes to over the lines is TurnMeaning.MessageByLines and VerdictByLines |
| Decoding.EventDecoder.Conclude | go/event_decoder.go:70-79 | The end of a finished stream: a bare role if nothing was sent, then the final frame |
| Decoding.EventDecoder.Push | go/event_decoder.go:33-81 | One line advances the reading by one step; the new frames are exactly what the longer reading sends more, none with a fault |
| Decoding.EventDecoder.Finish | go/event_decoder.go:83-93 | End of input turns a running turn into a truncated one and leaves others as they ended |
| Decoding.EventDecoder.Consume | go/event_decoder.go:95-122 | Both modes end with the same verdict on the lines; a sink is called with the frames of the whole input up to and including the first it rejects |
| Streams.RelayStream | go/stream.go:10-26 | The host gets those frames and then exactly one close, with the verdict or the rejection |
| Streams.ConsumeTurn | go/executor.go:119-137 | The buffered turn has the same verdict and on success the accumulation of the same reading |
| Streams.SameTurnSameMeaning | go/response.go:296-393 | For every line list that ends well, the streamed frames, the buffered response and the buffered chunks are the same message to a client |
| Streams.FrameDiscipline | go/response.go:334-369 | The first frame alone carries the role, all share the header, and a finish reason comes only in the last frame, exactly when the turn finished |
| Streams.CallsAreNumbered | go/response.go:119-170 | Tool indices are 0, 1, 2, ...; frames number at most lines read plus one |
| Streams.ChunksFollowDiscipline | go/response.go:372-393 | The buffered chunks keep the discipline of a stream: one header, the role first, the calls numbered, the finish reason in the last alone |
| Streams.CleanCloseMeansFinished | go/stream.go:17-25 | The close is without message exactly when the host took a frame with the finish reason, as the last one it was called with |
| Streams.HostIsCalledUntilRefusal | go/stream.go:15-25 | The host gets the frames in order up to the first it does not take: none after a refusal or a cancellation, and then the close says so |
| TurnMeaning.VerdictByLines | go/event_decoder.go:33-81 | For every input the first line that ends the turn decides: a line over a limit, unreadable JSON, a missing type, bad arguments, an error with its message, an abort, or a finish line; without one the read failed or was cut short |
| TurnMeaning.MessageByLines | go/response.go:119-184 | For every input, what a client of the stream has at the end: the words of the text lines, the words of the reasoning lines and the calls of the call lines by index with id, name and compact arguments, all from before the ending line; and the finish reason and usage of a finish line |
| TurnMeaning.ResponseByLines | go/response.go:294-317 | The buffered response of a turn that ends well says the same, under the model asked for, with reasoning and calls only if there are any |
| Registries.ModelRegistry.constructor | go/models_remote.go:59-65 | A registry that serves the compiled roster |
| Registries.ModelRegistry.Configure | go/models_remote.go:78-95 | Changed source settings start a clean generation, with the fallback models if they disable refreshing; the same settings change nothing |
| Registries.ModelRegistry.RefreshStart | go/models_remote.go:105-134 | Starts a download exactly when enabled, not loading, not within the retry interval of a failure, and the source looks newer; an unreadable file counts as a failure |
| Registries.ModelRegistry.RefreshEnd | go/models_remote.go:135-157 | A ticket of the current generation with an accepted roster, not cancelled, makes that roster the current models; a failure is recorded and leaves them; an older ticket changes nothing |
| SnapshotSafety.EveryRunKeepsInv | go/plugin.go:68-88 | In every interleaving the two stores agree outside Configure, one flight owns `loading`, and all snapshots taken are coherent and in generation order |
| SnapshotSafety.EveryTurnIsCoherent | go/plugin.go:79-88 | Each snapshot's configuration has the registry's source settings, and fallback models when it disables refreshing, although refreshes publish without the state lock |
| SnapshotSafety.LoadingIsOneCurrentRefresh | go/models_remote.go:131-139 | `loading` holds exactly when a refresh of the current generation is downloading, and there is only one |
| SnapshotSafety.RunProgresses | go/models_remote.go:78-95 | Along every run generations never decrease, and settings change only with them |
| SnapshotSafety.StaleRefreshChangesNothing | go/models_remote.go:137-141 | A refresh that was downloading when the settings changed changes nothing of the registry when it ends, even if they were changed back |
| SnapshotSafety.ModelsChangeOnlyForGood | go/models_remote.go:103-157 | The current models change only to an accepted roster of the current generation, or to the fallback when settings disable refreshing; a failure keeps the last good ones; the converse is SnapshotProgress.AcceptedRosterIsServed |
| SnapshotSafety.UnchangedFileIsNotReadAgain | go/models_remote.go:115-127 | In every run, after a models file was published no download starts and the models stay while the source settings and the file's time do, over all interleavings of tries, stale refreshes, configurations and snapshots |
| SnapshotSafety.EveryRunIsSpaced | go/models_remote.go:105-134 | Successive download starts of one generation from a URL are at least min(interval, 5 minutes) apart |
| SnapshotSafety.DownloadsAreBounded | go/models_remote.go:105-157 | In a stretch of length T one generation starts at most T / min(interval, 5 minutes) + 1 downloads from a URL |
| SnapshotProgress.AcceptedRosterIsServed | go/models_remote.go:135-157 | In every run a refresh of the current source that ends in time with an acceptable file makes its models the current ones at once, and every snapshot has them until another file is published or the source changes |
| SnapshotProgress.DueRefreshStarts | go/models_remote.go:105-134 | A refresh that is tried starts a download if and only if refreshing is switched on, none is under way, five minutes have passed since a failed one began, and the file is new or changed, or the URL was never read or an interval ago; otherwise nothing changes but a failure noted for a file that cannot be examined |
| SnapshotProgress.NewSourceIsAsked | go/models_remote.go:78-95 | After settings that change the source the next refresh asks it, whatever was loading, failed or fresh before; the models stay, or fall back when refreshing is switched off |
| SnapshotProgress.FailedRefreshIsRetried | go/models_remote.go:142-153 | A failed, cancelled or unacceptable download keeps the models and is tried again by a refresh five minutes after its start, and not before |
| SnapshotProgress.TurnAfterConfiguration | go/plugin.go:68-88 | From every state with the state lock free a configuration can be taken over, and the next turn has that very configuration and the models of the moment |
| SnapshotProgress.TurnTakesTheMoment | go/plugin.go:84-88 | Every turn takes the stored configuration and the current models of one moment |
| Configuration.MergeKeepsMissingFields | go/config.go:87-134 | In a merge a missing field keeps its value, null clears it, a text sets it, and a list is set as a whole |
| Configuration.ReadList | go/config.go:110-134 | A list field is cleared by null, split at commas, or taken item by item, and refused if an item is blank or no text |
| Configuration.EntriesAreTrimmed | go/config.go:118-122 | Each entry of a comma-separated list is a non-empty piece without white space around it |
| Configuration.SplitRejoins | go/config.go:118 | The pieces of a list text have no commas and join to the text again |
| Configuration.EntriesOneByOne | go/config.go:118-122 | Each piece in its place gives its own trimmed entry, or none when it is blank |
| Configuration.ItemsOneByOne | go/config.go:123-129 | A sequence gives every item trimmed and in order, or is refused when one is no text or blank |
| Configuration.MergeScalars | go/config.go:89-109 | In whatever order the fields are traversed, the result is the merge, or none if any field has the wrong kind of value |
| Configuration.DecodeConfig | go/config.go:54-139 | The merge exactly when the request is readable and validation passes, otherwise nothing |
| Configuration.ConfigStore.Update | go/config.go:164-173 | The stored configuration becomes the merge as a whole, or stays as it was |
| PluginState.Plugin.Configure | go/plugin.go:68-77 | Both stores change or neither, whatever downloads are outstanding |
| PluginState.Plugin.RefreshEnd | go/models_remote.go:135-157 | A refresh that ends without the state lock keeps the two stores coherent |
| PluginState.Plugin.TakeSnapshot | go/plugin.go:84-88 | The pair is coherent at any time between configurations and refreshes that begin and end |
| Models.NewModelSnapshot | go/models.go:31-49 | `byID` finds the last entry with an id; `byShort` the only entry with a basename, -1 for several |
| Models.Match | go/models.go:75-86 | The look-up through the two maps finds what a linear scan of the roster finds |
| Names.KeysFold | go/models.go:58-86 | Names that differ only in case are looked up under one key |
| Names.EveryBaseIsLeft | go/models.go:58-73 | Parsing can leave anything that ends visibly, with any suffix: what it leaves is the converse of putting the namespace before it and the suffix behind it |
| Routing.FilteredModelIsSentExactly | go/request.go:116-123 | The model of every prepared turn is the one that was matched and filtered, for all names, filters and bodies, if and only if the roster is stable |
| Routing.UnstableLosesModel | go/request.go:116-119 | For each base that does not survive another parse, the name that is then prepared for another model than the one matched |
| Routing.StableRosterIsCheckable | go/request.go:116-119 | A roster is stable if and only if each key of its two indexes survives another parse |
| Routing.PlainRosterIsStable | go/models.go:58-86 | Ids without white space, terminal suffix and leading namespace make a stable roster |
| Routing.RoutedNamesPrepareTheSame | go/executor.go:36-52 | For stable rosters a name that routes is prepared for the same model, with the same effort if it has a suffix; it is refused only if parsing leaves nothing of it, or for a body effort that fails |
| Routing.PreparedModelIsAllowed | go/request.go:106-123 | For stable rosters the model of a prepared turn is the one that was matched: not disabled, and among the listed models if any are listed; the converse is Filters.DisabledExactly and Filters.OtherRefusals |
| Routing.DisabledNeverPasses | go/models.go:88-103 | No spelling, suffix or namespace of a disabled entry is routed or prepared |
| Filters.DisabledExactly | go/models.go:88-103 | A name is refused as disabled if and only if something is left of it, it names a model, and that model is named by a disabled entry or left out by a non-empty list of models |
| Filters.OtherRefusals | go/executor.go:42-52 | It is missing, unknown, or prepared unless its effort fails, exactly when parsing leaves nothing, when it names no model, and when the lists let it through |
| Filters.RoutedExactly | go/dispatch.go:61-76 | A name is routed if and only if it names a model that the lists let through and its suffix, if any, does not fail |
| Filters.RegisteredExactly | go/models.go:178-218 | The listings are exactly those of the models the lists let through |
| Filters.ListedModelWorks | go/models.go:88-103 | With plain, distinct ids every listed model that is not disabled is registered, routed and prepared, whatever else is listed |
| Routing.SpellingsAreOneModel | go/models.go:58-86 | A plain id in any case, behind either plugin namespace in any case, with or without a suffix, matches one and the same model |
| Routing.PreparedEffortIsKnown | go/executor.go:36-70 | The effort of a prepared turn is the one requested, by the suffix or else the body, a level of the gateway, and among the levels of the model sent if that lists any |
| Filters.PreparedEffortExactly | go/models.go:139-176 | The effort sent: none without a request or for a word left to the gateway, the level asked for if the model lists it or lists none, and none if the model lists others |
| Routing.EffortsFailByWord | go/models.go:139-176 | With plain ids a known and allowed model is refused exactly for an effort that is no word the gateway or the plugin knows (`none` and `off` are such words) |
| Catalogue.AllowedModelsAreListed | go/models.go:178-218 | Every allowed model is registered |
| Catalogue.AcceptedPlainIsWellFormed | go/models_remote.go:190-229 | An accepted roster of plain ids has distinct, non-empty ids |
| Catalogue.AdvertisedLevelsWork | go/models.go:139-176 | Each advertised level, as suffix of the registered id or in the body, is prepared for that model and unchanged |
| Catalogue.RegistrationIsUsable | go/models.go:178-218 | Every registered listing is some allowed model's; its id matches back to that very definition, routes and is prepared, alone and with each of its levels |
| Catalogue.BudgetsKeepAdvertisedLimits | go/request.go:164-189 | A default budget stays within the advertised limit; one asked for, under either name, is lowered to a gateway cap and by nothing else |
| Filters.AdvertisedExactly | go/models.go:189-199 | A model's advertised output is the gateway's cap, else the reference limit unless that is a fallback |
| Filters.DefaultBudget | go/request.go:166-189 | The budget of a turn that asks for none: 64000 for an unknown model or output, the fallback itself, else the smaller of 64000 and the reference output; a cap lowers each |
| Filters.RequestedBudget | go/request.go:170-187 | A positive max_tokens, else a positive max_completion_tokens, is the budget but for a lower cap; zero or less asks for nothing |
| Catalogue.EmptyNameRoutesButDoesNotPrepare | go/dispatch.go:61-76 | Where routing and preparing differ: an id ending in a slash and a name of which nothing is left |
| Catalogue.AcceptedSuffixEscapesTheFilter | go/request.go:116-119 | A file with the ids m(v) and m is accepted, and with m disabled m(v)(auto) is prepared for m |
| Catalogue.AcceptedNamespaceEscapesTheRoster | go/models_remote.go:203-208 | A file with an id that begins with the plugin's namespace in other letters is accepted, and a name is then prepared for a model that is not in the roster |
| Rosters.ParseModelsFile | go/models_remote.go:190-229 | The loop accepts a file exactly when schema and count are right, every entry is good and no two share a basename up to case; then it returns the definitions in order |
| Rosters.AcceptedShortsDiffer | go/models_remote.go:201-210 | The basenames of an accepted roster differ up to case |
| Rosters.AcceptedExactly | go/models_remote.go:190-219 | A file is accepted if and only if it has the schema's version and 1 to 300 entries with a name left, without blanks, with budgets that are not negative nor above a verified context, and with last parts that differ up to case |
| Rosters.AcceptedFields | go/models_remote.go:204-228 | Entry by entry and field by field, the definitions of an accepted file are its entries; a missing display name is the id, and the id is the trimmed one behind at most one of each namespace |
| Rosters.AcceptedModelsMatch | go/models.go:75-86 | In an accepted roster a name finds a model if and only if what parsing leaves of it is that id, or its basename, up to case; the other entries play no part |
| Identity.ReadHeaders | go/session.go:155-165 | For any traversal order, the headers give one identity or are refused for a repeated, many-valued, invalid or disagreeing one |
| Identity.ObjectFields | go/session.go:104-136 | The fields of an object, or nothing for other values and for repeated names |
| Identity.ExplicitSessionKey | go/session.go:141-205 | Finds the key exactly when scope and account are valid, no evidence is malformed or repeated, and all of it is one valid string; a property of the header map, so no order matters |
| Identity.EvidenceIs | go/session.go:142-203 | The evidence piece by piece: recognised headers, metadata, and the named fields at the top and inside the containers of the body |
| Identity.KeyIsUnanimous | go/session.go:141-205 | A key means that something says so and that every recognised header, the metadata and every named field say the same |
| Identity.OriginalGoesFirst | go/session.go:169-172 | With an original request the payload plays no part; without one it counts as an original would |
| WireMessages.NameIsMostRecent | go/request.go:224-238 | A tool result is named after the last earlier call with its id |
| WireMessages.OrderIsKept | go/request.go:198-257 | Every message that is sent keeps its place, and only system text and empty user turns are not sent |
| WireMessages.AssistantIsSent | go/request.go:207-230 | An assistant message is sent as its reasoning, its text and all its calls in this order, leaving out what is empty; a call without an id gets the next new one |
| WireMessages.ResultIsSent | go/request.go:231-245 | A tool result is sent under its own name, else that of the last call before it with its id, else as unknown |
| WireMessages.ResultFindsItsCall | go/request.go:197-238 | That call is found in whatever earlier message it is |
| WireMessages.SystemTextIsJoined | go/request.go:200-206 | The system text of two lists of messages is that of both with a blank line between, or of the one that has any |
| WireMessages.SendCalls | go/request.go:215-229 | The calls of a message with their ids; the name map holds what a search through all calls so far finds |
| WireMessages.ToWireMessages | go/request.go:194-257 | Fails exactly when some tool arguments are malformed; otherwise the blank-line join of the system texts and the wire messages in order |
| Releases.Remote.DeleteStarter | scripts/release_assets.py:181-183 | Only an empty starter is deleted, and only in a draft |
| Releases.Remote.Upload | scripts/release_assets.py:185-190 | An upload replaces nothing, and the manifest's comes after all others are complete |
| Releases.UploadOne | scripts/release_assets.py:250-264 | One turn of the loop keeps what is uploaded and the manifest rule at every call, fails on any doubt, and succeeds with working calls and no conflict |
| Releases.FinishPublication | scripts/release_assets.py:265-271 | The draft is published only when all assets match |
| Releases.Publish | scripts/release_assets.py:214-273 | With any fate of every call: nothing uploaded is deleted or overwritten, the manifest is present only when all earlier assets match, published only when all match; a conflict is found before the first mutation; without conflict and failing calls the release is completed; a published release has every file with its own size and digest |
| Releases.Rerun | docs/RELEASE.md:42-48 | Safety over any number of retries; while uploads store what they were sent or an empty starter, failures leave a release that can be completed, and an attempt without failing calls completes it |
| Replacing.WrittenMeans | scripts/extract-models.py:533-535 | All outputs in place means each target has its data and other files are as they were |
| Replacing.StageAll | scripts/extract-models.py:530-532 | Backups and temporaries of the outputs reached |
| Replacing.SwapAll | scripts/extract-models.py:533-535 | The outputs reached are in place and the other temporaries still there |
| Replacing.Rollback | scripts/extract-models.py:536-542 | Puts back every old content or absence, last first |
| Replacing.ReplaceOutputs | scripts/extract-models.py:526-546 | All outputs in place, or every target and temporary as before; otherwise two operations have failed, and the targets still hold some first outputs and their old contents |
| Resolving.Structural | scripts/extract-models.py:290-322 | A structural match is the one record that is compatible and has the query's dates, in any catalogue order; none compatible, and a single one with other dates, each have their own answer |
| Resolving.Linked | scripts/extract-models.py:276-288 | Explicit links give a record exactly when they agree, fit the id and the record exists; links that differ or conflict are said to, with the conflict |
| Resolving.NoConflictIsFit | scripts/extract-models.py:217-239 | There is no conflict if and only if the record fits the id in manufacturer, family, variant and modality words, versions, sizes, quantisation and dates |
| Resolving.StructureIsStrictFit | scripts/extract-models.py:290-304 | The structural filters with equal dates are exactly the conflict test with a known manufacturer and all words equal |
| Resolving.Unqualified | scripts/extract-models.py:269-274 | An unqualified id finds the only record with its last part |
| Resolving.ResolveMetadata | scripts/extract-models.py:258-322 | Each kind of answer exactly when it is given, in the order of evidence; explicit links that disagree, conflict or name no record are never overruled by structure |

## Left out

- Turns in flight (the phases of a task, the `transferred` flag, the stream goroutine) and the locks around the two configuration stores are modelled on values, one function per critical section, because the claims are about interleavings; aliasing is not captured there. The adapter, the instances, the session store, the registry, the configuration stores and the decoder are also classes.
- The C boundary, buffers and the installation of callbacks in go/main.go; a callback is one step in and one step out that may succeed or fail.
- Liveness: LifecycleProgress says what can happen next, not that a host callback or an upstream returns; nor is the cancellation of one client modelled. The code promises neither.
- HTTP, headers, timeouts and reading of files; a download is an arbitrary outcome that arrives later.
- JSON, YAML, HTML and regular-expression parsing; lines, rosters, configuration fields and token records come parsed.
- Configuration.DecodeConfig: the rules of `validateConfig` (URL shapes, durations, header values) are a parameter.
- Decoding.EventDecoder.Consume: lines are those the scanner delivers; a line beyond its buffer shows as a failed read.
- Turns.ScanBounds: the text of an upstream error is given with its event; its extraction from JSON is not modelled.
- Registries.ModelRegistry.Configure: the generation counter does not wrap, and the clock never returns Go's zero time.
- Sessions.AcquireRefinesMap: times are unbounded integers, so the saturation of `time.Sub` after 292 years is not modelled; the recency results need a clock that does not go back, the lease results do not.
- Decoding.EventDecoder.Push: the count of consumed bytes does not wrap at 64 bits.
- Models.Match: lower case is that of the letters A to Z; other letters keep their case. White space is Unicode's.
- Routing.PreparedModelIsAllowed: API key, session and message conversion are separate steps of preparing a turn and appear elsewhere or not at all.
- Catalogue.RegistrationIsUsable: advertised contexts, modalities and descriptions are left out.
- Tool schemas, tool choice, images and the flattening of message content: single branches.
- WireMessages.ToWireMessages: message texts, reasoning and tool results come flattened.
- Identity.ExplicitSessionKey: a body is its token tree, and a syntax error anywhere makes all of it malformed.
- Releases.Publish: the local checks of event, manifest and files before the first call, and changes made by others; all runs have the same files.
- Replacing.ReplaceOutputs: a crash of the process, an interrupt between two statements, and file modes.
- Resolving.ResolveMetadata: how ids are split into tokens and how explicit links are collected; the explanatory text of a structural match.
- Environment, key and URL resolution, registration, error codes, token counting, response normalisation, usage logging, build metadata, archives and shell scripts: constants and single branches.
