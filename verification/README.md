# AnyClaw: verified models of its stateful cores

This project models, in Dafny, the parts of AnyClaw whose correctness is hard to see by reading: the
concurrent batch embedder, the failover manager with its cache, the versioned canvas store, the editor of
configuration paths, shell quoting, the single-flight launch of the desktop, the vector index manager, the
ranked searches, and the provider registry with its slugs and its stored paths. Each model follows the
branches of the Go code it stands for; what the code is for is then proved for every input, every run or
every interleaving.

Three forms are used. What the source does with goroutines is a step system: a state, a step for every
access to something shared, and properties of every run. What the source does by changing objects is a class
whose methods change the same fields and are proved against functions on values. What the source computes is
functions and methods with the loops of the source. Providers, databases, clocks, file-system calls and other
code outside the models are parameters, so that a property holds whatever they answer.

| file | stands for |
|---|---|
| `Wrappers.dfy`, `Text.dfy` | optional values and results; the string functions of Go's library that are used |
| `Chunking.dfy`, `EmbedTypes.dfy`, `BatchEmbedder.dfy`, `BatchSequential.dfy`, `BatchOutcome.dfy` | `pkg/embedding/batch.go` |
| `EmbedCache.dfy`, `EmbedManager.dfy`, `EmbedConcurrent.dfy` | `pkg/embedding/manager.go` |
| `BatchWithManager.dfy` | the two together: the workers of the one calling the other |
| `CanvasModel.dfy`, `CanvasStore.dfy` | `pkg/canvas/store.go` |
| `ConfigPath.dfy`, `PathGrammar.dfy`, `ConfigLens.dfy`, `ConfigHeap.dfy` | `cmd/anyclaw/config_cli.go` |
| `ShellQuote.dfy` | `pkg/clihub/runner.go`, with a lexer after POSIX.1-2017, Shell Command Language, sections 2.2.2, 2.2.3 and 2.3 |
| `SingleFlight.dfy` | `cmd/anyclaw-desktop/app.go` |
| `IndexBatches.dfy`, `IndexLifecycle.dfy`, `IndexManager.dfy` | `pkg/index/index.go` |
| `ExchangeSort.dfy`, `SortStability.dfy`, `PureSearch.dfy`, `CapabilityRegistry.dfy` | `pkg/api/server.go`, `pkg/clihub/capability.go` |
| `UnixPath.dfy`, `PathPersist.dfy` | `pkg/config/io.go`, `pkg/config/normalize.go` |
| `ProviderSlug.dfy`, `ProviderRegistry.dfy`, `ProviderStore.dfy` | `pkg/config/profiles.go`, `pkg/gateway/gateway_control_plane_provider_api.go` |

Run `dafny verify dfyconfig.toml` in this directory.

## Where the code does less than one would expect

For each of these the models prove exactly when the code does what is expected, as a condition on what it is
given or on what has happened before the call, and where it is not plain that the condition can fail, they
give an input for which it does.

- The batch counters are 32-bit: `Succeeded + Failed = Total` holds in every run if and only if there are
  fewer than 2^31 texts (`BatchOutcome.AddsUpExactly`, `BatchOutcome.TooManyExample`). The progress counter
  leaves out texts that were never started because of a cancellation
  (`BatchEmbedder.SemaphoreEmptyAtReturn`).
- A push that gets as far as the write of the canvas entry, and whose write fails, reports an error although
  memory has changed (`CanvasModel.FailedPush`). The store shows what it was given all along a run if and only
  if there is no restart before a later write of that entry succeeds, or the canvas is deleted
  (`CanvasModel.RunRefines`, `CanvasModel.LostExample`); otherwise the content is lost (`CanvasModel.PushIsForgotten`,
  `CanvasModel.RestartLoses`).
- A deletion of an index whose vectors are gone while its metadata row could not be removed, and nothing else,
  leaves the index "deleting" (`IndexLifecycle.SettledKept`, `IndexLifecycle.StuckExample`), and it stays so
  until a `Delete`, `Update` or `Rebuild` of it (`IndexLifecycle.StuckUntilRepaired`).
- An update makes such an index Ready again although its collection of vectors is gone, and nothing keeps two
  indexes from naming one collection; otherwise every index that is Ready has its collection
  (`IndexLifecycle.BackedKept`, `IndexLifecycle.UnbackedExample`, `IndexLifecycle.SharedExample`). A creation
  that fails may leave its metadata row behind (`IndexLifecycle.RowsKept`, `IndexLifecycle.RowLeftExample`).
- `stopGateway` forgets the result of the launch, but a start that is under way when it comes is cached
  nevertheless (`SingleFlight.StopIsFinal`, `SingleFlight.StaleExample`).
- PowerShell takes the typographic single quotes for quotes as well, and the quoting leaves them as they are: an
  argument list is read back if and only if it has none (`ShellQuote.PowerShellRoundTrip`,
  `ShellQuote.CurlyExample`).
- A path does not read back if what is kept of it has white space before its first name or behind its last
  one (`PathPersist.RoundTrip`, `PathPersist.SpaceLostExample`), and a base path of the control UI is not
  stable if its last name ends in white space (`PathPersist.BasePathTwice`, `PathPersist.BasePathExample`).
- A provider name such as a dash followed by a tab and a word gives an ID with white space in front: it is
  not stable under normalisation (`ProviderSlug.NormalizeTwice`, `ProviderSlug.TabExample`), storing such a
  provider breaks the registry (`ProviderRegistry.UpsertKeeps`), and storing it twice makes two providers
  with one ID (`ProviderRegistry.UntrimmedIsStoredTwice`, `ProviderRegistry.TabProvider`).
- The first provider stored does not become the default when the ID in the request is one that normalising
  changes and that is not its name: the handler looks it up again by the ID as it was given
  (`ProviderRegistry.FirstBecomesDefault`, `ProviderRegistry.NoDefaultYet`).
- Providers are looked up by ID or name, whichever comes first: a request for an ID finds the provider with
  that ID if and only if no provider before it goes by it as its name (`ProviderRegistry.FoundByID`). Otherwise
  the handlers delete another provider (`ProviderRegistry.DeletesByID`, `ProviderRegistry.WrongOneDeleted`) or
  store another provider's key (`ProviderRegistry.KeepsKeyByID`, `ProviderRegistry.WrongKeyStored`).
- `DeleteProviderProfile` by itself leaves a dangling default exactly when it deletes the default
  (`ProviderRegistry.DeleteKeeps`, `ProviderRegistry.DanglingDefault`); the handler around it makes up for
  that (`ProviderRegistry.HandleDeleteKeeps`).
- Capabilities and search results with equal scores may change places. They keep their order if and only if,
  between the element number d with a score and the next one with that score, the number of higher ones is a
  multiple of d (`SortStability.KeepsOrder`); so they do where no two equal scores come before a higher one
  (`SortStability.NoTieBelow`), but not only then (`SortStability.TwoCancel`). The first result is always the
  first of the best (`ExchangeSort.HeadIsFirstHighest`).

## Model

| member | source | states |
|---|---|---|
| `Chunking.SplitChunks` | pkg/embedding/batch.go:227-237 | The loop cuts the list into the chunks of the specification `Chunks` |
| `Chunking.ChunkIsSlice` | pkg/embedding/batch.go:227-237 | Chunk c is the slice that starts after c full chunks, and only the last one may end at the end of the list |
| `Chunking.ChunksFlatten` | pkg/embedding/batch.go:227-237 | The chunks laid end to end are the list: nothing is lost, doubled or reordered |
| `BatchEmbedder.NewEnv` | pkg/embedding/batch.go:68-88 | Whatever the settings, the processor runs with a positive chunk size and concurrency: the given ones where they are positive, otherwise 100 and 4 |
| `BatchEmbedder.CounterIsTwosComplement` | pkg/embedding/batch.go:104-106 | A counter shows the count modulo 2^32 in two's complement, hence the count itself exactly below 2^31 |
| `BatchEmbedder.NextInv` | pkg/embedding/batch.go:108-180 | Every step of the dispatcher, of a worker or of a cancellation keeps the invariant on positions, slots, counters, results and errors |
| `BatchEmbedder.ReachInv` | pkg/embedding/batch.go:90-204 | Every state of every interleaving satisfies that invariant |
| `BatchEmbedder.ConcurrencyBound` | pkg/embedding/batch.go:108-135 | In every interleaving, at most Concurrency workers hold a slot at any moment |
| `BatchEmbedder.NextDecreases` | pkg/embedding/batch.go:108-180 | Every step, cancellation included, decreases one measure |
| `BatchEmbedder.RunsAreBounded` | pkg/embedding/batch.go:90-204 | Every run is finite: its length is bounded by the measure of the initial state |
| `BatchEmbedder.BlockedMeansWorking` | pkg/embedding/batch.go:130-180 | A dispatcher that cannot step, at the semaphore or at the wait group, has a worker that can, whatever is answered |
| `BatchEmbedder.EveryRunCanReturn` | pkg/embedding/batch.go:90-204 | Freedom from deadlock: every run can be carried on until Process returns |
| `BatchEmbedder.ProcessAccounting` | pkg/embedding/batch.go:90-204 | On return, in every interleaving, each index was settled exactly once, with its own embedding or in the error list with its text and cause; errors name distinct indices; the counters show the two numbers |
| `BatchEmbedder.CancellationStops` | pkg/embedding/batch.go:108-135 | Once the context is done, every continuation of a run starts at most one text more, none if the dispatcher stood at the head of its loop; when it returns, every text not started is in the error list with its text and the error of the context, and has no embedding |
| `BatchEmbedder.AllAreStarted` | pkg/embedding/batch.go:108-135 | As long as the context is never done, every text is started before Process returns |
| `BatchEmbedder.SemaphoreEmptyAtReturn` | pkg/embedding/batch.go:130-180 | On return the semaphore and the wait group are empty, and the progress counter counts the workers that were started |
| `BatchEmbedder.CountsAddUp` | pkg/embedding/batch.go:196-204 | In a run, Succeeded + Failed = Total and len(Errors) = Failed if and only if both counts fit in 31 bits |
| `BatchOutcome.AddsUpExactly` | pkg/embedding/batch.go:90-204 | They add up in every run that returns, if and only if there are fewer than 2^31 texts |
| `BatchOutcome.ManyDoNotAddUp` | pkg/embedding/batch.go:104-204 | From 2^31 texts on, a run in which every text succeeds does not add up |
| `BatchOutcome.TooManyExample` | pkg/embedding/batch.go:104-204 | One list of texts with such a run |
| `BatchSequential.ProcessWithRetry` | pkg/embedding/batch.go:206-225 | Asks until the first success, at most MaxRetries + 1 times; gives up early only with the context's error; otherwise reports the last failure: what it returns is `RetryReply` of the answers it got |
| `BatchSequential.ValidateBatchEmbeddings` | pkg/embedding/batch.go:366-387 | Complains of a wrong count first, then of the first missing embedding; not at all exactly if neither is wrong |
| `BatchSequential.ErrorsAreTheFailures` | pkg/embedding/batch.go:272-350 | The error list names exactly the indices whose outcome is a failure, each once |
| `BatchSequential.OutcomeMeans` | pkg/embedding/batch.go:272-350 | The outcome of the n-th text of chunk k: if the context was done when some chunk up to k was reached, the error it gave at the first such chunk; otherwise what the reply to chunk k makes of it: its own embedding if the reply is complete, else the first thing wrong with the reply |
| `BatchSequential.ProcessWithProvider` | pkg/embedding/batch.go:239-364 | For every behaviour of context and provider the result holds, index by index, the outcome of its chunk: stopped, refused as a whole, or its own embedding; with the errors in index order and the counters to match |
| `EmbedCache.EvictionMakesRoom` | pkg/embedding/manager.go:71-90 | In any order of the map, evicting from a cache within its bound leaves it below its capacity, also with capacity one |
| `EmbedCache.StoringKeepsBound` | pkg/embedding/manager.go:57-69 | Storing keeps the bound, stores the key with its expiry, keeps other items as they were, and leaves none that had expired when room was made |
| `EmbedCache.WhatStoringLeaves` | pkg/embedding/manager.go:43-90 | The stored item is found until one lifetime has passed; besides it everything is left where there was room, and in a full cache either all that has not expired, if anything had, or all but half of the capacity |
| `EmbedCache.Cache.constructor` | pkg/embedding/manager.go:29-41 | Settings that are not positive become 10000 items and 24 hours |
| `EmbedCache.Cache.Get` | pkg/embedding/manager.go:43-55 | Finds an item exactly until its expiry, that moment included |
| `EmbedCache.Cache.Evict` | pkg/embedding/manager.go:71-90 | Drops the expired items; only if that makes no room, half the capacity, at least one |
| `EmbedCache.Cache.Set` | pkg/embedding/manager.go:57-69 | Makes room if full and stores, within the bound |
| `EmbedManager.RotationIsDistinct` | pkg/embedding/manager.go:122-126 | The rotation asks no provider twice |
| `EmbedManager.RotationCovers` | pkg/embedding/manager.go:122-126 | A full rotation asks every provider |
| `EmbedManager.AskProviders` | pkg/embedding/manager.go:122-139 | Providers are asked in rotation until the first success; failure, with the last error, only if all failed |
| `EmbedManager.Manager.Embed` | pkg/embedding/manager.go:117-139 | A live cached value is returned unasked and nothing changes; otherwise the rotation from the current provider decides, the one that answered becomes current and its answer is cached, and where all fail nothing changes |
| `EmbedManager.Manager.EmbedBatch` | pkg/embedding/manager.go:154-164 | One value per text, in order, each known to belong to that very text; a failure only if some text failed with every provider, and then that of one of them |
| `EmbedConcurrent.NextKeeps` | pkg/embedding/manager.go:43-152 | Every step of any number of concurrent calls keeps the cache bound, the provider index in range, and every value where it belongs |
| `EmbedConcurrent.AlwaysBounded` | pkg/embedding/manager.go:57-152 | In every interleaving the cache stays within its capacity and the provider index within the list |
| `EmbedConcurrent.CurrentIsSafe` | pkg/embedding/manager.go:141-173 | In every interleaving the current provider is read within the list, and it is the first one or one that has answered some call |
| `EmbedConcurrent.CurrentSettledLast` | pkg/embedding/manager.go:117-152 | In every interleaving the current provider is the one that answered the call that settled last, or the first one if none has, and a call that begins starts there |
| `EmbedConcurrent.AloneIsEmbed` | pkg/embedding/manager.go:117-139 | A call that runs with no step of another in between, from any reachable state, ends as the contract of `EmbedManager.Manager.Embed` says: value, providers asked, cache and current provider |
| `EmbedConcurrent.HitsAreFresh` | pkg/embedding/manager.go:43-69 | In every interleaving what a lookup returns from the cache was stored under that text, with that value, at most one lifetime before |
| `EmbedConcurrent.ReturnsAreGenuine` | pkg/embedding/manager.go:117-139 | In every interleaving a returned value is one that some provider returned for that same text |
| `EmbedConcurrent.FailuresAreTotal` | pkg/embedding/manager.go:122-139 | In every interleaving the providers that failed a call are the first in rotation from its start, and a call fails only after all of them did |
| `EmbedConcurrent.StepsRunOut` | pkg/embedding/manager.go:117-139 | A call takes at most four steps and one for each provider, whatever is answered and whatever other calls do |
| `EmbedConcurrent.CallCanStep` | pkg/embedding/manager.go:57-139 | A call that has not returned can always take its next step: nothing blocks it, and the cache can always make room |
| `BatchWithManager.NextKeeps` | pkg/embedding/batch.go:90-225 | Process over the manager: every step of either, and every call and return of the retry loop between them, keeps the invariants of both and ties each reply to the calls that were made for it |
| `BatchWithManager.EndToEnd` | pkg/embedding/batch.go:90-225 | On return, in every interleaving, an index that no error names holds a vector that some provider returned for exactly its text; any other one has an error with its text, and that is the error of the context, which is done, or MaxRetries + 1 calls for the text were made in turn and every provider failed in each |
| `BatchWithManager.EveryRunCanReturn` | pkg/embedding/batch.go:90-225 | Freedom from deadlock for both together: every run can be carried on until Process returns |
| `CanvasModel.SortedOnce` | pkg/canvas/store.go:119-146 | There is one way to sort versions with distinct numbers, so the sorting algorithm does not matter |
| `CanvasModel.WindowMoves` | pkg/canvas/store.go:200-244 | Adding a version and pruning moves the window of versions on by one |
| `CanvasModel.DirMoves` | pkg/canvas/store.go:200-244 | Writing the new version file and removing those pruned moves the directory along with the window |
| `CanvasModel.DirectoryRebuilds` | pkg/canvas/store.go:119-146 | Reading a version directory in any order gives back the window, in order |
| `CanvasModel.LoadIsMemory` | pkg/canvas/store.go:83-146 | Loading after a restart, in any directory order, gives what the entry files hold, each with the version list that was in memory |
| `CanvasModel.RestartRefines` | pkg/canvas/store.go:83-146 | A restart gives back the last contents and the windows on the full histories if and only if no entry file is behind its entry |
| `CanvasModel.RestartLoses` | pkg/canvas/store.go:83-146 | A canvas whose entry file is behind comes back with an earlier version or not at all |
| `CanvasModel.ArchiveRefines` | pkg/canvas/store.go:148-244 | Replacing a content extends the full history of that canvas by one and leaves all others alone |
| `CanvasModel.ApplyRefines` | pkg/canvas/store.go:83-366 | Push, Reset and Delete keep the store the window on the full histories, in memory and in the version files, however their writes end, with the names, types and times that the requests gave; a restart, under whatever limit, does if and only if no entry file is behind |
| `CanvasModel.BehindIsTracked` | pkg/canvas/store.go:148-366 | Which entry files are behind follows from how the last write of each entry ended |
| `CanvasModel.RunRefines` | pkg/canvas/store.go:83-366 | Along any run from the empty store, under whatever limits, every canvas always has the name, type and time it was created with, its last content and the time of that, its number of contents as version and the last replaced contents with consecutive numbers, times and agents, if and only if no restart comes between a failed write of an entry and the next successful one or the deletion of the canvas |
| `CanvasModel.LostExample` | pkg/canvas/store.go:83-198 | One run after which the store does not show what it was given |
| `CanvasModel.RunShows` | pkg/canvas/store.go:52-366 | After a run under one limit in which no restart meets an entry file that is behind, each canvas has the name and type it was created with (for blank ones its id and "html"), the times of its creation and of its last content, that content, and the last min(contents - 1, maxVersions) of those before, in order, under their numbers |
| `CanvasModel.OneLimit` | pkg/canvas/store.go:52-244 | Under one limit all along, a canvas shows as many replaced contents as there are or as the limit allows |
| `CanvasModel.ShownBound` | pkg/canvas/store.go:52-244 | Under changing limits, never more than the highest allows |
| `CanvasModel.FailedPush` | pkg/canvas/store.go:148-198 | A push that fails changes no entry file; it changes nothing in memory either, if and only if it did not get as far as the write of the entry, with that write failing: the ID is there and valid and that write fails |
| `CanvasModel.PushIsForgotten` | pkg/canvas/store.go:83-198 | Where that write failed, memory has the new content, and a restart brings back the one before |
| `CanvasModel.SuccessfulPush` | pkg/canvas/store.go:148-198 | A push that succeeds returns the entry it stored: under the ID asked for, or generated for a blank one, the newest content under the number of its place, updated now; a new one has the name and type of the request, or for blank ones its ID and "html" |
| `CanvasModel.PushFailsFor` | pkg/canvas/store.go:148-230 | Which error a push fails with: no id to be had, an id that is not accepted, or the first of the writes that fails, those of the version only for a canvas that is there |
| `CanvasModel.ResetFailsFor` | pkg/canvas/store.go:324-346 | Likewise for a reset, which also fails for a canvas that is not there |
| `CanvasModel.DeleteFailsFor` | pkg/canvas/store.go:348-366 | A deletion fails exactly for an id that is not accepted |
| `CanvasModel.ValidIdMeans` | pkg/canvas/store.go:386-397 | An id is accepted exactly if, without white space around it, it is not empty, not "." or "..", and has only letters, digits, dots, underscores and dashes, by their ASCII codes |
| `CanvasModel.ValidIdStaysInside` | pkg/canvas/store.go:75-81 | The path of an accepted id leads to a place of its own inside the directory that it is joined to |
| `CanvasModel.VersionLookup` | pkg/canvas/store.go:311-322 | Exactly the numbers in the window can be looked up, each giving the content that was current under it |
| `CanvasStore.CanvasStore.constructor` | pkg/canvas/store.go:52-73 | A limit that is not positive becomes 20; then memory is what loading the files gives |
| `CanvasStore.CanvasStore.LoadAll` | pkg/canvas/store.go:83-146 | The loop over the entry files builds what `CanvasModel.Load` says, in fresh records |
| `CanvasStore.CanvasStore.PruneVersions` | pkg/canvas/store.go:232-244 | Keeps the last maxVersions versions and removes the files of the others |
| `CanvasStore.CanvasStore.SaveVersion` | pkg/canvas/store.go:200-230 | Writes, appends and prunes if its writes succeed; otherwise memory and files are as before but for a directory |
| `CanvasStore.CanvasStore.Push` | pkg/canvas/store.go:148-198 | Changes records, lists and files in place to exactly the state of `CanvasModel.Push`, with its result, for every way in which the writes can end |
| `CanvasStore.CanvasStore.Reset` | pkg/canvas/store.go:324-346 | Likewise for `CanvasModel.Reset`, in the same records |
| `CanvasStore.CanvasStore.Delete` | pkg/canvas/store.go:348-366 | Likewise for `CanvasModel.Delete`; an unknown id is no error |
| `CanvasStore.CanvasStore.GetVersions` | pkg/canvas/store.go:290-309 | The last limit versions, or all where the limit is not positive |
| `CanvasStore.CanvasStore.GetVersion` | pkg/canvas/store.go:311-322 | The first stored version with that number, if there is one |
| `ConfigPath.ParseConfigPath` | cmd/anyclaw/config_cli.go:341-379 | The two nested loops end, and compute the reading from the left that `Parse` specifies, errors included |
| `ConfigPath.ParsePrint` | cmd/anyclaw/config_cli.go:341-379 | Parsing the canonical text of any path of non-negative indices and plain keys gives that path |
| `ConfigPath.ScanIsCanonical` | cmd/anyclaw/config_cli.go:341-379 | The parser only yields such paths |
| `ConfigPath.ParsePrintParse` | cmd/anyclaw/config_cli.go:341-379 | Every accepted text means the same as its canonical text |
| `PathGrammar.ParseAccepts` | cmd/anyclaw/config_cli.go:341-379 | What is accepted, told without the parser: the trimmed text is a sequence of dots, bracketed indices (an optional sign and digits, in range and not negative, with white space around) and longest stretches that are not blank, with at least one token; the tokens are those of the segments in order |
| `PathGrammar.ParseComplains` | cmd/anyclaw/config_cli.go:341-379 | What is refused, and why: nothing but dots, or good segments up to a bracket that is not closed, a bracket around something that is no index, or a blank stretch |
| `ConfigLens.LookupConfigPath` | cmd/anyclaw/config_cli.go:381-405 | The loop finds what walking the tree finds, and fails where a segment does not fit |
| `ConfigHeap.Document.SetConfigPath` | cmd/anyclaw/config_cli.go:407-450 | Written into the maps and slices themselves: a write fails exactly where `ConfigLens.Set` does and then no cell has changed; otherwise the result denotes the tree of `ConfigLens.Set`, is the same map if it was one, and no cell outside the old tree is touched |
| `ConfigHeap.Document.UnsetConfigPath` | cmd/anyclaw/config_cli.go:452-517 | Likewise for `ConfigLens.Unset`: where it fails or finds nothing no cell has changed |
| `ConfigHeap.Document.AppendNil` | cmd/anyclaw/config_cli.go:419-421 | Appending null, in place or into a new array, gives the tree with one null more and touches at most the old array |
| `ConfigHeap.Document.MakeRoom` | cmd/anyclaw/config_cli.go:409-439 | The container is made where there is none, and padded in a loop until the index fits; nothing happens if it does |
| `ConfigHeap.Document.RemoveIndex` | cmd/anyclaw/config_cli.go:455-465 | Shifting the rest of the shared backing array down gives the tree without that element |
| `ConfigHeap.Frame` | cmd/anyclaw/config_cli.go:407-517 | A value denotes the same tree as long as no map or array that belongs to it is touched |
| `ConfigHeap.Rearranged` | cmd/anyclaw/config_cli.go:419-517 | A container whose children are moved about, each to one place at most, denotes the tree with the children moved likewise; nothing is shared that was not |
| `ConfigHeap.WriteBelow` | cmd/anyclaw/config_cli.go:422-449 | A write below a child is a write of the whole: the other children, untouched, denote what they did, and no two parts come to share a map or an array |
| `ConfigLens.SetGet` | cmd/anyclaw/config_cli.go:381-450 | What was written is read back |
| `ConfigLens.GetSet` | cmd/anyclaw/config_cli.go:381-450 | Writing the value that is there changes nothing |
| `ConfigLens.SetSet` | cmd/anyclaw/config_cli.go:407-450 | A second write at a place absorbs the first |
| `ConfigLens.SetSucceeds` | cmd/anyclaw/config_cli.go:407-450 | A write succeeds if and only if nothing found on the way, null apart, is of the wrong kind |
| `ConfigLens.SetFails` | cmd/anyclaw/config_cli.go:407-450 | A write that fails says which kind was wanted where something of another kind, not null, was found on the way |
| `ConfigLens.SetFrame` | cmd/anyclaw/config_cli.go:381-450 | A write leaves everything found on a diverging path as it was |
| `ConfigLens.SetInventsNothing` | cmd/anyclaw/config_cli.go:381-450 | On a diverging path a write adds nothing but padding nulls |
| `ConfigLens.SetCommutes` | cmd/anyclaw/config_cli.go:407-450 | Writes at diverging paths give the same tree in both orders, or fail in both |
| `ConfigLens.UnsetFollowsGet` | cmd/anyclaw/config_cli.go:452-517 | A removal succeeds, finds nothing or fails exactly as a lookup does, and leaves the tree alone unless it succeeds |
| `ConfigLens.UnsetKeyGone` | cmd/anyclaw/config_cli.go:452-517 | A removed key is no longer found |
| `ConfigLens.UnsetFrame` | cmd/anyclaw/config_cli.go:452-517 | A removal changes nothing on a diverging path that does not go through the array it removes from |
| `ConfigLens.UnsetShifts` | cmd/anyclaw/config_cli.go:452-517 | Removing array element i moves every later element, with all below it, one place down |
| `ConfigLens.UnsetUndoesSet` | cmd/anyclaw/config_cli.go:407-517 | Removing a place that a write just added to a container restores the tree |
| `ConfigLens.RootStaysObject` | cmd/anyclaw/config_cli.go:74-152 | A document that is an object stays one under every write and removal |
| `ShellQuote.JoinArgs` | pkg/clihub/runner.go:141-147 | The line is the quoted arguments with single spaces between them |
| `ShellQuote.PosixRoundTrip` | pkg/clihub/runner.go:141-156 | A POSIX shell reads the line back as exactly the argument list, for every list of strings, quotes and empty strings included |
| `ShellQuote.ShRoundTrip` | pkg/clihub/runner.go:134-156 | In particular for the shell used everywhere but on Windows |
| `ShellQuote.PowerShellRoundTrip` | pkg/clihub/runner.go:141-156 | PowerShell reads the line back as exactly the argument list, if and only if no argument contains a typographic single quote |
| `ShellQuote.PlatformRoundTrip` | pkg/clihub/runner.go:134-156 | With the shell that is chosen for the platform, the reader of that platform gets the arguments back: always with the Unix shell, and on Windows if and only if no argument contains a typographic single quote |
| `ShellQuote.CurlyExample` | pkg/clihub/runner.go:149-152 | One argument that is not read back |
| `SingleFlight.NextKeeps` | cmd/anyclaw-desktop/app.go:152-183 | Every section of Launch, and a stop in between, keeps the invariant on starters, waiters and channels |
| `SingleFlight.SingleStarter` | cmd/anyclaw-desktop/app.go:152-183 | In every interleaving at most one thread starts the desktop, and one does exactly when launching is set |
| `SingleFlight.NoLostWakeUp` | cmd/anyclaw-desktop/app.go:159-181 | A blocked thread's channel is closed already, or among the waiters while some thread is starting |
| `SingleFlight.FinishNeverPanics` | cmd/anyclaw-desktop/app.go:171-181 | No channel is ever closed twice |
| `SingleFlight.StepsRunOut` | cmd/anyclaw-desktop/app.go:152-183 | Every step of Launch decreases one measure, which a stop does not increase |
| `SingleFlight.RunsAreShort` | cmd/anyclaw-desktop/app.go:152-183 | However calls and stops interleave, the calls made so far take at most as many steps as the measure says |
| `SingleFlight.SomeoneCanStep` | cmd/anyclaw-desktop/app.go:152-183 | As long as some call has not returned, some call can take a step |
| `SingleFlight.AtMostOneSuccess` | cmd/anyclaw-desktop/app.go:152-183 | Without a stop at most one start succeeds, nobody starts again after it, and every successful call returns its result |
| `SingleFlight.ResultsAreStarted` | cmd/anyclaw-desktop/app.go:152-183 | Every result that a call has returned is that of a start in the run: an error is that of its own start, a success that of some start |
| `SingleFlight.LaterCallsReturnCached` | cmd/anyclaw-desktop/app.go:152-183 | Whatever has happened before, stops and restarts included: once a result is cached it stays until a stop, and every call still under way or made later returns it |
| `SingleFlight.StopIsFinal` | cmd/anyclaw-desktop/app.go:152-183 | After a stop, from any reachable state, nothing is cached until another start begins, if and only if no start is under way that has succeeded or may still |
| `SingleFlight.StaleExample` | cmd/anyclaw-desktop/app.go:428-441 | One run that ends with the result of a start that was stopped |
| `IndexBatches.TextAtRank` | pkg/index/index.go:356-420 | The text sent to the embedder at an item's rank among the waiting items is that item's |
| `IndexBatches.SortBatch` | pkg/index/index.go:356-378 | The first loop over a batch separates own vectors, waiting items and hopeless ones, with increasing offsets into the batch |
| `IndexBatches.BatchSendsReference` | pkg/index/index.go:354-420 | What a batch sends is, up to order, each item with its own vector or with the answer to its own text, once |
| `IndexBatches.SentIsReference` | pkg/index/index.go:348-444 | The same over any number of batches |
| `IndexBatches.ReportUnembedded` | pkg/index/index.go:382-410 | Each unanswered item is counted as failed and reported under its own id, with its place and the failures so far, in order |
| `IndexBatches.IndexItems` | pkg/index/index.go:340-490 | On success indexed + failed = total; on a refused insertion they add up to the items of the batches up to and including that one; indexed is what was sent; the reports are exactly one for each unanswered item, one for each batch and a final one; they only move forward and each names the item it has come to |
| `IndexLifecycle.SettledKept` | pkg/index/index.go:172-291 | An operation leaves every index ready or in error, if and only if it is not a deletion whose metadata row could not be removed |
| `IndexLifecycle.SettledRuns` | pkg/index/index.go:172-592 | Over any run all operations do so, if and only if none is such a deletion |
| `IndexLifecycle.StuckExample` | pkg/index/index.go:265-291 | One concrete deletion that leaves an index deleting |
| `IndexLifecycle.StuckUntilRepaired` | pkg/index/index.go:172-592 | A stuck index stays stuck over any run, until a Delete, an Update or a Rebuild of it |
| `IndexLifecycle.ShapeKept` | pkg/index/index.go:172-592 | As long as an index exists, its table, dimensions and distance do not change, over any run |
| `IndexLifecycle.ApplyFollows` | pkg/index/index.go:172-592 | An operation does to each record what it adds to its past: what it was created with, the columns and counts given since, and how the last operation ended |
| `IndexLifecycle.RunFollows` | pkg/index/index.go:172-592 | After any run from no index at all: name, table, dimensions and distance as at the creation, defaults filled in; metadata and auxiliary columns as last given; the count last reported, zero after a rebuilding; ready or in error as the last operation ended, refused updates included |
| `IndexLifecycle.BackedKept` | pkg/index/index.go:172-592 | An operation leaves every Ready index with its collection of vectors, if and only if it is not an accepted update of an index whose collection is gone, nor a deletion or rebuilding that takes away the collection of another index |
| `IndexLifecycle.BackedRuns` | pkg/index/index.go:172-592 | Along any run every Ready index always has its collection, if and only if no operation is one of those |
| `IndexLifecycle.UnbackedExample` | pkg/index/index.go:220-291 | An index whose deletion got stuck is Ready again after an update, without a collection |
| `IndexLifecycle.SharedExample` | pkg/index/index.go:265-291 | Two indexes on one collection: deleting one leaves the other Ready without it |
| `IndexLifecycle.RowsKept` | pkg/index/index.go:172-291 | The metadata rows agree with the indexes after an operation, if and only if it is not a creation that fails after its row was written and leaves it there |
| `IndexLifecycle.RowLeftExample` | pkg/index/index.go:172-218 | One such creation |
| `IndexLifecycle.OthersUntouched` | pkg/index/index.go:172-592 | A run that never is about an index leaves it exactly as it is |
| `IndexLifecycle.RemoveAll` | pkg/index/index.go:502-523 | Removes exactly the ids asked for and counts each that was there once; stops at a failing call if and only if the store was not emptied before, with the exact count then |
| `IndexManager.Manager.Create` | pkg/index/index.go:172-218 | Succeeds only under a new name with all calls succeeding, and then adds one ready record; otherwise no record changes, and the collection and the metadata row that stay behind are those of the model |
| `IndexManager.Manager.Update` | pkg/index/index.go:220-263 | Refuses other dimensions or another distance and records that in the index; otherwise changes only the column lists |
| `IndexManager.Manager.Delete` | pkg/index/index.go:265-291 | Removes the index exactly if both calls succeed; collection and row go as the model says |
| `IndexManager.Manager.Index` | pkg/index/index.go:321-490 | Starts only on a ready index and ends with it ready or in error, with the accounting of `IndexBatches.IndexItems` |
| `IndexManager.Manager.RemoveVectors` | pkg/index/index.go:492-533 | Removes as `IndexLifecycle.RemoveAll`; changes only the vector count, and that only on success |
| `IndexManager.Manager.Rebuild` | pkg/index/index.go:535-592 | Ends ready with no vectors, or in error with the first failure |
| `ExchangeSort.SortByScore` | pkg/api/server.go:698-706 | The in-place loops give `Sort` of what the array held |
| `ExchangeSort.SortSliceByScore` | pkg/clihub/capability.go:254-266 | Likewise where the last pass is left out |
| `ExchangeSort.SortIsDescendingPermutation` | pkg/api/server.go:698-706 | The result is a permutation in descending order of scores |
| `ExchangeSort.HeadIsFirstHighest` | pkg/clihub/capability.go:254-266 | First comes what was first with the highest score |
| `ExchangeSort.TiesMayChangePlaces` | pkg/clihub/capability.go:254-266 | For any three entries of which the first two tie below the third, the sort turns the two around |
| `SortStability.SortIsList` | pkg/api/server.go:698-706 | The sort, on lists: a pass takes the highest out and leaves the rest behind |
| `SortStability.PassTurns` | pkg/api/server.go:698-706 | What a pass does to the elements of one score: those before the first higher one turn by one, and the first of them goes behind the others |
| `SortStability.SortTurns` | pkg/api/server.go:698-706 | The sort turns the elements of a score around once for every higher one |
| `SortStability.KeepsOrder` | pkg/api/server.go:698-706 | The elements come out in the order of the places they are sorted from, and equal scores keep their order if and only if the list is balanced: higher scores between a number d of equal ones and the next come in multiples of d |
| `SortStability.NoTieBelow` | pkg/clihub/capability.go:254-266 | In particular where no two equal scores come before a higher one |
| `SortStability.TwoCancel` | pkg/clihub/capability.go:254-266 | But not only then: two higher ones behind two equal ones cancel |
| `PureSearch.HandlePureSearch` | pkg/api/server.go:610-696 | Missing query and vectors are refused in that order; otherwise the loop, the sort and the cut give `Result` |
| `PureSearch.PassingIsComplete` | pkg/api/server.go:647-673 | The scored entries are exactly those of the vectors that pass the threshold |
| `PureSearch.ResultsAreRanked` | pkg/api/server.go:627-688 | min(limit, passing) results, of distinct vectors that pass, best score first |
| `PureSearch.NothingBetterLeftOut` | pkg/api/server.go:659-679 | No passing vector left out scores higher than one kept; a closer one left out ties with it by rounding |
| `PureSearch.ResultsMeetTheRequest` | pkg/api/server.go:610-696 | Each result describes the vector at its index, is within the threshold where there is one, and its score is the rounded 1 - distance, at least zero; there are never more than topK or the limit, ten by default; a vector within the threshold is left out only if there are that many |
| `CapabilityRegistry.LoadCapabilityRegistry` | pkg/clihub/capability.go:37-93 | The list holds the commands of the skilled entries in order, and all three index maps agree with it |
| `CapabilityRegistry.LoadedAre` | pkg/clihub/capability.go:37-93 | One capability for each command of an entry with a skill, in order, each with the name and category of its entry, the group and name of its command, and both together as its action |
| `CapabilityRegistry.Registry.Add` | pkg/clihub/capability.go:64-88 | Appending a capability keeps each map equal to a scan of the list, repeated keywords and missing groups included |
| `CapabilityRegistry.HarnessLookup` | pkg/clihub/capability.go:268-278 | Looking up positions and picking them is filtering the list, in order |
| `CapabilityRegistry.Registry.FindByHarness` | pkg/clihub/capability.go:268-278 | Equals the case-folded filter of the list |
| `CapabilityRegistry.Registry.FindByAction` | pkg/clihub/capability.go:280-290 | Equals the case-folded filter by group; never a capability without a group |
| `CapabilityRegistry.IntentIsRanking` | pkg/clihub/capability.go:139-252 | The matches are exactly the capabilities with a positive score, in descending order |
| `CapabilityRegistry.Registry.FindByIntent` | pkg/clihub/capability.go:139-252 | Nothing for a blank query; otherwise that ranking for the folded query |
| `CapabilityRegistry.BestIsFirstHighest` | pkg/clihub/capability.go:292-298 | The head of the ranking is the first capability in registry order with the highest positive score |
| `CapabilityRegistry.Registry.BestMatch` | pkg/clihub/capability.go:292-298 | Returns that capability; nothing exactly for a blank query or when nothing scores |
| `UnixPath.CleanIsClean` | pkg/config/normalize.go:275-283 | Cleaning is idempotent and keeps a path absolute or relative |
| `UnixPath.WalkClean` | pkg/config/normalize.go:247-258 | Cleaning a path before joining it leads to the same place |
| `UnixPath.CleanLeadsThere` | pkg/config/normalize.go:275-283 | From any directory, or from the root, the cleaned path leads where the path leads, name by name, and has no detours left |
| `PathPersist.WhatIsWritten` | pkg/config/io.go:89-113 | A path is stored cleaned, unless it is inside the directory of the configuration file: then the rest of it is |
| `PathPersist.ConfigPathLeads` | pkg/config/normalize.go:260-273 | The configuration file is the one that the trimmed text, or "anyclaw.json" for a blank one, leads to from the working directory, and relative paths start from its parent |
| `PathPersist.ResolvePathLeads` | pkg/config/normalize.go:247-273 | A path of the configuration resolves to the place that its text leads to from that directory, or from the root if it is absolute |
| `PathPersist.RoundTrip` | pkg/config/io.go:89-113 | Without references to the environment or the home directory, storing and resolving gives the path meant, if and only if what is kept of it has no white space before its first name or behind its last |
| `PathPersist.TidyIsTrimmed` | pkg/config/io.go:89-113 | What is stored has white space around it exactly if the names kept have it at those edges |
| `PathPersist.RoundTripWithoutSpace` | pkg/config/normalize.go:247-283 | In particular for every path without white space, inside, equal to or outside that directory |
| `PathPersist.PersistTwice` | pkg/config/io.go:89-113 | Storing what was stored changes nothing, on the same condition |
| `PathPersist.SpaceLostExample` | pkg/config/io.go:89-113 | One concrete path that does not read back |
| `PathPersist.BasePathShape` | pkg/config/normalize.go:232-245 | The base path of the control UI is the clean absolute path to where the text leads from the root, or "/dashboard" where that is the root itself |
| `PathPersist.BasePathTwice` | pkg/config/normalize.go:232-245 | Normalising it again changes nothing, if and only if its last name does not end in white space |
| `PathPersist.BasePathExample` | pkg/config/normalize.go:232-245 | One base path for which it changes something |
| `ProviderSlug.CollapseDashes` | pkg/config/profiles.go:375-377 | The rewriting loop ends and gives what collapsing every run of dashes in one pass gives |
| `ProviderSlug.NormalizeID` | pkg/config/profiles.go:365-379 | The method computes `NormalizeProviderID`, falling back on the name for a blank ID |
| `ProviderSlug.SlugIsWords` | pkg/config/profiles.go:373-378 | The slug is the words of the text, the stretches without a separator, with single dashes between them |
| `ProviderSlug.IDsAreSlugs` | pkg/config/profiles.go:365-379 | Every ID is the slug of itself and has no capital letters |
| `ProviderSlug.IDKeepsTheRest` | pkg/config/profiles.go:365-379 | An ID has every character of the lower-cased ID asked for, or of the name for a blank one, in order, but for dashes, spaces, and the characters "_", "/", "\", ":" and ".", and has none of those but dashes |
| `ProviderSlug.NormalizeTwice` | pkg/config/profiles.go:365-379 | Normalising an ID again changes nothing, if and only if the words of the name it is made from have no white space at their outer edges |
| `ProviderSlug.TidyIsTrimmed` | pkg/config/profiles.go:365-379 | The ID has white space at its ends exactly if those words do |
| `ProviderSlug.TabExample` | pkg/config/profiles.go:365-379 | One name whose ID normalises to another |
| `ProviderRegistry.UpsertKeeps` | pkg/config/profiles.go:307-345 | Storing a provider keeps IDs unique and references valid, if and only if the words of its ID or name have no white space at their outer edges |
| `ProviderRegistry.HandleUpsertKeeps` | pkg/gateway/gateway_control_plane_provider_api.go:28-67 | The same for the handler, which may also choose a new default |
| `ProviderRegistry.SetDefaultKeeps` | pkg/config/profiles.go:298-305 | Setting a default keeps it the ID of a provider |
| `ProviderRegistry.DeleteKeeps` | pkg/config/profiles.go:347-363 | Deleting a provider keeps references valid, if and only if it was not the default |
| `ProviderRegistry.HandleDeleteKeeps` | pkg/gateway/gateway_control_plane_provider_api.go:69-104 | What the handler deletes leaves no trace in list, default or agents; every other provider stays as it was, in its place, every agent keeps its name and its reference unless it was that one, and the registry is whole |
| `ProviderRegistry.DeletionRefused` | pkg/gateway/gateway_control_plane_provider_api.go:69-104 | A deletion is refused exactly if no ID is given, no provider goes by it, or the first that does is the default and there are others |
| `ProviderRegistry.StoredAsAsked` | pkg/gateway/gateway_control_plane_provider_api.go:28-67 | A request is accepted exactly if it gives a name, a provider and something to make an ID of. What is stored is what it gives, trimmed, enabled if it does not say, with the key of the first provider that it names if it brings none; in the place of the first with the same ID or behind all others; nothing else changes but the default |
| `ProviderRegistry.DefaultFollows` | pkg/gateway/gateway_control_plane_provider_api.go:46-56 | A request that keeps the registry whole changes the default only if there was none, or if it was the provider that the request names, before or afterwards. Where no provider before the one that it names afterwards goes by that one's ID, that one becomes the default exactly if it is enabled and there was none or it was the one named before; otherwise the default stays |
| `ProviderRegistry.RunsKeep` | pkg/gateway/gateway_control_plane_provider_api.go:28-104 | Over any run of the operations the registry is whole all the time, if and only if none stores a provider for which that fails |
| `ProviderRegistry.FoundByID` | pkg/config/profiles.go:243-251 | A provider is found by its ID, if and only if none before it goes by that ID as its name |
| `ProviderRegistry.DeletesByID` | pkg/gateway/gateway_control_plane_provider_api.go:69-104 | A deletion by ID that the handler carries out removes the provider with that ID, on the same condition |
| `ProviderRegistry.KeepsKeyByID` | pkg/gateway/gateway_control_plane_provider_api.go:28-67 | A provider stored again under its ID without a key keeps its own key on the same condition, and otherwise gets the key of the provider that the ID finds |
| `ProviderRegistry.WrongOneDeleted` | pkg/gateway/gateway_control_plane_provider_api.go:69-104 | One registry in which deleting an ID deletes another provider |
| `ProviderRegistry.WrongKeyStored` | pkg/gateway/gateway_control_plane_provider_api.go:28-67 | The same registry, in which storing that provider gives it the other one's key |
| `ProviderRegistry.FirstBecomesDefault` | pkg/gateway/gateway_control_plane_provider_api.go:41-56 | With no provider and no default yet, the provider stored is the whole list, and becomes the default if and only if it is enabled and the request gives no ID, or one that up to case and outer white space is the ID or the name that is stored |
| `ProviderRegistry.UntrimmedIsStoredTwice` | pkg/config/profiles.go:307-345 | A provider for which that fails, stored twice, is there twice |
| `ProviderRegistry.TabProvider` | pkg/config/profiles.go:307-345 | One provider that breaks an empty registry and is stored twice |
| `ProviderRegistry.NoDefaultYet` | pkg/gateway/gateway_control_plane_provider_api.go:28-67 | One enabled first provider that does not become the default |
| `ProviderRegistry.DanglingDefault` | pkg/config/profiles.go:347-363 | One deletion that leaves a default that names nothing |
| `ProviderStore.Store.FindProviderProfile` | pkg/config/profiles.go:243-251 | The first provider whose ID or name the reference names |
| `ProviderStore.Store.SetDefaultProviderProfile` | pkg/config/profiles.go:298-305 | Changes the default as the model says; reports whether the new default can be applied when looked up again |
| `ProviderStore.Store.UpsertProviderProfile` | pkg/config/profiles.go:307-345 | Replaces or appends in place as the model says, or changes nothing |
| `ProviderStore.Store.DeleteProviderProfile` | pkg/config/profiles.go:347-363 | Removes the provider and clears the agents' references in place as the model says, or changes nothing |
| `ProviderStore.Store.HandleProviderUpsert` | pkg/gateway/gateway_control_plane_provider_api.go:28-67 | The handler's steps in order give the model's transition |
| `ProviderStore.Store.HandleProviderDelete` | pkg/gateway/gateway_control_plane_provider_api.go:69-104 | Likewise, with the three refusals |

## Left out

- ConfigHeap.Document.SetConfigPath: the capacity that `append` gives a new backing array is arbitrary; two documents, or two places of one, that share maps or arrays are outside, as decoding makes none.
- CanvasStore.CanvasStore.Push: a write that fails leaves the file as it was, where the operating system may cut it off; ids that are generated are arbitrary.
- CanvasStore.CanvasStore.Delete: removals of files succeed; the code ignores it when they do not, and so does pruning.
- CanvasModel.SortedOnce: `sort.Slice` is an insertion sort in the model; for distinct version numbers this lemma shows that it cannot matter.
- ShellQuote.PowerShellRoundTrip: the NUL character is not modelled, nor is what PowerShell makes of anything outside quotes but spaces.
- CapabilityRegistry.Registry.FindByIntent: the weights that a query gives a capability, and the keywords generated for a command, are parameters.
- PureSearch.HandlePureSearch: distances and scores are reals; metrics, NaN and the digits kept by the rounding are parameters or absent.
- IndexManager.Manager.Index: two calls that overlap are not modelled, and the code does not exclude them; nor are time stamps, what the metadata rows hold, and writes of them whose errors the code ignores.
- IndexManager.Manager.Create: the caller gets the record itself and could change it; that is not modelled, and neither is loading the rows at a start.
- PathPersist.RoundTrip: expansion of environment variables and of "~" is a parameter that leaves other paths alone; Windows paths are absent.
- ProviderSlug.NormalizeID: lower-casing covers ASCII letters only; other letters are left as they are.
- ProviderStore.Store.UpsertProviderProfile: type, base URL, model, capabilities and extra fields are copied along in the code and absent from the model.
- ProviderStore.Store.SetDefaultProviderProfile: the LLM settings that a new default is applied to are absent; whether it is applied is modelled.
- ProviderStore.Store.HandleProviderUpsert: permissions, the JSON request, merged extra fields, applied LLM settings, saving, the runtime pool and the audit log are absent.
- ProviderStore.Store.HandleProviderDelete: permissions, saving with its failure answer, the runtime pool and the audit log are absent.
- SingleFlight.SingleStarter: what `stopGateway` does to the process and its context is absent; it only forgets the cached result. `startDesktop` returns an arbitrary result, whose URL is not empty when it reports no error.
- BatchEmbedder.NewEnv: the defaults of the retries, the delay and the timeout are absent; retries are a parameter of `BatchSequential.ProcessWithRetry` and `BatchWithManager.EndToEnd`.
- BatchEmbedder.ProcessAccounting: progress callbacks, rate limiting, elapsed times and panicking providers are absent; a critical section is one step.
- EmbedConcurrent.NextKeeps: each section under a lock is one step; contexts are part of what a provider answers. That a provider answers at all is taken for granted in `BatchWithManager.EveryRunCanReturn`.
- HTTP handling, JSON codecs, SQLite, the vector store behind an index, subprocesses and desktop windows: plumbing around the cores.
- `List`, `Get` and the other read-only accessors, and the printing commands of the CLI: they copy out or print what the models describe.
- `persistableCopy`: it applies the path function field by field.
