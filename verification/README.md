# TokenInsights: a verified model of the usage-accounting pipeline

TokenInsights captures usage records from the logs of coding harnesses, keeps them
in an immutable outbox, delivers them to a data store over an unreliable transport,
interprets them one connected component at a time and publishes the result under
revision and generation fences. This project models the five parts of that pipeline
whose correctness spans many steps, and proves what each of them is for.

Code that changes state step by step is modelled by classes and methods with loops
(`Store`, `Dispatcher`, `CollectorStore`, `Resolver`, `StreamDiscriminator`,
`CaptureLineReader`, `CaptureStore`, `Reporter`, `Registry`). Each method is proved
against a specification, and the whole-run theorems are lemmas about the
specification functions over every sequence of steps. A transaction is one atomic
step that commits or changes nothing.

## The parts

**Data store and scheduling.** `DataModel`, `Reachability` and `StoreSpec` define the
tables, the recursive queries as least fixed points, and the transactions. `Store.dfy`
is the store itself, `Selection` its paged candidate scan, `Worker.dfy` the serial
worker, `Dispatcher` the concurrent one and `DispatcherRuns` its whole runs. `StoreInvariant`, `StoreHistory` and
`StoreRuns` carry the invariants over runs in which acceptance, loading, publication,
rebuilds and failures interleave freely, and any work ever loaded may be published
later, repeatedly, with any projection that stays inside it. `StoreTheorems` and
`StoreProgress` state the results: a clean scope was interpreted from exactly the
evidence its whole ancestry holds now; the publication fence passes if and only if the
component is unchanged; what readers see is a function of the published revision; a
rebuild can always be finished, and draining, serial or by two workers at once,
finishes it. `StoreAnswers` says what a client is told about each of its records,
`StoreRebuilds` that a generation is only ever written by programs of its own rules,
`StoreRetries` which rows a failure delays and for how long.

**Delivery.** `BatchEncoding` shows that the running byte count chooses the longest
prefix that fits. `Delivery` is the journal, `DeliveryRuns` puts it against any number
of servers with requests and replies lost, repeated, reordered or delayed, restarts
between any two events and other collectors writing to the same servers;
`DeliveryTheorems` states the exactly-once effect.

**Interpretation.** `Ancestry`, `AncestryResolver`, `AncestryTheorems` and `AncestryLocality`
cover the depth-first walk over session ancestry on every parent graph, cyclic ones
included, and show that it equals following each sound chain on its own.
`AncestryJudgement` gives the verdict on every record of a sound session as a table over
the session's records and its ancestors' proofs, `AncestryProblems` the reason why a
session is not sound. `Interpretation`, `InterpretationTheorems` and `Processor` cover
grouping, selection and outcomes, and show that the interpreter delivers what the store
asks of it; `Verdicts` says which observation speaks for a fact and what becomes of the
others.
`Tokens` normalises the counters of three harnesses in 64-bit arithmetic.

**Capture.** `JsonNumber`, `JsonGrammar` and `JsonTheorems` define JSON texts of
RFC 8259 (sections 2 to 7) as concrete syntax trees, independently of any reader, and
show that reading as the recogniser does finds the tree of every object text and of
nothing else. `Discriminators` shows that skipping a record is sound and `Irrelevance`
which records are skipped,
`StreamRecogniser` is the byte-at-a-time recogniser, `LineReader` the bounded line
reader with its running hash. `Capture` is the resumable parse, `CaptureRuns` lets
parses, appends and commits interleave, `CaptureContext` reads the context of each
record off the lines of the file, `CaptureBoundary` is the one case in which an
incremental capture and a full one differ.

**Progress.** `CaptureReporter` and `CollectorProgress` are the producer and the
registry; `ProgressRuns` runs a whole capture with concurrent readers and one writer,
and `ProgressTheorems` puts it among any other calls of the registry and shows that
a measurement is accepted exactly while its attempt lives. `AttemptTheorems` follows one
attempt through any calls.

## One property that does not hold everywhere

A complete record at the end of a file is recorded before its newline arrives. When
the newline comes, the line is one byte longer. A record of exactly the line limit
(16 MiB) is therefore recorded at first and refused afterwards, and the source then
fails at its offset (`packages/core/pipeline/extract_stream.go:30`,
`packages/core/pipeline/extract.go:117-146`). `CaptureBoundary.BoundaryRecordIsLost`
builds such a file; `CaptureRuns.SpeculationConfirmed` gives the exact condition: the
ended line repeats the speculative observation if and only if it still fits the limit
or may be skipped. `CaptureRuns.IncrementalEqualsFull` holds without an exception,
since an incremental parse fails exactly when the full parse of the same bytes does.

## Assumptions

Clocks, random identifiers, lineages and the discovery of sources are inputs that may
take any value. Hash functions are injective: a batch hash is represented by the
request text, a prefix hash by the bytes it has absorbed, a fact identity by its scope
and a local name. `CleansStrings` (cleaning keeps a discriminator or blanks it) is the
only assumption made about cleaning a record, `Reads` the only one about parsing it.
`DerivedEvent` says that an evidence identity determines what it was derived from; only
`DeliveryTheorems.DeliveredContentIsRecorded` uses it.

## Model

| member | source | states |
|---|---|---|
| StoreTheorems.CleanScopesAreCurrent | packages/core/datastore/store.go:507-515 | In every reachable state a clean scope was last interpreted from exactly the evidence and edges its whole ancestor closure holds now, and its stored facts, estimates, provenance and outcomes are what that interpretation said |
| StoreTheorems.ReportedStatusIsCurrent | packages/core/datastore/store.go:557-586 | A status other than pending is reported only if it is the outcome recorded by an interpretation that is current for the record's scope |
| StoreTheorems.IngestRevisesExactlyDependents | packages/core/datastore/store.go:509-515 | A batch revises an existing scope if and only if it adds evidence at the scope or at one of its ancestors, however distant or previously missing, and then the scope is pending and may be tried at once; every other row stays |
| StoreTheorems.FenceIsExact | packages/core/datastore/store.go:820-850 | For any interleaving since the work was loaded, the fence passes if and only if the target is the same and the component holds exactly the loaded evidence |
| StoreTheorems.FenceHasNoAba | packages/core/datastore/store.go:662-662 | When the fence passes, the component's members and every edge touching it are those of the moment of loading |
| StoreAnswers.EveryRecordIsAnswered | packages/core/datastore/store.go:557-586 | In any run an accepted or repeated batch is answered with one status for each of its records in sequence order: pending exactly while the record's scope is, otherwise the outcome stored for the target |
| StoreAnswers.ReceiptIsTheBatchs | packages/core/datastore/store.go:485-533 | The receipt names the batch's own range, size and hash; a repeated batch gets its first receipt and writes nothing, a new one counts the input revision up exactly if it brings a new record |
| StoreAnswers.RefusedForCause | packages/core/datastore/store.go:476-505 | Each refusal has its exact condition and changes nothing: another request under the batch's id, a sequence bound to another record, or no revision left |
| StoreRebuilds.RebuildIsOfOwnRules | packages/core/datastore/store.go:387-428 | Asking for a rebuild answers with a target of exactly the program's rules: the one being built, and then nothing changes, or a new one, and then one of other rules is retired and every retry forgotten |
| StoreRebuilds.RebuildRefusals | packages/core/datastore/store.go:382-403 | A rebuild is refused only if a generation is of newer rules, or when generations have run out and none of the program's rules is being built |
| StoreRebuilds.OpeningSettlesRules | packages/core/datastore/store.go:351-368 | Opening a store leaves a target of the program's own rules, untouched if it was that already, or fails without effect, exactly if a generation is newer or none is left |
| StoreRebuilds.NeverWrittenByOtherRules | packages/core/datastore/store.go:396-400 | Whichever programs take turns on a store, no step changes rows of a generation of other rules than those of the program taking it, and no generation is relabelled |
| StoreRetries.FailureDelaysItsWork | packages/core/datastore/store.go:883-912 | A failure delays exactly the rows of its work still at the revision loaded, none of them due before the delay is over; rows revised since or outside stay as due as they were; another target or a lost root changes nothing |
| StoreRetries.DelaysDouble | packages/core/datastore/store.go:893-895 | Of failures in a row the first delays by one second and each further one by twice the last, up to 64 seconds and from then on by 64 |
| StoreRuns.RunsKeepWorldInv | packages/core/datastore/store.go:446-876 | Every run of acceptances, loads, publications of any earlier load, rebuilds and failures keeps the store invariant, ties each processed scope to the interpretation that reached it and each load to the tables since |
| StoreRuns.PublishedRowsMatch | packages/core/datastore/batching.go:198-243 | After a publication the facts, estimates, provenance and outcomes of each of its scopes are exactly those of the projection |
| StoreRuns.PublishLeavesOtherRows | packages/core/datastore/batching.go:203-218 | A publication leaves the facts, estimates, provenance and outcomes of every scope outside its work as they were |
| StoreProgress.VisibleHistoryByRevision | packages/core/datastore/store.go:857-871 | Two states of one run with the same published revision show readers the same facts, estimates and provenance, and revisions never fall |
| StoreProgress.RebuildIsInvisible | packages/core/datastore/store.go:430-439 | While a rebuild is in progress no step changes what readers see, except the single step that activates the new generation |
| StoreProgress.RebuildNeverSticks | packages/core/datastore/store.go:101-107 | Exactly one generation is active, the target's state is the one the guard requires, all others are retained, and an unfinished rebuild always has pending scopes left |
| StoreProgress.PublicationLowersPending | packages/core/datastore/batching.go:232-241 | Publishing work whose root is pending strictly shrinks the set of pending scopes |
| StoreProgress.FreshWorkPublishes | packages/core/datastore/store.go:800-876 | Work published before anything else happens is never stale and never clashes with stored rows |
| StoreInvariant.AcceptKeepsInv | packages/core/datastore/store.go:446-533 | Acceptance keeps rows and edges exactly those the evidence gives rise to, and revisions never rising towards an ancestor |
| StoreInvariant.PublishKeepsInv | packages/core/datastore/store.go:800-876 | Publication, successful or not, keeps the store invariant |
| StoreInvariant.ReprocessKeepsInv | packages/core/datastore/store.go:372-428 | Staging a rebuild keeps the store invariant, including when a rebuild of older rules is abandoned or the store is empty |
| StoreInvariant.FailureKeepsInv | packages/core/datastore/store.go:883-912 | A recorded failure keeps the invariant and leaves the pending set alone |
| DataStore.Store.GatherBatch | packages/core/datastore/batching.go:98-120 | Gathering refuses exactly the batches that bind a known sequence to another record, and otherwise collects each new record, scope and edge once |
| DataStore.ReviseScopes | packages/core/datastore/store.go:509-515 | Finding changed rows by their revision and following reversed edges revises exactly the changed scopes and their descendants |
| DataStore.Store.Accept | packages/core/datastore/store.go:446-533 | A batch is rejected, replayed from its receipt or ingested as a whole; rejections and replays change no table |
| DataStore.Store.LoadWorkExcluding | packages/core/datastore/store.go:625-660 | Work returned is one whole component, disjoint from every claim and within the byte limit, rooted at a pending scope whose retry time has come and none admissible is older; no work means that every such scope is claimed or too large |
| DataStore.Store.ReadWork | packages/core/datastore/store.go:727-793 | The work read holds every row and record of the component and the exact size of its records |
| DataStore.Store.PublishProjection | packages/core/datastore/store.go:800-876 | Publication replaces the component's rows, marks its scopes and settles the generation, or changes no table |
| DataStore.Store.PublishRows | packages/core/datastore/batching.go:198-243 | Old rows of the component are deleted and the projection's inserted; a key clash leaves nothing behind |
| DataStore.Store.Reprocess | packages/core/datastore/store.go:372-428 | A rebuild under way with current rules is reported; otherwise the next generation is opened, an older unfinished one retired, and an empty store activates at once |
| DataStore.Store.PrepareGeneration | packages/core/datastore/store.go:351-368 | Opening settles the target generation before anything is written, or changes nothing |
| DataStore.Store.RecordFailure | packages/core/datastore/store.go:883-912 | Only rows at the revision the failed work saw are delayed, by a doubling and bounded delay |
| DataStore.SameRows | packages/core/datastore/store.go:829-850 | Matching current rows one by one and counting them decides equality with the expected rows |
| Reachability.ReachableIsLeast | packages/core/datastore/store.go:662-662 | The recursive query is the least closed set above its start |
| Reachability.Explore | packages/core/datastore/store.go:662-662 | Evaluating the query row by row computes that least fixed point |
| Reachability.SameComponent | packages/core/datastore/store.go:662-662 | Undirected connection through any node, missing scopes included, is an equivalence, so members share one component |
| Selection.CandidatePage | packages/core/datastore/store.go:671-686 | A page holds the first candidates after the cursor in revision and scope order, without a gap |
| Selection.FoundIsLeast | packages/core/datastore/store.go:721-793 | The first candidate not excluded and within the limit is admissible, and none before it is |
| Selection.SkipComponent | packages/core/datastore/store.go:753-770 | Marking a skipped component as excluded never hides an admissible scope |
| Basics.TextLessMeans | packages/core/datastore/store.go:672-672 | Of two scopes the lesser has the lesser character where they first differ, or ends there |
| DataEngine.ProcessNext | packages/core/dataengine/worker.go:64-90 | One step interprets and publishes the oldest eligible component and strictly lowers the pending set, or nothing was eligible; it fails only when the published revision is exhausted |
| DataEngine.Drain | packages/core/dataengine/worker.go:92-120 | Draining terminates, and when no retry lies in the future it ends with nothing pending and the target generation active |
| Dispatcher.Dispatcher.Dispatch | packages/core/dataengine/worker.go:150-189 | Each new claim is the least admissible component at its turn; claims stay at most two, pairwise disjoint and within 32 MiB unless there is only one; dispatching stops only when full or when nothing admissible is left |
| Dispatcher.Dispatcher.Complete | packages/core/dataengine/worker.go:195-211 | A completion removes exactly its own claim, and sets aside exactly the work whose publication was stale |
| Dispatcher.Dispatcher.Tick | packages/core/dataengine/worker.go:151-151 | Passed delays are forgotten and the claims keep their limits |
| Dispatcher.ClaimFits | packages/core/dataengine/worker.go:152-177 | A claim that avoids every other one and fits the remaining allowance keeps number, disjointness and byte limit |
| Dispatcher.RootsDiffer | packages/core/dataengine/worker.go:199-207 | Claims in flight have different roots, so matching by root finds the completed one |
| Dispatcher.StaleComponents.Add | packages/core/dataengine/stale.go:19-34 | A component is remembered without its records unless 128 components or 4096 scopes would be passed |
| Dispatcher.StaleComponents.Prune | packages/core/dataengine/stale.go:36-45 | Exactly the entries still delayed remain, in order |
| Dispatcher.StaleComponents.Excluding | packages/core/dataengine/stale.go:47-57 | Claims come first, then every delayed component |
| Dispatcher.StaleComponents.NextDeadline | packages/core/dataengine/stale.go:59-67 | The earliest deadline, and none exactly when nothing is delayed |
| DispatcherRuns.RunsKeepPool | packages/core/dataengine/worker.go:150-216 | Over every interleaving of claims, completions, arrivals and rebuilds the claims keep their limits, each is whole with its root still pending, and what is delayed keeps its bounds |
| DispatcherRuns.ClaimOutcome | packages/core/dataengine/worker.go:178-188 | A claim is published, lowering the pending set, unless its component changed since it was loaded; then it is stale and no table changes |
| DispatcherRuns.QuietRunsEnd | packages/core/dataengine/worker.go:150-216 | Once arrivals stop, workers finish at most as often as there are pending scopes and stale claims, and no new claim is ever found stale |
| DispatcherRuns.IdleCanClaim | packages/core/dataengine/worker.go:152-177 | An idle dispatcher with nothing delayed can claim whenever anything is eligible |
| DispatcherRuns.ConcurrentDrainFinishes | packages/core/dataengine/worker.go:150-216 | Once arrivals stop, whatever was in flight or delayed and in whatever order workers finish, the dispatcher comes to rest only with nothing pending and the target generation active |
| DispatcherRuns.InFlightLimits | packages/core/dataengine/worker.go:152-177 | At any moment of any run at most two components are in flight; two share no scope and hold at most 32 MiB together |
| DispatcherRuns.StaleIsLeftAlone | packages/core/dataengine/stale.go:19-45 | No claim touches a component found stale until delays are forgotten at or after 250 ms, and then its delay is |
| BatchEncoding.EncodesLongestPrefix | packages/core/rawcollectorstore/batch_encoding.go:11-56 | The result is the longest non-empty contiguous prefix of at most 256 rows whose whole request fits the body limit; each error names its exact cause |
| BatchEncoding.RequestLength | packages/core/rawcollectorstore/batch_encoding.go:29-34 | Envelope, entries and commas counted once add up to the exact length of the request |
| BatchEncoding.LongerIsLarger | packages/core/rawcollectorstore/batch_encoding.go:29-40 | One more row always makes a longer request, whatever happens to the digits of the last sequence |
| BatchEncoding.EncodeBatchPrefix | packages/core/rawcollectorstore/batch_encoding.go:11-56 | The loop with its running byte count chooses and encodes as if it measured every request |
| Delivery.CollectorStore.Record | packages/core/rawcollectorstore/store.go:52-83 | An observation is appended unless the same text is already held, so outbox sequences have no gaps |
| Delivery.CollectorStore.ResolveDestination | packages/core/rawcollectorstore/store.go:115-129 | A destination is its endpoint and database; a replacement database starts from sequence zero |
| Delivery.CollectorStore.FindPending | packages/core/rawcollectorstore/store.go:203-219 | The one batch of the destination without a receipt, if there is one |
| Delivery.CollectorStore.Prepare | packages/core/rawcollectorstore/store.go:137-201 | The request in flight is returned unchanged; otherwise the next batch is cut after the cursor, saved and returned |
| Delivery.CollectorStore.Ack | packages/core/rawcollectorstore/store.go:221-266 | Only the exact receipt of the request in flight moves the cursor; an exact repetition of an earlier one is accepted without effect |
| Delivery.AckMovesCursor | packages/core/rawcollectorstore/store.go:246-265 | Only a receipt that repeats all particulars of the batch in flight moves the cursor, past exactly that batch; a gap is never reported, and with nothing in flight only a stored receipt is welcome again |
| Delivery.PreparedIsLongest | packages/core/rawcollectorstore/store.go:137-201 | A new request carries the rows after the cursor, as many as fit, under the next sequences, and its bytes are those of exactly these rows |
| Delivery.CollectorStore.PublishRaw | packages/core/collector/raw.go:91-143 | The loop resolves, prepares, submits and acknowledges turn by turn, and stops at the first failure or when nothing is left |
| Delivery.DeliveryMovesCursor | packages/core/collector/raw.go:91-143 | However the loop ends, the cursor moved by exactly the entries counted as accepted; it goes on unless it drained, which leaves nothing to deliver, or failed at the first turn not counted |
| DeliveryRuns.RunsKeepSystemInv | packages/core/collector/raw.go:91-143 | Every interleaving of the journal with its servers keeps each server's bindings equal to a prefix of the outbox and each receipt equal to the stored one |
| DeliveryRuns.OwnRequest | packages/core/datastore/batching.go:98-101 | A request of this collector never clashes with the sequences a server holds, and a batch known to the server has the same hash |
| DeliveryTheorems.DeliveredExactlyOnce | packages/core/datastore/store.go:482-533 | In every run a server binds exactly the sequences of one outbox prefix, each to the identity of its own record, and holds evidence under that identity; the prefix ends where some destination's deliveries end |
| DeliveryTheorems.DeliveredContentIsRecorded | packages/core/evidence/whitelist.go:299-305 | The evidence held for a delivered sequence agrees with that outbox row in everything identities are derived from, whoever delivered it first |
| DeliveryTheorems.PrefixEndsAtCursorOrBatch | packages/core/rawcollectorstore/store.go:137-266 | With one destination for the database, that prefix ends at the cursor or at the end of the one batch in flight, which starts right after the cursor |
| DeliveryTheorems.AcknowledgedBatchesTile | packages/core/rawcollectorstore/store.go:249-261 | Acknowledged batches cover the sequences up to the cursor exactly once with the outbox rows they name; at most one batch is in flight and it starts right after |
| DeliveryTheorems.NoConflictForHonestCollector | packages/core/datastore/store.go:482-504 | No request ever sent meets a batch conflict or a sequence conflict, and every positive answer certifies it |
| DeliveryTheorems.RepliesAgree | packages/core/datastore/store.go:482-493 | All replies to one batch carry the same receipt |
| DeliveryTheorems.ReplyAcknowledges | packages/core/evidence/codec.go:183-189 | Any reply, however late, to the batch in flight is accepted and moves the cursor past it |
| DeliveryTheorems.RoundTripAdvances | packages/core/collector/raw.go:92-142 | From any reachable state a round trip that is not refused moves the cursor strictly forward to the end of the batch |
| Ancestry.ReferencesAgree | packages/core/processor/codex.go:446-473 | The last named reference is the parent, any reference makes a fork, and there is no conflict if and only if all present references are readable and agree |
| Ancestry.MergedAgree | packages/core/processor/process.go:338-359 | Merged metadata comes from an entry of the session, and is free of conflict if and only if all its entries are and agree |
| AncestryTheorems.ResolvesIffRooted | packages/core/processor/process.go:371-491 | On every parent graph a resolved session is free of problems if and only if its whole chain is present, conflict-free and ends in a session that is no fork |
| AncestryTheorems.ConfirmedOnlyIfRooted | packages/core/processor/process.go:465-486 | A Codex record is confirmed only if its session has such a chain |
| AncestryTheorems.OneOwnerPerFingerprint | packages/core/processor/process.go:389-409 | All facts proved under one fingerprint in a session belong to a single session on its parent chain |
| AncestryTheorems.NeverProvedTwice | packages/core/processor/process.go:428-441 | No fingerprint is proved by both a session and one of its ancestors |
| AncestryTheorems.ReplaysAreSuppressed | packages/core/processor/process.go:435-441 | A record whose fingerprint one other session of the chain has proved takes that fact and is a known duplicate; any other record keeps its own fact |
| AncestryTheorems.FactsComeFromRecords | packages/core/processor/process.go:426-487 | Resolution invents no fact, changes no record's identity and leaves records of other harnesses alone |
| AncestryTheorems.ProofsHandedDown | packages/core/processor/process.go:400-406 | A sound chain hands its proofs down undiminished |
| AncestryTheorems.ResolveKeepsWalk | packages/core/processor/process.go:371-491 | Resolving a session from any state of the walk keeps every settled session as it was and settles this one, or reports the cycle it closes |
| AncestryLocality.WalkJudgesDirectly | packages/core/processor/process.go:371-499 | The memoised walk judges every session with a sound chain as following that chain directly from its root does |
| AncestryLocality.ResolutionIsLocal | packages/core/processor/process.go:371-499 | What becomes of a record of such a session depends only on the metadata and records of its chain, not on other sessions, the order of resolution or the positions of records |
| AncestryJudgement.RecordsAreJudged | packages/core/processor/process.go:426-486 | In any resolution each record of a sound session gets exactly the verdict of a table stated on its session's records: copy, repeat, set aside, unverifiable, ambiguous, uncertain or as it was read |
| AncestryJudgement.ClearIff | packages/core/processor/process.go:435-484 | A record of a sound session counts if and only if it was read clear, is no copy, and the first record of its fact was read clear, has a fingerprint no ancestor proved, neither repeats nor falls below the snapshot before it, and in a fork is of no turn in which an ancestor proved a fact |
| AncestryJudgement.ProofsAreExact | packages/core/processor/process.go:481-486 | A sound session ends with exactly its parent's proofs and, under its fingerprint, the fact of each of its records that stands and counts |
| AncestryJudgement.SourcesAreAncestors | packages/core/processor/process.go:428-434 | The facts a record is compared with are exactly those its proper ancestors proved under its fingerprint |
| AncestryJudgement.RecordsInTime | packages/core/processor/process.go:413-422 | A session's records are judged each once, in order of time, then of ordinal, then of evidence id |
| AncestryProblems.SessionsCarryTheirReason | packages/core/processor/process.go:381-412 | Every resolved session carries its reason: not described, parent missing, parent not sound, descriptions differ, or none; only a session that is its own ancestor may report the cycle instead |
| AncestryResolver.Resolver.VisitItem | packages/core/processor/process.go:426-487 | One record is judged in place as the specification judges it: replay, repetition, unchanged or stale snapshot, problem, proof |
| AncestryResolver.Resolver.VisitRecords | packages/core/processor/process.go:413-487 | A session's records are judged in order of time, ordinal and id |
| AncestryResolver.Resolver.ResolveSession | packages/core/processor/process.go:372-491 | The recursive walk terminates on every parent graph and computes the specified state |
| AncestryResolver.Resolver.ResolveAllSessions | packages/core/processor/process.go:492-499 | Every session with usage records is resolved |
| Candidates.SortedIsOrdered | packages/core/processor/process.go:56-61 | Sorting by any strict order leaves no later element before an earlier one |
| Candidates.SortedHolds | packages/core/processor/process.go:56-61 | Sorting keeps every element as often as it occurred |
| InterpretationTheorems.EveryRecordAccounted | packages/core/processor/process.go:120-122 | Each record gets exactly one outcome under its own id: no usage, unusable, or that of its place among the observations of its fact |
| InterpretationTheorems.OneVerdictPerFact | packages/core/processor/process.go:114-118 | Fact identities are unique across contributions and estimates together |
| InterpretationTheorems.ProcessedContributes | packages/core/processor/process.go:106-116 | Each processed record supports a contribution of its fact |
| InterpretationTheorems.ContributionHasOneProcessed | packages/core/processor/process.go:106-116 | Each contribution has exactly one processed record |
| InterpretationTheorems.EvidenceSupportsOnce | packages/core/processor/process.go:93-115 | No record supports two contributions, nor one contribution twice |
| InterpretationTheorems.ContributionsAreUndisputed | packages/core/processor/process.go:76-92 | The fact contributed was observed by a clear record that every other clear record of the fact agrees with or yields to |
| Verdicts.FactsGetTheirVerdict | packages/core/processor/process.go:62-121 | Every observed fact has a speaker; it is contributed exactly if the speaker is clear and undisputed, and estimated exactly if the speaker may not count for a reason other than being counted before or replaced |
| Verdicts.OneSpeaker | packages/core/processor/process.go:56-75 | The speaker is unique: the latest clear observation, or the latest if none is clear, by time and then evidence id, except that OpenCode's second format speaks before its first |
| Verdicts.ContributionsAreSpoken | packages/core/processor/process.go:112-116 | A contribution states the fact of its undisputed clear speaker in full, with all observations of the fact as evidence, oldest first |
| Verdicts.EstimatesAreSpoken | packages/core/processor/process.go:117-119 | An estimate states the fact of its speaker with the speaker's evidence and the reason it may not count |
| Verdicts.RecordsMeetTheirFate | packages/core/processor/process.go:76-113 | The outcome of each usage record is that of a table over its candidate, the speaker and whether the speaker is disputed; a clear record that is not the speaker is superseded exactly if it occurred earlier or has another format |
| Verdicts.ListsAscend | packages/core/processor/process.go:49-54 | Contributions and estimates are each listed in ascending order of their facts |
| Processor.MergeMetadata | packages/core/processor/process.go:331-360 | Folding the entries into a map gives the merged metadata |
| Processor.GroupAll | packages/core/processor/process.go:45-53 | Candidates are grouped by fact and every fact is listed once |
| Processor.Select | packages/core/processor/process.go:62-75 | The last clear observation is selected, or the last one if none is clear; version 2 of OpenCode prevails |
| Processor.FindConflict | packages/core/processor/process.go:76-89 | A conflict is found exactly when a clear observation disagrees with the selected one beyond what is tolerated |
| Processor.Settle | packages/core/processor/process.go:93-118 | One fact's outcomes, contribution or estimate are recorded as specified |
| Processor.Process | packages/core/processor/process.go:22-124 | A component's records are interpreted: read, resolved, grouped and settled |
| Processor.CodexContributionsAreRooted | packages/core/processor/process.go:114-118 | A Codex contribution comes from a session whose whole chain is sound |
| Processor.ProcessConforms | packages/core/datastore/batching.go:166-197 | Every projection of the interpreter stays within its work and names each fact once; its facts are valid because parsing lets no other become a candidate (`packages/core/processor/process.go:286-288`) |
| Processor.FaithfulConforms | packages/core/dataengine/worker.go:81-87 | So an interpreter built from it meets what the serial worker assumes |
| Tokens.TokenComponentSum | packages/core/processor/helpers.go:79-94 | The sum is given exactly when every component is non-negative and it fits 64 bits |
| Tokens.ClampToken | packages/core/processor/pi.go:145-151 | A negative counter becomes zero and is reported; others are untouched |
| Tokens.CodexTokensFromUsage | packages/core/processor/codex.go:187-226 | Each error has its exact condition; otherwise reasoning and cache are as reported, output and reasoning add up to the clamped inclusive output, input and cache to the larger of the two, and the remark that something was negative is exact |
| Tokens.CodexSum | packages/core/processor/codex.go:287-292 | The size by which snapshots are ordered is their exact sum, without overflow |
| Tokens.SettlePiTotal | packages/core/processor/pi.go:118-142 | A source total survives exactly when it is the sum of the components, of which input may first have to give up cached tokens |
| Tokens.PiTokensFromUsage | packages/core/processor/pi.go:89-143 | Each error has its exact condition; otherwise each component is what was reported, made exclusive once, a total survives exactly when it is their sum, and each of the four remarks is made exactly when it applies |
| Tokens.SuspicionIsExact | packages/core/processor/process.go:266-270 | A usage escapes invalid_source_counters exactly when nothing was negative, reasoning was part of output and a reported total is the sum of the components |
| Tokens.ClaudeCodeTokensFromUsage | packages/core/processor/claude.go:83-111 | Each error has its exact condition; otherwise every counter is clamped and the remark on it is exact |
| Tokens.RawFact.FinalizeClaudeCode | packages/core/processor/claude.go:132-157 | Output and reasoning add up to the inclusive output; a total survives exactly when it is the sum of the five components; both remarks are exact |
| Tokens.ValidateFact | packages/core/publication/validation.go:66-76 | A fact passes exactly when its components are non-negative, their sum is at most 2^53 - 1 and equals its total, without overflow on the way |
| Tokens.AcceptTokens | packages/core/publication/validation.go:66-76 | A fact is produced exactly when its components pass, and its total is their exact sum |
| JsonNumber.AutomatonIsGrammar | packages/core/pipeline/extract_stream.go:372-438 | The automaton accepts exactly the numbers of section 6 of RFC 8259 |
| JsonNumber.ScanIsLongestMatch | packages/core/pipeline/extract_stream.go:372-438 | A scan stops after a number exactly where no number of the grammar could go on |
| JsonTheorems.LineSound | packages/core/pipeline/extract_stream.go:234-359 | Every line accepted is one object of the grammar within the depth limit, surrounded by space only |
| JsonTheorems.LineComplete | packages/core/pipeline/extract_stream.go:234-359 | Every such line is accepted, as its own tree |
| JsonTheorems.ReadingIsGrammar | packages/core/pipeline/extract_stream.go:146-359 | Reading a line gives a tree if and only if the line is that tree's text |
| Discriminators.SkippingIsSound | packages/core/pipeline/extract_stream.go:439-472 | Whenever notes prove a whole object irrelevant, decoding all of it finds neither a usage nor a context record, with duplicate and nested keys included |
| Discriminators.RootMembers | packages/core/pipeline/extract_stream.go:219-297 | Unless a discriminator was met twice, the notes hold what the last members of those names hold |
| Discriminators.RememberedName | packages/core/pipeline/extract_stream.go:160-217 | Forgetting the text of a long token never hides a discriminator |
| Irrelevance.SkippedIffListed | packages/core/pipeline/extract_stream.go:439-472 | A record is skipped if and only if no name that decides it is written twice and its strings, decoded in full, are on the harness's list |
| Irrelevance.LongLinesAreDecided | packages/core/pipeline/extract_stream.go:23-71 | A line up to 16 MiB is handed out; a longer one is skipped exactly if it is one listed object, partial exactly if it is unterminated and no object, and refused otherwise |
| JsonGrammar.ClassesByCode | packages/core/pipeline/extract_stream.go:146-217 | Space, hexadecimal digits, escapes, plain characters and digits are those RFC 8259 lists by code |
| Discriminators.EscapesByCode | packages/core/pipeline/extract_stream.go:160-217 | Each escape stands for the code RFC 8259 gives it |
| Discriminators.HexByPosition | packages/core/pipeline/extract_stream.go:160-217 | A hexadecimal digit stands for its position among the digits, in either case |
| StreamRecogniser.StreamDiscriminator.String | packages/core/pipeline/extract_stream.go:160-217 | Accepts exactly the strings of the grammar, and yields their decoded text if it was short enough to keep |
| StreamRecogniser.StreamDiscriminator.Number | packages/core/pipeline/extract_stream.go:372-438 | Accepts exactly the numbers of the grammar and leaves the byte that stops it |
| StreamRecogniser.StreamDiscriminator.Literal | packages/core/pipeline/extract_stream.go:360-371 | Accepts exactly the rest of the literal |
| StreamRecogniser.StreamDiscriminator.Object | packages/core/pipeline/extract_stream.go:234-297 | Accepts exactly the objects of the grammar within the depth limit and notes their members |
| StreamRecogniser.StreamDiscriminator.Value | packages/core/pipeline/extract_stream.go:298-359 | Accepts exactly the values of the grammar within the depth limit and notes them at their place |
| StreamRecogniser.Recognise | packages/core/pipeline/extract_stream.go:40-41 | A line is validated exactly when it is one object text, and the notes taken are those of its tree |
| LineReader.SliceReader.ReadSlice | packages/core/pipeline/extract_stream.go:29-29 | A fragment ends with the newline, fills the buffer or reaches the end of the file, and never passes the line |
| LineReader.CaptureLineReader.Read | packages/core/pipeline/extract_stream.go:86-115 | Hands out the next bytes of exactly one line and hashes exactly those |
| LineReader.DrainAll | packages/core/pipeline/extract_stream.go:42-46 | The whole line and nothing beyond it goes through the hash |
| LineReader.ReadOversized | packages/core/pipeline/extract_stream.go:39-63 | A malformed tail restores the hash; a line is skipped exactly when it is one irrelevant object, and refused otherwise |
| LineReader.ReadCaptureLine | packages/core/pipeline/extract_stream.go:23-71 | Consumes exactly one line; its result and the hash afterwards are functions of that line |
| Capture.ExtractRecord | packages/core/pipeline/extract.go:158-203 | One line's observation and the context after it: the latest context record of each kind, and never the record itself |
| CaptureContext.ContextIsLatestOfEachKind | packages/core/pipeline/extract.go:165-186 | A cursor reached after n lines holds the last context line of each kind among them, in order and each under its own number, and the location of the last directory they named |
| CaptureContext.RecordedCarryTheirContext | packages/core/pipeline/extract.go:187-196 | In every run each recorded observation is one line's data under its number, with exactly the last context line of each other kind before it and the location last named |
| CaptureContext.SavedLinesAreRecorded | packages/core/pipeline/extract.go:174-203 | In every run each usage or context line before the saved cursor is recorded |
| CaptureContext.OneEntryOfEachKind | packages/core/pipeline/extract.go:166-173 | A context never holds two records of one kind |
| Capture.TakeLine | packages/core/pipeline/extract.go:126-145 | Taking a line moves offset, ordinal, context and hash together; an unterminated line leaves the cursor before it |
| Capture.ParseJSONL | packages/core/pipeline/extract.go:57-156 | A parse resumes after a matching prefix, restarts otherwise, stages what every line contributes and fails at the offset of a refused line |
| Capture.StartFollowsTheFile | packages/core/pipeline/extract.go:71-101 | A file that does not begin with what was captured is read from its beginning under a new lineage; otherwise reading resumes, or starts over if asked |
| Capture.ScanVerified | packages/core/pipeline/extract.go:104-151 | The verified length never falls behind the saved cursor nor passes the end of the file |
| CaptureRuns.CaptureStore.Commit | packages/core/pipeline/extract_prepare.go:136-187 | All staged observations and the checkpoint are saved, or nothing is because the checkpoint or the captured bytes changed |
| CaptureRuns.CommitIsFenced | packages/core/pipeline/extract_prepare.go:136-187 | A commit takes place exactly if no other came since the parse began and the file still begins with all the parse read; then it records exactly what was staged, otherwise nothing is saved |
| CaptureRuns.CheckpointIsSound | packages/core/pipeline/extract.go:139-145 | In every run the saved prefix is exactly the file up to the offset, which begins a line; ordinal and context are those of folding exactly that many lines, so no speculative tail is in it |
| CaptureRuns.IncrementalEqualsFull | packages/core/pipeline/extract.go:57-156 | After any run of resumed parses, appends and commits, one more capture records exactly the observations of one full parse of the file in the same lineage, and it fails exactly when the full parse fails |
| CaptureRuns.SpeculationConfirmed | packages/core/pipeline/extract.go:138-146 | Once its newline arrives, a complete tail contributes what was recorded early if and only if the ended line fits the limit or may be skipped |
| CaptureRuns.ScanConfirmable | packages/core/pipeline/extract.go:108-146 | A scan from any reached cursor reaches its end cursor and stages only what lines of the file contribute |
| CaptureRuns.ConfirmedInFull | packages/core/pipeline/extract.go:94-101 | Whatever was recorded from a line of the file is staged again by every full parse that succeeds |
| CaptureRuns.RunsKeepWorld | packages/core/pipeline/extract_prepare.go:136-187 | Every interleaving of appends, parses and commits keeps the checkpoint and the recorded observations tied to the file |
| CaptureBoundary.BoundaryRecordIsLost | packages/core/pipeline/extract_stream.go:30-58 | A file whose complete last record is recorded, and which fails at that record once its newline is written |
| CaptureReporter.Reporter.ReportDiscovering | packages/core/pipeline/capture_progress.go:64-66 | A harness is being discovered |
| CaptureReporter.Reporter.ReportDiscovered | packages/core/pipeline/capture_progress.go:68-76 | The total becomes known; a harness is complete at once exactly when it has no sources |
| CaptureReporter.Reporter.ReportReading | packages/core/pipeline/capture_progress.go:93-102 | One reader more or less; unless the writer is saving, the phase is reading exactly while readers are active |
| CaptureReporter.Reporter.ReportSaving | packages/core/pipeline/capture_progress.go:104-109 | The phase becomes saving whoever reads, and nothing else changes |
| CaptureReporter.Reporter.ReportFinalized | packages/core/pipeline/capture_progress.go:111-127 | Exactly the result counter of the outcome grows, by one, and the number checked with it; a harness completes only without readers, failures or sources left |
| CaptureReporter.Reporter.ReportStopped | packages/core/pipeline/capture_progress.go:129-136 | A harness ends failed or interrupted |
| CaptureReporter.Reporter.ReportStoppedUnfinished | packages/core/pipeline/capture_progress.go:138-154 | Exactly the discovered harnesses that are unfinished, or failed before an interruption, end and publish it, in order; nothing but phases changes |
| CollectorProgress.Registry.UpdateCapture | packages/core/collectorprogress/capture.go:69-101 | A measurement is stored, or refused for the specified reason without effect beyond expiry |
| CollectorProgress.Registry.FinishCapture | packages/core/collectorprogress/capture.go:119-130 | Every measurement still going on ends with its attempt; ended ones are untouched |
| CollectorProgress.Registry.Expire | packages/core/collectorprogress/registry.go:130-145 | Whatever the order of the map, run-out leases interrupt their attempts and old terminal attempts are forgotten |
| CollectorProgress.Registry.Apply | packages/core/collectorprogress/registry.go:147-201 | A message is applied or refused as specified; a full registry gives up an attempt that finished first, or is busy |
| CollectorProgress.Registry.FindOldest | packages/core/collectorprogress/registry.go:160-169 | A terminal attempt that none finished before, and none exactly when no attempt is terminal |
| CollectorProgress.Registry.InterruptAll | packages/core/collectorprogress/registry.go:227-240 | Every attempt still going on is interrupted together with its measurements |
| CollectorProgress.ApplyKeepsTables | packages/core/collectorprogress/registry.go:147-201 | Messages keep at most 32 attempts, only valid measurements, and only terminal ones in a terminal attempt |
| CollectorProgress.InterruptingKeepsTables | packages/core/collectorprogress/registry.go:227-240 | Interruption leaves only terminal attempts with terminal measurements |
| ProgressRuns.RunsKeepProducer | packages/core/pipeline/extract_prepare.go:218-349 | Over every interleaving of readers and the writer the counters of a harness are its jobs, its phase is the work phase, and each emission is sound after the previous one |
| ProgressTheorems.EveryMeasurementIsValid | packages/core/collectorprogress/capture.go:35-65 | Everything a capture publishes is a valid measurement that may follow the previous one of its harness |
| ProgressTheorems.MeasurementAccepted | packages/core/collectorprogress/capture.go:69-101 | The registry accepts the next measurement whenever the attempt lives and it holds what was published before |
| ProgressTheorems.AcceptedExactlyWhileLive | packages/core/collectorprogress/capture.go:75-94 | In any story of calls, finishes, interruptions and lapses included, a measurement is accepted if and only if its attempt is alive at that moment |
| ProgressTheorems.OtherCallKeepsAlive | packages/core/collectorprogress/registry.go:147-201 | A call that does not end a living attempt leaves it and its measurements, keeps or renews its lease, and renews it if it is a heartbeat |
| ProgressTheorems.CaptureRefinesRegistry | packages/core/collectorprogress/capture.go:69-101 | Among any other calls that do not end the attempt, each before the lease held at that moment, no measurement of a capture is refused and the registry always holds each harness's last one |
| ProgressTheorems.HeartbeatsKeepAlive | packages/core/collectorprogress/registry.go:193-194 | Calls in the order of time with a heartbeat less than one lease ago at each of them never find the attempt lapsed |
| ProgressTheorems.StoriesKeepTables | packages/core/collectorprogress/registry.go:130-240 | After any calls a terminal attempt holds only terminal measurements and every bound holds |
| AttemptTheorems.AttemptsExpire | packages/core/collectorprogress/registry.go:130-145 | An attempt is untouched until its lease ends, then interrupted as of that moment with its measurements, and gone five minutes after its end |
| AttemptTheorems.MessageAmends | packages/core/collectorprogress/registry.go:174-200 | A message to a living attempt is refused exactly if it takes back acknowledged work; otherwise the attempt says what the message says with a lease of 15 seconds, and a finish ends its measurements |
| AttemptTheorems.DeadAttemptRefuses | packages/core/collectorprogress/registry.go:174-182 | A message to an attempt that ended or is unknown changes nothing but expiry, and is told which of the two |
| AttemptTheorems.BeginOpens | packages/core/collectorprogress/registry.go:155-173 | A new attempt waits without measurements if its id is free and there is room, or one that ended first makes room; each refusal has its exact condition |
| AttemptTheorems.AttemptsOnlyAdvance | packages/core/collectorprogress/registry.go:147-201 | Over any calls an attempt keeps its start, never takes back acknowledged work, and is never changed once ended |
| AttemptTheorems.StoriesKeepRows | packages/core/collectorprogress/registry.go:89-120 | Over any calls every stored attempt is well formed: bounded counters, known names, an error exactly if it did not succeed, a lease while it goes on |
| AttemptTheorems.ValidIffStorable | packages/core/collectorprogress/registry.go:89-120 | An update or finish is valid exactly if the attempt it would store is well formed, going on for the one and ended for the other |
| AttemptTheorems.MeasurementsOnlyAdvance | packages/core/collectorprogress/capture.go:83-100 | Over any calls a harness's results never fall, a known total stays, and an ended measurement stays, unless its failure turns out a cancellation |
| AttemptTheorems.StoredMeasurementsAddUp | packages/core/collectorprogress/capture.go:35-65 | Over any calls every stored measurement adds up to what was checked and fits its phase |

## Left out

- Datasets other than the default one: the mismatch check is left out, since only one dataset is ever created (`packages/core/datastore/store.go:143-156`).
- SQLite, files, locks, write-ahead logging, schema checks and statements in groups of 128 rows: a transaction is one atomic step.
- Transports, gateways, identities, endpoint validation, terminal and desktop interfaces, dashboard queries and the documentation site.
- Parsing of single records: what a record reads as is an input, tied to its work by `Processor.Reads`; field rules of facts other than their counters are represented by one flag.
- Scopes, evidence ids, message identities and replay fingerprints as texts: each is represented by what it is derived from, and Codex events pending for a turn belong to parsing.
- Cleaning, diagnostics, locations and repositories: cleaning is a function of the decoded object that keeps or blanks the discriminators, a location a function of the recorded directory.
- Stored bodies, hashes found corrupt, error texts, timestamps of rows and the generation and revision columns of a status.
- Session ids are taken as trimmed, and a fact belongs to the scope of its session.
- Interpretation.Settled: contributions are listed by the fact's scope and name, not by the hash of them, because identities are represented by what they are derived from.
- Ancestry.SameCounts: cumulative counters are compared as unbounded integers; that their sum cannot overflow is shown separately by `Tokens.CodexSum`.
- DataEngine.Drain: models the serial loop up to its first idle moment; tickers, wake-ups and cancellation are left out.
- Dispatcher.Dispatcher.Dispatch: errors while selecting, the pause after them and cancellation are left out; interpretation and publication report back through `Complete`, and as steps of `DispatcherRuns`.
- Delivery.CollectorStore.PublishRaw: one delivery loop without concurrent capture; interleaving with capture, restarts and lost messages is in `DeliveryRuns`.
- BatchEncoding.EncodeBatchPrefix: identifiers are taken to need no escapes in JSON, and records are checked by length, identity and sequence only.
- StreamRecogniser.Recognise: works on the line as a value; that memory stays bounded is shown only for the retained token.
- LineReader.ReadCaptureLine: read errors and cancellation are left out: they end the parse with nothing saved, which in `CaptureRuns` is a parse that never happened. Bytes above 127 are opaque.
- CaptureRuns.IncrementalEqualsFull: the file only grows and a complete object at its end is continued by a newline, as the capture expects; rewritten files appear only as a restart in `Capture.StartOf`, replaced inodes and quarantine not at all. The lineage is the one of the checkpoint.
- Capture of SQLite sources: a different extraction without a growing log.
- ProgressTheorems.CaptureRefinesRegistry: harness names are distinct and source counts at most 2^53 - 1.
