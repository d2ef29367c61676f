# A verified model of dwara's stateful cores

dwara is an API gateway written in Rust. This project models the parts of its binary, its admin
surface and its command line that keep state, exchange data with unreliable parties or transform
text, and proves what they promise for every input, every run and every interleaving.

| file | what it models |
|---|---|
| `ConfigPublication.dfy`, `SelfHealing.dfy`, `ListenerPublication.dfy`, `PublicationTasks.dfy` | the two writers of the configuration file and the published snapshot: as a state machine over every single read, write, comparison and publication, with exact conditions for self-healing and for the listener set to follow, and as the code of the two tasks with all others interfering between any two steps |
| `ByteSearch.dfy`, `ChunkedCoding.dfy`, `HeadFragments.dfy`, `ResponseReader.dfy` | the OTLP exporter's response reader: a socket that fragments its bytes arbitrarily, three body framings, the chunked coding of section 7.1 of RFC 9112 |
| `ExportRetry.dfy`, `MetricsQueue.dfy` | the exporter's bounded retry loop, and the metrics retry queue with its flush at shutdown |
| `Pacing.dfy`, `BusyPacing.dfy`, `PermitRuns.dfy`, `Histogram.dfy` | the load generator's permit dispenser with its compare-and-swap workers, and its halving latency histogram |
| `SpliceDrain.dfy` | the drain of in-flight splices: a counter and a notification without a lost wakeup |
| `ListenerManager.dfy` | the reconciliation of bound and configured listeners |
| `QueryString.dfy` | the admin surface's percent decoding and query parameters |
| `OpenApiImport.dfy`, `KongImport.dfy` | the names and references of imported gateways |
| `NginxParser.dfy`, `NginxBlocks.dfy`, `NginxNesting.dfy`, `NginxWarnings.dfy`, `NginxLayout.dfy`, `NginxRoundTrip.dfy` | the NGINX configuration parser: its stack machine, what nested blocks mean, where warnings point, how lines may be laid out, parsing as the inverse of printing |
| `Text.dfy`, `Numbers.dfy`, `Wrappers.dfy` | splitting, trimming, numerals; minimum and powers of two; `Option` and `Result` |

Concurrency is a state machine: each atomic operation of the code is a step, and steps of all
parties interleave arbitrarily. A run is a sequence of states; liveness speaks of endless schedules
that move as long as anything can move. Code that changes variables step by step is a method proved
against a function of its inputs, and what the code is for is proved of that function.

## Where the code falls short of its promise

Each of these is proved, beside the condition under which the promise does hold.

- `crates/dwara-bin/src/reload.rs:20-22` has the listener set applied after every successful publish. An
  admin publication does not apply it; the watch reload its write causes does, but only if that reload
  took its snapshot before the publication, for otherwise it is skipped as unchanged. After an
  undisturbed PATCH of a new document the listener set follows exactly then, or if it was that of the
  document already (`ListenerPublication.PatchAppliesListenersIff`). Both happen, from every settled state
  (`ListenerPublication.PatchLeavesListenersBehind`, `ListenerPublication.PatchCanApplyListeners`). SIGHUP brings
  everything together (`ListenerPublication.HupBringsTogether`).
- Self-healing fails for some edits of the file between an admin request's write and its publication
  (`ConfigPublication.EditInWindowCanDiverge`). `SelfHealing.HealsIff` says for every reachable state, any
  edits included, whether it heals; without such edits all do (`SelfHealing.OutsideWindowHeals`).
- The end of a response head within the kilobyte past its cap is accepted or rejected depending on how
  reads split the bytes, and exactly there (`HeadFragments.FragmentsDecideIff`).
- A worker can find permits and still starve for a slice: at every rate above 20 the dispenser's top-up
  alone can make its swap fail (`PermitRuns.FastMissWithoutConsumption`), and at no other rate
  (`PermitRuns.SlowMissMeansConsumption`).
- A histogram keeps one sample for each full block of arrivals exactly if its ceiling is even
  (`Histograms.StrataNeedEvenCap`).
- An NGINX location inside a location makes closing braces close the wrong blocks and loses later
  locations: braces match exactly if locations stand in servers (`NginxBlocks.BracesMatchIff`), and
  `NginxNesting.NestedLocationLosesALaterOne` is about every text of such a kind; the servers of a
  repeated upstream name all go to its first block (`NginxRoundTrip.ParsePrintRoundTrip`).
- A named Kong route with two paths becomes two routes of one name, which validation
  (`crates/dwara-core/src/snapshot/mod.rs:4819-4836`) rejects (`KongImport.RouteNamesDistinctIff`).
- An OpenAPI operation whose identifier has no ASCII letter or digit gives its route the empty base
  name (`OpenApiImport.NamelessRoutes`).

## Model

| member | source | states |
|---|---|---|
| ConfigPublication.PublishedConvergesToFile | crates/dwara-admin/src/lib.rs:1895-1953 | in every run with edits outside the admin window, whenever the lock is free, the driver idle and no watch event pending, published and file content have one hash, although reloads compare against stale snapshots and publish stale loads |
| ConfigPublication.AdminOnlyConvergence | crates/dwara-bin/src/reload.rs:63-87 | without out-of-band edits this holds unconditionally: a rejected or unreadable file cannot arise |
| ConfigPublication.DriverStepKeepsInv | crates/dwara-bin/src/reload.rs:63-143 | every step of the driver (snapshot, load, compare, publish, apply) keeps "up to date or a repair is on its way" |
| ConfigPublication.OtherStepKeepsInv | crates/dwara-admin/src/entity_crud.rs:509-520 | so does every step of an admin request, the watcher, a signal or an allowed edit |
| ConfigPublication.UnsettledCanMove | crates/dwara-bin/src/main.rs:1236-1254 | unless everything is settled some internal step is enabled: no deadlock |
| ConfigPublication.InternalMoveMakesProgress | crates/dwara-bin/src/main.rs:1242-1250 | every internal step lessens what is left to do, lexicographically |
| ConfigPublication.SettlesFrom | crates/dwara-bin/src/main.rs:1236-1254 | every endless schedule without new inputs reaches a settled state, and whatever internal steps keep still holds there |
| SelfHealing.HealsIff | crates/dwara-admin/src/lib.rs:1895-1902 | for every reachable state, with edits at any moment: no run without further inputs settles with a publishable file other than what is published, if and only if the state heals: the written document is still in the file, or no document is to be published and a reload is certain to come, will not skip the file, or has nothing to repair |
| SelfHealing.HealingSettles | crates/dwara-admin/src/lib.rs:1898-1902 | from every reachable state that heals every schedule settles, and there file and published content agree |
| SelfHealing.StepHeals | crates/dwara-bin/src/reload.rs:63-87 | no step of the gateway itself takes a healing state to one that does not heal |
| SelfHealing.DivergesFrom | crates/dwara-admin/src/lib.rs:1942-1953 | from every other reachable state a run without further inputs settles apart from the file |
| SelfHealing.OutsideWindowHeals | crates/dwara-admin/src/lib.rs:1898-1902 | without edits between a write and its publication every reachable state heals |
| ConfigPublication.SelfHeals | crates/dwara-admin/src/lib.rs:1898-1902 | from any state of any run, once inputs stop, the gateway settles and then publishes what the file says |
| ConfigPublication.EditInWindowCanDiverge | crates/dwara-admin/src/lib.rs:1942-1953 | a run, for any three documents, in which an edit between write and publication leaves file and snapshot apart in a settled state |
| ConfigPublication.DriverPublicationIsApplied | crates/dwara-bin/src/reload.rs:140-143 | in every run, after a publication of the driver the applied listener set is the published one |
| ListenerPublication.PatchAppliesListenersIff | crates/dwara-bin/src/reload.rs:63-143 | in every order of the steps of an undisturbed PATCH and of the watch reloads its write causes: the gateway settles with the document in the file and published, and the listener set is the published one if and only if a reload took its snapshot before the publication of a new document, or the set was that document's already |
| ListenerPublication.PatchLeavesListenersBehind | crates/dwara-bin/src/reload.rs:73-86 | from every settled state a PATCH of any document can end settled, file and snapshot replaced, with the old listener set still applied |
| ListenerPublication.PatchCanApplyListeners | crates/dwara-bin/src/reload.rs:63-143 | from every settled state a PATCH of any new document can also end with its listener set applied |
| ListenerPublication.HupBringsTogether | crates/dwara-bin/src/main.rs:1238-1241 | after a SIGHUP to a settled gateway with a publishable file, every undisturbed run that settles has file, snapshot and listener set together |
| ListenerPublication.HupAppliesListeners | crates/dwara-bin/src/reload.rs:66-87 | and every endless schedule settles there |
| ConfigPublication.ReloadUninterrupted | crates/dwara-bin/src/reload.rs:50-176 | a reload without interference publishes and applies the file, unless it is unreadable, invalid, or unchanged under a file watch |
| PublicationTasks.Shared.Reload | crates/dwara-bin/src/reload.rs:50-176 | with all others moving between its steps, a reload publishes exactly the document it read, if publishable and not skipped against the snapshot it took earlier, then applies what is published, and otherwise leaves the applied listener set alone; all its states lie on one run |
| PublicationTasks.Shared.PatchConfig | crates/dwara-admin/src/lib.rs:1903-1975 | a request with an invalid document changes nothing; one answered as published leaves file and snapshot both holding its document, whatever the driver did meanwhile |
| PublicationTasks.Shared.AtRest | crates/dwara-admin/src/lib.rs:1895-1902 | at rest the published content hash is the file's |
| ByteSearch.FindIsFirst | crates/dwara-bin/src/otlp.rs:1206-1206 | the window search answers the first occurrence, or that there is none |
| ByteSearch.FindInPrefix | crates/dwara-bin/src/otlp.rs:1205-1220 | a growing buffer finds an occurrence as soon as it holds all of it and never moves it |
| ChunkedCoding.DecodeOfEncode | crates/dwara-bin/src/otlp.rs:1274-1345 | every list of valid chunks followed by a last chunk and any trailer decodes to the concatenated data |
| ChunkedCoding.EncodeOfDecode | crates/dwara-bin/src/otlp.rs:1279-1344 | whatever decodes is such a list of chunks |
| ChunkedCoding.DecodesIffChunks | crates/dwara-bin/src/otlp.rs:1274-1345 | a body decodes to some bytes if and only if it is a list of valid chunks with that data, a last line and a trailer |
| ChunkedCoding.HexLineParses | crates/dwara-bin/src/otlp.rs:1300-1302 | the hexadecimal numeral of every size, in upper or lower case, is parsed to that size |
| ChunkedCoding.SizeLineReads | crates/dwara-bin/src/otlp.rs:1300-1302 | so it is with white space around it, a plus sign before it and a chunk extension after it |
| ChunkedCoding.HexValueIff | crates/dwara-bin/src/otlp.rs:1301-1301 | the digits are the 22 hexadecimal ones with their values, and no other bytes |
| ChunkedCoding.OtherBytesSpoil | crates/dwara-bin/src/otlp.rs:1300-1302 | any byte but white space, a plus sign, a semicolon or a digit before a size makes its line an error |
| ChunkedCoding.PlainRoundTrip | crates/dwara-bin/src/otlp.rs:1274-1345 | any list of non-empty parts within the cap, encoded canonically per section 7.1 of RFC 9112, decodes to their concatenation |
| ResponseReader.Socket.Read | crates/dwara-bin/src/otlp.rs:1184-1193 | a read delivers some prefix of what is unread, of any length within the limit, nothing only at the end |
| ResponseReader.WriteAllBounded | crates/dwara-bin/src/otlp.rs:1162-1178 | success means exactly the buffer was sent, and failure that a proper prefix was |
| ResponseReader.Socket.Write | crates/dwara-bin/src/otlp.rs:1171-1171 | a send is of at most the chunk bound and delivers some prefix of its bytes, possibly none |
| ResponseReader.ReadContentLength | crates/dwara-bin/src/otlp.rs:1260-1273 | unless the deadline passes, the body is the declared number of bytes of the stream however it is fragmented, or the right error |
| ResponseReader.FillLine | crates/dwara-bin/src/otlp.rs:1280-1294 | the buffer grows until a size line is in it, and reports the cap or the close otherwise |
| ResponseReader.FillTo | crates/dwara-bin/src/otlp.rs:1334-1341 | the buffer grows until a chunk with its terminator is in it, staying within the reader's bound |
| ResponseReader.FrameChunk | crates/dwara-bin/src/otlp.rs:1315-1333 | no declared size can wrap a sum: the overflow checks never fire after the caps |
| ResponseReader.ReadChunk | crates/dwara-bin/src/otlp.rs:1280-1343 | one turn of the chunk loop reads exactly the chunk at the cursor of the whole stream |
| ResponseReader.ReadChunked | crates/dwara-bin/src/otlp.rs:1274-1345 | the chunk loop terminates on every stream and fragmentation and decodes the stream as the pure decoder does, within reach |
| ResponseReader.ReadToClose | crates/dwara-bin/src/otlp.rs:1346-1359 | close-delimited bodies are read to the end of the stream, or reported over the cap |
| ResponseReader.ReadBody | crates/dwara-bin/src/otlp.rs:1224-1363 | the framing choice and the status check on top: the answer is a function of the raw bytes |
| ResponseReader.FillHead | crates/dwara-bin/src/otlp.rs:1203-1220 | the answer is the one that the fragments read decide; the head found ends where the blank line first occurs in the whole stream, a close is reported only of a stream without one, and the cap only if no blank line ends within the cap |
| HeadFragments.HeadDecided | crates/dwara-bin/src/otlp.rs:1205-1220 | every way for a head to arrive has the answer that the whole stream decides, unless the head ends in the last read past the cap |
| HeadFragments.LastReadDecides | crates/dwara-bin/src/otlp.rs:1212-1219 | such a head is rejected when it comes byte by byte and accepted when it comes in full reads |
| HeadFragments.FragmentsDecideIff | crates/dwara-bin/src/otlp.rs:1203-1220 | two ways for a head to arrive can have different answers if and only if it ends in the last read past the cap |
| ResponseReader.ReadResponse | crates/dwara-bin/src/otlp.rs:1198-1221 | fragmentation independence: unless the deadline passes, the answer is a function of the byte stream alone within reach of the caps |
| ResponseReader.RespondByHead | crates/dwara-bin/src/otlp.rs:1203-1220 | that function answers about the head what its fragments decide, wherever they do not differ, and hands on just the bytes after the blank line |
| ResponseReader.SmallResponseInReach | crates/dwara-bin/src/otlp.rs:109-112 | a head of at most 64 KiB and a raw body of at most 1 MiB are always within reach |
| ResponseReader.AcceptedBody | crates/dwara-bin/src/otlp.rs:1260-1359 | an accepted body is at most 1 MiB in all framings, and exactly as long as declared |
| ResponseReader.ChunkedResponseRoundTrip | crates/dwara-bin/src/otlp.rs:1198-1363 | a whole chunked response is read back as its parts' concatenation |
| ResponseReader.ContentLengthAcceptedIff | crates/dwara-bin/src/otlp.rs:1260-1273 | a response with a Content-Length is accepted if and only if its status is from 100 to 999, its length at most 1 MiB and that many bytes follow, whatever comes after them; else the error is the right one |
| ResponseReader.CompleteBodyAccepted | crates/dwara-bin/src/otlp.rs:1264-1273 | every complete body of just its declared length, an empty one too, is the answer's body |
| ResponseReader.CloseDelimitedAcceptedIff | crates/dwara-bin/src/otlp.rs:1346-1362 | without framing a response is accepted if and only if its status is one and all its bytes are at most 1 MiB, which are then the body |
| ResponseReader.BodyIff | crates/dwara-bin/src/otlp.rs:1260-1362 | which bytes are accepted as which body, framing by framing: Content-Length before chunked before close |
| ExportRetry.BackoffClosedForm | crates/dwara-bin/src/otlp.rs:1043-1065 | the backoff before the first retry is the base and min(base * 2^i, cap) after, whatever Retry-After replaced |
| ExportRetry.WaitsWithinBudget | crates/dwara-bin/src/otlp.rs:1066-1093 | all waits together fit strictly before the shared deadline |
| ExportRetry.SendWithRetry | crates/dwara-bin/src/otlp.rs:1038-1098 | between one and max_attempts posts, all but the last of them transient failures, the answer that of the last; every nap is decided to end before the deadline with the specified length, and the final unreachable line is unreachable |
| ExportRetry.ClassifyIff | crates/dwara-bin/src/otlp.rs:1102-1145 | what is retried is exactly a failed connection, a socket failure before the deadline and the statuses 429, 502, 503 and 504; what is accepted, a status below 400 |
| ExportRetry.NapsLast | crates/dwara-bin/src/otlp.rs:1058-1065 | every nap follows such a failure and lasts as long as a Retry-After other than zero says, and else min(base * 2^i, cap), at first the base |
| MetricsQueue.DrainKeeps | crates/dwara-bin/src/otlp.rs:489-509 | draining delivers oldest first and keeps every payload in exactly one place |
| MetricsQueue.FileAccounts | crates/dwara-bin/src/otlp.rs:526-557 | a fresh payload ends delivered, queued or dropped, and at most one older one evicted |
| MetricsQueue.FileKeeps | crates/dwara-bin/src/otlp.rs:545-556 | filing keeps the queue within its depth, ascending, and newer than everything evicted |
| MetricsQueue.TickKeeps | crates/dwara-bin/src/otlp.rs:480-559 | a whole tick keeps all of this |
| MetricsQueue.RunConserves | crates/dwara-bin/src/otlp.rs:438-460 | over any ticks and network, each encoded payload is in exactly one of delivered, queued, evicted or dropped; the queue ascends and evicted payloads are older; retried deliveries ascend |
| MetricsQueue.FlushKeepsOrder | crates/dwara-bin/src/otlp.rs:446-455 | the final flush delivers in ascending order too |
| MetricsQueue.ShutdownConserves | crates/dwara-bin/src/otlp.rs:442-457 | after shutdown nothing is queued and each payload was delivered, evicted, dropped or lost, exactly once |
| MetricsQueue.DeliveredIffAccepted | crates/dwara-bin/src/otlp.rs:486-559 | at any time of any run and after shutdown a payload is delivered if and only if one post of it was accepted, never two, and no post was accepted of anything queued, evicted, dropped or lost |
| MetricsQueue.DrainStopsAtRefusal | crates/dwara-bin/src/otlp.rs:489-509 | a drain posts the queue from its front up to the first refusal, whose payload stays in front |
| MetricsQueue.FlushStopsAtRefusal | crates/dwara-bin/src/otlp.rs:446-455 | the final flush posts likewise, and loses the refused payload and all behind it |
| MetricsQueue.AcceptingTickClears | crates/dwara-bin/src/otlp.rs:486-559 | a tick all of whose posts are accepted delivers the whole queue and the fresh payload and evicts and drops nothing |
| MetricsQueue.EvictsOnlyWhenFull | crates/dwara-bin/src/otlp.rs:545-556 | a tick evicts only the oldest payload, only for a refused fresh one and only when the queue is as long as its depth |
| MetricsQueue.MetricsExporter.DrainQueue | crates/dwara-bin/src/otlp.rs:489-509 | the loop over the queue computes the specified drain |
| MetricsQueue.MetricsExporter.ExportTick | crates/dwara-bin/src/otlp.rs:480-559 | the tick computes the specified tick |
| MetricsQueue.MetricsExporter.ShutDown | crates/dwara-bin/src/otlp.rs:442-457 | the last tick and the flush compute the specified shutdown |
| Pacing.WakesOnGrid | crates/dwara-cli/src/loadgen.rs:317-321 | a starved worker wakes at the least grid point after now, less than a millisecond late |
| Pacing.WaitsFromEpoch | crates/dwara-cli/src/loadgen.rs:312-321 | any epoch will do, and before it a wait is a full slice |
| Pacing.SleepsNeverDrift | crates/dwara-cli/src/loadgen.rs:699-703 | the n-th wake-up is the n-th grid point with one and the same lateness |
| Pacing.OwedGrowth | crates/dwara-cli/src/loadgen.rs:410-422 | within one slice of time the schedule grows by at most one slice of tokens, for every rate |
| Pacing.TickReachesSchedule | crates/dwara-cli/src/loadgen.rs:306-310 | with an empty balance a tick reaches the schedule exactly if it is at most one slice behind |
| BusyPacing.BusyWorkersPaidIff | crates/dwara-cli/src/loadgen.rs:416-431 | in every run of the dispenser and its workers in which loads find the balance empty, every tick pays all that is owed if and only if the first owes at most a slice and none a slice more than the one before |
| BusyPacing.BusyWorkersGetSchedule | crates/dwara-cli/src/loadgen.rs:410-431 | so it is with timely ticks, for every rate: the catch-up cap costs no throughput |
| BusyPacing.TicksHaveTimes | crates/dwara-cli/src/loadgen.rs:421-422 | the ticks of every such run owe what the schedule owes at ascending times |
| Pacing.StepKeepsInv | crates/dwara-cli/src/loadgen.rs:674-705 | every step of dispenser, clock and workers, loads and swaps apart, keeps the books, and no permit is wasted before the deadline |
| Pacing.PacingIsSafe | crates/dwara-cli/src/loadgen.rs:779-783 | in every interleaving paid = consumed + balance, balance is at most a slice, and measured requests by now are at most rate * now plus a slice; before the deadline every permit taken is a request measured or about to be, no worker stops, and a starved one sleeps a slice at most |
| Pacing.PerSliceIsLeast | crates/dwara-cli/src/loadgen.rs:410-410 | the slice is the least number of tokens, at least one, that makes up the rate twenty times a second |
| PermitRuns.SwapTakesIff | crates/dwara-cli/src/loadgen.rs:676-689 | in every run a worker that has loaded the balance takes a permit if and only if what it loaded was positive and is still the balance; else it only goes away |
| PermitRuns.MissSinceTurn | crates/dwara-cli/src/loadgen.rs:674-703 | from a worker's turn beside a positive balance to its miss somebody has consumed a permit or the dispenser has paid one in |
| PermitRuns.SlowMissMeansConsumption | crates/dwara-cli/src/loadgen.rs:676-689 | at rates of up to 20 such a miss always means a permit consumed meanwhile |
| PermitRuns.FastMissWithoutConsumption | crates/dwara-cli/src/loadgen.rs:420-431 | at every higher rate there is a run in which the top-up alone makes a worker miss and starve beside more permits than it loaded |
| PermitRuns.NothingMeasuredLate | crates/dwara-cli/src/loadgen.rs:779-783 | in every run, from the deadline on nothing more is measured |
| PermitRuns.LateWorkersEnd | crates/dwara-cli/src/loadgen.rs:690-692 | every worker can move until it is done, and from the deadline on each of its steps brings it nearer to its end |
| Pacing.NoBurst | crates/dwara-cli/src/loadgen.rs:405-408 | a window of k ticks consumes at most k + 1 slices however long workers idled |
| Histograms.RecordStratifies | crates/dwara-cli/src/loadgen.rs:216-228 | recording keeps the strata under an even ceiling, across a halving too |
| Histograms.RecordingStratifies | crates/dwara-cli/src/loadgen.rs:180-228 | over any history the stride is a power of two, exactly one sample of each full block of arrivals is retained, and there are fewer than the ceiling |
| Histograms.StrataNeedEvenCap | crates/dwara-cli/src/loadgen.rs:211-227 | the number of retained samples is seen / stride for all histories if and only if the ceiling is even |
| Histograms.PercentileIsNearestRank | crates/dwara-cli/src/loadgen.rs:232-241 | the answer is a sample with at least rank samples at or below it and fewer than rank below it |
| Histograms.NearestRankIsUnique | crates/dwara-cli/src/loadgen.rs:230-231 | there is only one such value |
| Histograms.RankIsLeastCovering | crates/dwara-cli/src/loadgen.rs:237-240 | the rank is the least, from one on, that covers the fraction, clamped to 0..1, of the samples |
| Histograms.PercentileSplitsSamples | crates/dwara-cli/src/loadgen.rs:230-241 | the answer is a sample that at least num/den of the samples do not exceed and less than num/den are below |
| Histograms.PercentileGrows | crates/dwara-cli/src/loadgen.rs:237-240 | percentiles grow with the fraction, also outside [0, 1] where it is clamped |
| Histograms.SortedSamplesAgree | crates/dwara-cli/src/loadgen.rs:236-236 | sorting the samples in place does not change later percentiles |
| Histograms.ReportAscends | crates/dwara-cli/src/loadgen.rs:1582-1585 | p50 <= p90 <= p99 <= p999 for every set of samples |
| Histograms.Histogram.RecordSample | crates/dwara-cli/src/loadgen.rs:216-228 | the recording method computes the specified view |
| Histograms.Histogram.Percentile | crates/dwara-cli/src/loadgen.rs:232-241 | the query answers the nearest rank and leaves the samples a permutation of themselves |
| Histograms.Histogram.Report | crates/dwara-cli/src/loadgen.rs:1582-1585 | four queries in a row answer ascending percentiles of the recorded samples |
| SpliceDrain.NoLostWakeup | crates/dwara-bin/src/listeners.rs:174-199 | whenever the drainer is parked and not woken, a guard lives or one that brought the counter to zero is about to notify; the counter is the number of live guards |
| SpliceDrain.AnswersAreCurrent | crates/dwara-bin/src/listeners.rs:186-197 | in every run true is answered only in a step that finds no splice alive, and false only from the deadline on, in a step that finds one alive or, at the loop's own deadline test, right after a load that did: an expired wait loads once more |
| SpliceDrain.ParkedWithoutSplices | crates/dwara-bin/src/listeners.rs:192-197 | while no splice lives and none starts, a parked drain can only go on to true |
| SpliceDrain.NotificationWakes | crates/dwara-bin/src/listeners.rs:176-185 | a notification reaches the drainer in whatever state it is registered, and lets a parked one go on |
| SpliceDrain.EndlessSpliceIsGivenUp | crates/dwara-bin/src/listeners.rs:170-173 | for every deadline there is a run that answers false with a splice still alive |
| SpliceDrain.TrackKeepsInv | crates/dwara-bin/src/listeners.rs:157-163 | a new guard keeps the invariant |
| SpliceDrain.DecrementKeepsInv | crates/dwara-bin/src/listeners.rs:210-216 | so does a guard's decrement, apart from its notification |
| SpliceDrain.OtherStepKeepsInv | crates/dwara-bin/src/listeners.rs:183-197 | and every step of the drainer, the clock and the notifications |
| SpliceDrain.DrainIsNeverStuck | crates/dwara-bin/src/listeners.rs:192-197 | until drain returns some step is enabled |
| SpliceDrain.MoveMakesProgress | crates/dwara-bin/src/listeners.rs:175-198 | every step of a guard, a notification or the drainer lessens what is left to do before the drain returns, as long as no splice starts |
| SpliceDrain.DrainReturns | crates/dwara-bin/src/listeners.rs:170-173 | once no new splice starts, drops and drainer alone make drain return in whatever order they move and without any time passing, and before the deadline it returns true |
| SpliceDrain.LateDrainerCanMove | crates/dwara-bin/src/listeners.rs:189-196 | from the deadline on the drainer itself can always move, whatever splices live |
| SpliceDrain.LateStepAdvances | crates/dwara-bin/src/listeners.rs:175-198 | each of its steps then brings it nearer to its return, and no new splice, drop, notification or passing of time takes it back |
| SpliceDrain.DrainReturnsByDeadline | crates/dwara-bin/src/listeners.rs:170-199 | in every schedule in which the deadline comes and the drainer gets turns drain returns, though splices start and never end |
| ListenerManager.UnchangedKeepsItsTask | crates/dwara-bin/src/listener_manager.rs:150-153 | a listener of unchanged identity keeps its task and its TLS entry |
| ListenerManager.ChangedIsBoundAnew | crates/dwara-bin/src/listener_manager.rs:143-171 | a new or changed http, https or tcp listener runs a new task if its bind succeeds, with a TLS entry of that task if it is https and not passed through and otherwise none that a stop took away; it is released if the bind fails |
| ListenerManager.UnconfiguredIsReleased | crates/dwara-bin/src/listener_manager.rs:126-141 | a vanished name loses its listener and its TLS entry |
| ListenerManager.OnlyUnchangedKeepTasks | crates/dwara-bin/src/listener_manager.rs:52-71 | a managed listener keeps its task if and only if its bind identity is unchanged |
| ListenerManager.IdentityIffAgree | crates/dwara-bin/src/listener_manager.rs:55-71 | bind identities are equal if and only if address, port, protocol, proxy protocol and TLS mode are, though address and port are one text |
| ListenerManager.KeepsTaskIffAgree | crates/dwara-bin/src/listener_manager.rs:114-172 | over any two reloads a listener managed after the first keeps its task in the second if and only if the second configures one of its name with the same five fields |
| ListenerManager.ManagedIsConfiguredLessFailed | crates/dwara-bin/src/listener_manager.rs:143-171 | the managed names are exactly the configured TCP names less those whose bind failed |
| ListenerManager.ReconciledServes | crates/dwara-bin/src/listener_manager.rs:114-117 | afterwards every managed listener has the identity configured under its name |
| ListenerManager.BoundAsConfigured | crates/dwara-bin/src/listener_manager.rs:219-300 | field by field: it is bound at the configured address and port as http, https or tcp, with the configured proxy protocol and TLS mode |
| ListenerManager.SecondReloadIsIdle | crates/dwara-bin/src/listener_manager.rs:118-172 | a second apply of the same set changes nothing if and only if no bind of the first failed |
| ListenerManager.Manager.FindStale | crates/dwara-bin/src/listener_manager.rs:126-137 | the first loop collects exactly the vanished and changed names, each once |
| ListenerManager.Manager.StopListener | crates/dwara-bin/src/listener_manager.rs:178-181 | afterwards the name has no listener, its TLS entry is still for the caller to remove, and every other name has the listener and the TLS entry it had |
| ListenerManager.Manager.SpawnListener | crates/dwara-bin/src/listener_manager.rs:223-300 | a spawn tracks the listener under its identity exactly if the bind succeeds |
| ListenerManager.Manager.Apply | crates/dwara-bin/src/listener_manager.rs:118-172 | the three loops compute the specified reconciliation for every configured set |
| QueryString.PercentDecode | crates/dwara-admin/src/lib.rs:671-700 | the byte loop terminates and computes the specified decoding, never longer than the text |
| QueryString.DecodesIffSpelled | crates/dwara-admin/src/lib.rs:668-700 | a text decodes to some bytes if and only if it spells a row of literals, pluses, escapes and stray percent signs that means them |
| QueryString.QueryDecodes | crates/dwara-admin/src/lib.rs:703-714 | a query decodes to the pairs its parts mean, however bytes are spelled, with empty parts and keys without value |
| QueryString.QueryRoundTrip | crates/dwara-admin/src/lib.rs:703-714 | every list of pairs of byte strings, percent-encoded with either form of space and either case of digits, comes back |
| QueryString.Param | crates/dwara-admin/src/lib.rs:717-722 | a lookup answers the value of the first pair of a key, or that there is none |
| OpenApiImport.SanitizedShape | crates/dwara-cli/src/import.rs:427-442 | sanitised names are lower-case letters, digits and inner hyphens, empty exactly if the identifier has no ASCII letter or digit |
| OpenApiImport.NamelessRoutes | crates/dwara-cli/src/import.rs:402-417 | a base name is empty exactly if it comes from such an identifier |
| OpenApiImport.NameFromIdentifier | crates/dwara-cli/src/import.rs:402-403 | an identifier of lower-case letters, digits and inner hyphens is the base name itself |
| OpenApiImport.NameFromPath | crates/dwara-cli/src/import.rs:404-417 | without identifier it is the method in lower case and the path's segments with hyphens between, or root |
| OpenApiImport.HyphenatedAt | crates/dwara-cli/src/import.rs:429-438 | character by character: letters in lower case, digits as they are, hyphens for all else |
| OpenApiImport.SlugOfParts | crates/dwara-cli/src/import.rs:406-409 | anywhere in a path slashes become hyphens, braces and dots are dropped and all else stays |
| OpenApiImport.FreshNameIsLeastFree | crates/dwara-cli/src/import.rs:418-425 | a name is the fresh one if and only if it is a free candidate with all candidates before it taken |
| OpenApiImport.FreshName | crates/dwara-cli/src/import.rs:418-425 | for every finite set of used names there is a free candidate, and its number exceeds the number of used names by at most one |
| OpenApiImport.DeriveRouteName | crates/dwara-cli/src/import.rs:396-425 | the loop terminates for every finite set of used names and answers that name |
| OpenApiImport.BuildRoutes | crates/dwara-cli/src/import.rs:161-255 | the nested loops compute the specified routes, and empty routes are allowed exactly if no path has an operation |
| OpenApiImport.RouteNamesDistinct | crates/dwara-cli/src/import.rs:161-254 | the routes of every document have pairwise distinct names |
| OpenApiImport.OneRoutePerPath | crates/dwara-cli/src/import.rs:154-160 | there is one route for each path with an operation, in order, of that path, with exactly the methods that have one, and described by the first of them |
| OpenApiImport.MethodsIff | crates/dwara-cli/src/import.rs:161-179 | each of the seven methods is imported if and only if the path has an operation under its name |
| OpenApiImport.MethodsAreNamed | crates/dwara-cli/src/import.rs:108-116 | the names of the seven operations of a path and their order |
| OpenApiImport.EarlierRoutesKeepTheirNames | crates/dwara-cli/src/import.rs:165-182 | paths added at the end never rename earlier routes |
| OpenApiImport.SuffixesOnlyOnCollision | crates/dwara-cli/src/import.rs:393-395 | every route bears its base name if and only if the base names are distinct |
| KongImport.BuildGateway | crates/dwara-cli/src/import_kong.rs:165-284 | the upstream and service loops and the loops after them compute the specified gateway |
| KongImport.BuildRoutes | crates/dwara-cli/src/import_kong.rs:286-424 | so does the route loop with its stubs |
| KongImport.ImportIsClosed | crates/dwara-cli/src/import_kong.rs:165-424 | for every Kong input each route's service and each service's upstream is defined under its own name, and every upstream has an endpoint |
| KongImport.ServiceImportedIff | crates/dwara-cli/src/import_kong.rs:224-283 | a service is imported if and only if a route refers to it or it is a Kong service with a configured endpoint |
| KongImport.ServiceEndpoints | crates/dwara-cli/src/import_kong.rs:228-356 | it is served by its Kong upstream's endpoints, or else by its own, and by the stub only if neither is configured |
| KongImport.HostIsEndpoint | crates/dwara-cli/src/import_kong.rs:525-541 | a service's own endpoint is that of its URL, or else its host with its port or 80 |
| KongImport.TargetsAreEndpoints | crates/dwara-cli/src/import_kong.rs:182-186 | targets become endpoints in order with their weight or 100, and those that cannot be parsed are left out |
| KongImport.RouteMatches | crates/dwara-cli/src/import_kong.rs:287-416 | every path of every route is imported with all methods and the first host to the service named, or else the first, as a prefix, or as a regular expression if it starts with a tilde |
| KongImport.RouteNamesDistinctIff | crates/dwara-cli/src/import_kong.rs:358-378 | the route names are distinct if and only if named routes have one path at most, names differ, and none looks like a generated one |
| KongImport.StubReportedIff | crates/dwara-cli/src/import_kong.rs:299-304 | a stub is reported for a route if and only if its service is not imported otherwise and no earlier route refers to it |
| KongImport.WarningsIff | crates/dwara-cli/src/import_kong.rs:187-424 | an upstream is reported if and only if it has no valid targets, a service if and only if it comes without endpoint while none is configured, a route if and only if its path is to be stripped |
| KongImport.TargetReadsBack | crates/dwara-cli/src/import_kong.rs:563-574 | every host, with colons too, and every port are read back from a target |
| KongImport.UrlReadsBack | crates/dwara-cli/src/import_kong.rs:545-560 | and from a URL with any path |
| NginxParser.FindComment | crates/dwara-cli/src/import_nginx.rs:366-378 | the flag loop finds the first comment sign outside quotes |
| NginxParser.OpenBlock | crates/dwara-cli/src/import_nginx.rs:129-166 | an opening line does to configuration and stack what the machine specifies |
| NginxParser.CloseBlock | crates/dwara-cli/src/import_nginx.rs:170-187 | a closing line pops the block and hands it to the configuration or the server below |
| NginxParser.Interpret | crates/dwara-cli/src/import_nginx.rs:125-282 | every statement is one step of the machine |
| NginxParser.ParseNginxConfig | crates/dwara-cli/src/import_nginx.rs:105-285 | the line loop computes the machine's result for every text |
| NginxBlocks.MachineComputesMeaning | crates/dwara-cli/src/import_nginx.rs:129-187 | where locations stand in servers, the stack machine computes the block-by-block meaning and leaves the blocks around alone |
| NginxBlocks.BracesMatchIff | crates/dwara-cli/src/import_nginx.rs:150-187 | from every stack, the empty one included, each opening brace pushes and each closing brace closes its own block if and only if every location stands directly in a server |
| NginxBlocks.TextBracesMatchIff | crates/dwara-cli/src/import_nginx.rs:105-285 | so it is for whole texts, which then parse to the meaning of their blocks, warnings included |
| NginxNesting.NestedMeaning | crates/dwara-cli/src/import_nginx.rs:177-183 | a server with a nested location and a later one means two locations |
| NginxNesting.NestedLocationLosesALaterOne | crates/dwara-cli/src/import_nginx.rs:150-183 | of every text that says this the parser keeps only the first location, for all paths |
| NginxNesting.NestedTextExists | crates/dwara-cli/src/import_nginx.rs:105-123 | such texts exist for all printable paths and in every layout |
| NginxWarnings.WarningsPointAtDirectives | crates/dwara-cli/src/import_nginx.rs:214-278 | every warning of every parsed text names a line that has a simple directive of the warning's name |
| NginxWarnings.ServerRoles | crates/dwara-cli/src/import_nginx.rs:204-234 | which directives of a server block are warned of with which advice |
| NginxWarnings.LocationRoles | crates/dwara-cli/src/import_nginx.rs:235-279 | and which of a location block |
| NginxWarnings.ServerWarnings | crates/dwara-cli/src/import_nginx.rs:214-233 | no warning is missing: a server block has exactly those of the directives directly in it, in order and with their lines, however blocks nest in it |
| NginxWarnings.LocationWarnings | crates/dwara-cli/src/import_nginx.rs:239-278 | and so has a location block |
| NginxLayout.LineReads | crates/dwara-cli/src/import_nginx.rs:109-131 | indentation, white space of any kind and a comment around a statement do not change what is read |
| NginxLayout.TextReads | crates/dwara-cli/src/import_nginx.rs:109-123 | any statements in any layout, with blank and comment lines between, are read back in order |
| NginxLayout.QuotedArgumentReads | crates/dwara-cli/src/import_nginx.rs:116-193 | an argument in single or double quotes is read whole, whatever comment signs, semicolons, braces or other quotes it holds |
| NginxRoundTrip.LocationOpened | crates/dwara-cli/src/import_nginx.rs:309-322 | the modifier and the path of a printed location are recovered |
| NginxRoundTrip.AnyModifierSplits | crates/dwara-cli/src/import_nginx.rs:309-322 | modifier and path are told apart with white space between or without, the path missing too |
| NginxRoundTrip.ListenPortParses | crates/dwara-cli/src/import_nginx.rs:298-306 | every printed port is recovered |
| NginxRoundTrip.ListenAddressParses | crates/dwara-cli/src/import_nginx.rs:298-306 | so is a port after an address and before other parameters |
| NginxRoundTrip.ParseOfPrint | crates/dwara-cli/src/import_nginx.rs:105-285 | in whatever layout a configuration is printed, it is parsed to itself but for merged upstreams, in order and without warnings |
| NginxRoundTrip.MergedIff | crates/dwara-cli/src/import_nginx.rs:196-201 | merging changes nothing if and only if no upstream with servers repeats an earlier name |
| NginxRoundTrip.ParsePrintRoundTrip | crates/dwara-cli/src/import_nginx.rs:105-285 | hence parsing gives a printed configuration back if and only if no upstream with servers is shadowed |

## Left out

- Compilation, validation and routing in the core crate: documents are abstract, and whether one loads and compiles, and its content hash, are parameters.
- Generation numbers, If-Match preconditions, the convergence coordinator of the enterprise build and the shutdown of the driver.
- A watcher that misses a rename, and a document whose dry run succeeds but whose publication fails: both are taken not to happen.
- PublicationTasks.Shared.PatchConfig: waiting for the patch lock is not modelled; the method starts when the lock is free.
- Sockets, TLS, name resolution and request formatting: a stream is a byte sequence delivered in fragments, and every failing read reads as the deadline passing.
- ResponseReader.ReadResponse: where a chunk-size line ends beyond the buffer cap the answer is a cap error or the stream's answer; for heads it is proved exactly when fragments decide, for size lines only that they cannot within reach.
- The status line and header grammar of a response head: the parser from head bytes to status, content length and chunked flag is an arbitrary function.
- White space beyond ASCII around a chunk size, and the repair of invalid UTF-8 in size lines and query parameters: text is bytes there.
- The HTTP-date form of Retry-After, which the code does not read either, and the order of log lines.
- ExportRetry.SendWithRetry: it does not bound how late a sleep may end, because the platform does not.
- The relaxed memory order of the pacer: loads, additions and swaps are atomic interleaved steps.
- Floating-point rounding in pacing and percentiles: rates and fractions are exact rationals; not-a-number fractions are left out.
- Wrap-around of the 64-bit sample and permit counters and of the 32-bit suffix counter of route names.
- Histograms.Histogram.Percentile: the in-place unstable sort is a call to a sorting function, whose result is proved ascending and a permutation.
- The bounded wait for a stopped listener's task, and the supervision of listener tasks: a task is a number.
- ListenerManager.Manager.SpawnListener: address syntax, port sharing and certificate loading are one oracle of which bind attempts succeed; an https listener without a TLS block, which validation rejects, is taken to terminate.
- Mock actions, examples and the constant fields of imported routes, consumers and plugin warnings of Kong files.
- OpenApiImport.DeriveRouteName: the set of used names is passed in and out instead of being updated through a reference.
- The second stage of the NGINX importer (endpoints, gateway routes), and the Envoy, HAProxy and Traefik importers, whose references need not be closed.
- NginxRoundTrip.ParsePrintRoundTrip: printed tokens hold no quotes and no comment signs, and a printed argument does not end in a semicolon; quoted arguments are read line by line by another result.
- Carriage returns before line ends are trimmed as white space instead of being removed with the line end, which comes to the same.
- The NGINX warning texts: a warning is its line, its directive and the advice given.
