# sbs-logger in Dafny

sbs-logger is a pipeline: TCP bytes are framed into SBS messages, parsed, folded into
per-aircraft state and flight sessions, and logged to daily files. This project models its
stateful kernels and proves what they promise for all inputs, all runs and all schedules. Every
kernel has an explicit environment: chunks read, clock values, the outcome of each external call
(done, refused, or done but reported as failed), and the scheduler's choices.

| file | kernel |
|---|---|
| `Wrappers.dfy`, `Types.dfy` | optional values; messages, states and flights |
| `Text.dfy` | Go's `Split`, `Join`, `TrimSpace`, `Atoi` and `%0wd`, with the laws the rest needs |
| `Parser.dfy` | the SBS parser and its inverse |
| `Statistics.dfy`, `Counting.dfy` | the counters and what they conserve |
| `Tracker.dfy`, `Decisions.dfy` | the tracker: one message, every failure, and what decides its outcome |
| `Sessions.dfy`, `History.dfy` | the tracker over whole runs: refinement, invariants, folds |
| `Faults.dfy`, `EndedRows.dfy` | exactly which failures put the tracker's views out of step, and which let an ended row change |
| `Peaks.dfy` | when a row holds its session's true maxima |
| `KeyStore.dfy`, `TrackerStore.dfy` | one key space behaving as three maps, and the tracker over it |
| `Ingestor.dfy` | framing under any cutting of the stream |
| `Capture.dfy` | N workers, Stop and a bounded channel, interleaved |
| `Workers.dfy` | the loops behind that machine, proved to do exactly what it does |
| `Logger.dfy` | writers and log rotation, interleaved, and the rotation code itself |
| `Rotation.dfy` | how rotation loses messages, and exactly when |
| `Storage.dfy` | newline framing and path containment |
| `Migrations.dfy` | the migration runner under failing transactions |

Check it with `dafny verify dfyconfig.toml`.

Code that changes things step by step is written as methods on classes, each proved to bring about
what a specification function says; the theorems are about those functions. The goroutines of
the capture and the logger are machines of atomic steps (`Next`, `Enabled`, `Run`), since their
interleavings are the point; the loops of the capture and the methods of the logger are written out
as well and proved to do exactly what those machines do.

Where the repository's documentation or comments and its code disagree, the code is followed:

- Archives are named `.gz` and documented as compressed; the logger copies the bytes unchanged.
- A missing Redis flight is compared with nil by the tracker, but the concrete client answers with
  a zero flight. The tracker is modelled for both; `History.ZeroMissNeverOpens` says what follows.
- A validation that is missing counts as invalid (`internal/redis/client.go:141-143`); the tracker
  sees validation as a per-message answer: valid, invalid or unavailable, and
  `TrackerStore.NothingValidNothingRecorded` says what the concrete client makes of it.
- For STA, AIR and ID messages the comment places the hex identifier at index 5; the code reads index 4.
- Maximum altitude and speed are documented for a session; the message that opens it does not count
  towards them, nor what was heard before a restart. `Peaks.RowHoldsSessionPeaksExactly` says when the
  row is right all the same.
- Rotation is documented as daily; it does not check the date again, and two tokens can be issued for
  one midnight. Conservation of the log therefore has a hypothesis: `Rotation.LossReachable` shows the
  loss without it, and `Rotation.SameDayReopenExact` says exactly when such a rotation is harmless.
- The repository's own migrations do not invert on every schema: their Up uses IF NOT EXISTS and their
  Down IF EXISTS, and no Down drops the extension the first Up creates. The recorded names are a prefix
  all the same; for the schema each Down has to take back its Up where the list puts it, and
  `Migrations.RunsKeepPrefixExactly` shows that this much is needed.

## Model

| member | source | states |
|---|---|---|
| `Sessions.TrackerRefinesAircraft` | cmd/tracker/main.go:96-263 | Refinement: for every fault-free run of messages and restarts and every hex identifier, the whole tracker projected onto that aircraft (local flight, Redis flight, cached state, its rows) equals a small automaton (idle, open, idle again on a stale report) run on that aircraft's own signals alone, session ids included |
| `Sessions.NoInterference` | cmd/tracker/main.go:96-263 | Two fault-free runs that bring one aircraft the same signals leave it the same, whatever else they contain |
| `Sessions.ViewsAgree` | cmd/tracker/main.go:68-260 | At every point of every fault-free run the keys of the active flights, the Redis flights and the open rows coincide with equal session ids, no aircraft has two open rows, and every cached state has an active flight |
| `Sessions.RunConsistent` | cmd/tracker/main.go:96-260 | The linking invariant of the four views survives every fault-free run |
| `Sessions.EventConsistent` | cmd/tracker/main.go:125-148 | ... and every single message or restart |
| `Sessions.EventProjects` | cmd/tracker/main.go:96-156 | One event is one automaton step for the aircraft it concerns and nothing for any other |
| `Sessions.StateStepProjects` | cmd/tracker/main.go:125-263 | One accepted state moves exactly its own aircraft, by one automaton step |
| `Sessions.StartConsistentExactly` | cmd/tracker/main.go:68-93 | Whatever was in memory, Start establishes the invariant if and only if no aircraft has two open rows and Redis holds no flight beyond those rows |
| `Sessions.RestartReloads` | cmd/tracker/main.go:68-82 | After a restart exactly the same aircraft are active, each with the record its open row gives |
| `Sessions.LoadedFlights` | cmd/tracker/main.go:75-80 | After loading, Redis holds its former keys and the loaded flights, and agrees with the local map on all of them |
| `Tracker.StateTracker.Start` | cmd/tracker/main.go:68-81 | The loading loop puts each row in the local map and, as far as Redis answers, in Redis; later rows of an aircraft win |
| `Tracker.StateTracker.ProcessMessage` | cmd/tracker/main.go:96-156 | The four views, the outcome and every counter after one message, for every combination of external failures |
| `Tracker.StateTracker.ProcessState` | cmd/tracker/main.go:115-155 | The same from the parsed state on: skipped, not stored or stored, and the gauges set only when the flight update succeeded |
| `Tracker.StateTracker.RecordState` | cmd/tracker/main.go:125-143 | Cache entry merged or created, Redis and the database given the unmerged message |
| `Tracker.StateTracker.MergeStates` | cmd/tracker/main.go:159-186 | The in-place field updates amount to the merge of the cached entry and the new state, and touch no other entry |
| `Tracker.StateTracker.UpdateFlight` | cmd/tracker/main.go:189-263 | Fetch, fall back, create, update or end: the new views, outcome and counters on every branch, including the local record being written in place only when Redis had nothing |
| `Tracker.StateTracker.CreateSession` | cmd/tracker/main.go:201-222 | The opening message gives identity and start only; the flight is active locally even if both stores fail |
| `Tracker.StateTracker.CloseSession` | cmd/tracker/main.go:235-252 | All local and Redis traces removed before the row is closed, whether or not closing it succeeds |
| `History.CacheIsMergeSince` | cmd/tracker/main.go:125-132 | Over any run, faults included, a cache entry exists exactly when states were accepted for the aircraft since its session last ended, and is their merge: each mergeable field the last non-zero value, ground flag and time the newest, identity and type the first |
| `History.MergeAssociative` | cmd/tracker/main.go:159-186 | Merging is associative |
| `History.MergeInBatches` | cmd/tracker/main.go:159-186 | Merging a stream at once or in batches gives the same entry |
| `History.MergeAllSummarises` | cmd/tracker/main.go:159-186 | Field by field meaning of a merged stream: last non-zero value, newest flag and time, first identity |
| `History.RedisHoldsPeaks` | cmd/tracker/main.go:190-232 | In fault-free runs an open session's Redis record holds the maximum of its starting maxima and every altitude and ground speed heard since it was created or loaded, and the last position; the local copy keeps identity and start and bounds the maxima from below |
| `History.EndedRowHoldsPeaks` | cmd/tracker/main.go:225-252 | The row of a session ended by a stale report takes those peaks, that report included, and its time; all other traces of the aircraft are gone |
| `History.RecordIsFold` | cmd/tracker/main.go:189-263 | The automaton's Redis record is its local record folded over the reports since creation or loading |
| `History.TouchAllPeaks` | cmd/tracker/main.go:225-232 | A fold of updates holds exact least upper bounds (attained, with NaN never above anything) and the last position |
| `History.SessionStartsWithOpener` | cmd/tracker/main.go:201-210 | From idle, a session is open exactly if some report opened it and no stale one ended it since; local copy, Redis and row all carry that report's identity, time and first position, across restarts; row and local copy count no report until the end, so a restart forgets the maxima so far |
| `History.LogHoldsRawStates` | cmd/tracker/main.go:140-143 | Under any faults the database log is the sequence of accepted states as parsed, never merged, whose insertion took effect |
| `History.EndedRowsFrozen` | cmd/tracker/main.go:218-252 | Between any two moments of a fault-free run rows are never lost, keep identity and start, and an ended row never changes again |
| `History.FlightStartsWithOpener` | cmd/tracker/main.go:201-210 | The same of the whole tracker in fault-free runs, local copy, Redis and database row |
| `History.RowsComeFromOpenings` | cmd/tracker/main.go:201-222 | Over any run, faults and restarts included, the rows are those there were and those of the sessions opened, neither more nor less |
| `History.StateOpensExactly` | cmd/tracker/main.go:189-222 | Under any faults a state opens a session if and only if it is stored, the tracker has no flight and Redis gives none: no answer, or a miss answered with nil |
| `History.ZeroMissNeverOpens` | internal/redis/client.go:85-92 | Against a client that answers a miss with a zero flight, as the concrete one does, a message opens a session if and only if its state is accepted and stored, the fetch fails and the tracker has no flight; while every fetch is answered no run adds a row |
| `History.LoadedSettled` | cmd/tracker/main.go:68-82 | Start leaves local and Redis records equal and their row present, which is where the peaks start |
| `Decisions.EndsExactly` | cmd/tracker/main.go:224-260 | A stored state of an aircraft with a flight ends it if and only if the report is more than 5 * 60 * 10^9 nanoseconds old, and updates it otherwise |
| `Decisions.SessionOverExactly` | cmd/tracker/main.go:235-238 | In fault-free runs an active flight is gone after exactly such late reports of its aircraft |
| `Decisions.OutcomeExactly` | cmd/tracker/main.go:115-263 | All outcomes of a parsed state as if-and-only-ifs in the answers of the calls, with a call that took effect but was reported failed counting as failed |
| `Decisions.InsertExactly` | cmd/tracker/main.go:201-222 | An INSERT of a session id that has a row is refused without effect; any other adds the flight's own open row and no other change |
| `Decisions.UpdateExactly` | cmd/tracker/main.go:249-251 | An UPDATE changes callsign, end, last position and maxima of the one row and nothing else |
| `Decisions.GaugesExactly` | cmd/tracker/main.go:149-152 | The gauges are the numbers of cached aircraft and active flights modulo 18446744073709551616 after exactly the messages whose flight update succeeded, and unchanged by the others |
| `Decisions.RedisKeepsRawStates` | cmd/tracker/main.go:134-137 | Over any run, faults included, Redis holds the last saved state of an aircraft as it was parsed, never merged, and none after an ending whose delete took effect |
| `Decisions.LoadedExactly` | cmd/tracker/main.go:68-82 | Whatever the rows and replies, exactly the listed aircraft become active, each with its last listed row |
| `Decisions.LoadedSaves` | cmd/tracker/main.go:75-80 | Redis gets the last listed flight of an aircraft whose save took effect, and keeps the rest |
| `Faults.StateStepConsistentExactly` | cmd/tracker/main.go:115-263 | Exactly which failures of which calls put views that were in step out of step, for every accepted state |
| `Faults.HarmlessRunConsistent` | cmd/tracker/main.go:96-263 | The views stay in step over every run whose failures are of the harmless kinds |
| `EndedRows.AnyFaultsFrozen` | cmd/tracker/main.go:96-263 | Over whole runs with any call failing in any way and any restarts, rows are never lost, keep their identity, and stay exactly as they ended, unless some message before the last closes a row while the flight that names it stays in Redis |
| `EndedRows.RunSafeExactly` | cmd/tracker/main.go:96-263 | For every such run: at no moment can a next message, whatever fails, change an ended row if and only if no message of the run left a flight behind the row it closed |
| `EndedRows.SafeExactly` | cmd/tracker/main.go:189-256 | At any moment: no next message can change an ended row if and only if no record, local or in Redis, names one |
| `EndedRows.StepTidyExactly` | cmd/tracker/main.go:189-256 | Per message, with any failures: every record stays under its own key and off ended and foreign rows if and only if the message leaves no flight behind the row it closes |
| `EndedRows.StepSafeExactly` | cmd/tracker/main.go:235-252 | From views in step the one harmful case is a stale report of an active aircraft whose row is closed while DeleteFlight is refused |
| `EndedRows.LoadedTidy` | cmd/tracker/main.go:75-80 | A restart keeps this with whatever saves failing and however many rows an aircraft has open |
| `EndedRows.RefusedDeleteRewrites` | cmd/tracker/main.go:240-251 | After a refused DeleteFlight the next stale report with another time changes the ended row |
| `Peaks.RowHoldsSessionPeaksExactly` | cmd/tracker/main.go:203-252 | The row of an ended session covers every report of the session if and only if it covers those its record forgot: the opening one always, and all before the last restart |
| `TrackerStore.RunOnFlatStore` | internal/redis/client.go:57-149 | Over every run, faults and restarts included, the flat store stands for the tracker's Redis, Start's writes among those issued, and what the concrete client reads from it is what the tracker is taken to fetch |
| `TrackerStore.AcceptedIfValid` | internal/redis/client.go:138-149 | No run changes who is valid: over the concrete client a message of a run is accepted if and only if it is readable and its aircraft was marked valid before |
| `TrackerStore.NothingValidNothingRecorded` | internal/redis/client.go:138-149 | From a store without a valid aircraft no run records a state or opens or closes a row; nothing in the pipeline marks an aircraft valid |
| `TrackerStore.SkippedUnlessValidated` | internal/redis/client.go:138-149 | One state over the concrete client is skipped if and only if nothing has marked its aircraft valid, and the tracker's own writes never do |
| `Counting.CountersTally` | internal/stats/stats.go:68-118 | Under any faults every counter is the number of messages with its outcome since the process started, modulo 2^64 |
| `Counting.CountersConserve` | cmd/tracker/main.go:96-156 | Total = parsed + failed; parsed = skipped + not stored + stored; stored = created + updated + ended + flight failures; the type counts add up to the parsed messages of types 0 to 9; all modulo 2^64, under any faults |
| `Counting.TypeCountsAddUp` | internal/stats/stats.go:89-93 | The ten slots sum to the messages of types 0 to 9; other types are dropped |
| `Counting.ActiveFlightsBalance` | cmd/tracker/main.go:201-256 | In fault-free runs without restarts, loaded + created - ended is the number of active flights |
| `Counting.Serve` | cmd/tracker/main.go:386-395 | Messages handed over one after another leave views and counters as the run and its tallies say |
| `Parser.ParseInvertsPrint` | internal/parser/parser.go:32-197 | ParseMessage inverts a canonical 23-field printer for every message type: it recovers exactly the fields that type carries and leaves the others blank |
| `Parser.MsgFieldsExactly` | internal/parser/parser.go:101-197 | For every accepted MSG line, whatever its text: which column each field comes from, which types carry it, and what a column that does not read leaves |
| `Parser.GroundFlagExactly` | internal/parser/parser.go:191-197 | The ground flag of any accepted line is set by the number one in the 23rd column of a type 8 or 9 message and by nothing else |
| `Parser.ShortFieldsExactly` | internal/parser/parser.go:52-73 | STA, AIR and ID lines give types 10, 11 and 12, the fifth and tenth columns, and nothing else |
| `Parser.RejectedExactly` | internal/parser/parser.go:44-85 | Which error a rejected line gets, as if-and-only-ifs |
| `Text.AtoiExactly` | internal/parser/parser.go:81-87 | Exactly which texts are integers, and their value: an optional sign, decimal digits only, at least one, within 64 bits |
| `Text.PaddedExactly` | internal/parser/parser.go:184-187 | The shape of zero-padded text: sign, zeros up to the width and no further, digits without leading zeros |
| `Text.TrimSpaceIs` | internal/parser/parser.go:34 | Trimming cuts exactly the white space at both ends, for every text |
| `Parser.AcceptedExactly` | internal/parser/parser.go:32-98 | A text becomes a state if and only if its prefix, field count and message type allow it; no field value can make a message fail; accepted types lie in 1 to 12 and the timestamp is kept |
| `Parser.ParseMessage` | internal/parser/parser.go:32-98 | The object built step by step has the fields the specification gives, or the error, and exactly one of the two |
| `Parser.ParseMessageFields` | internal/parser/parser.go:101-146 | The writes through the state pointer per message type |
| `Parser.SquawkNormalisation` | internal/parser/parser.go:184-187 | Normalising twice is normalising once, and every four-digit code is a fixed point |
| `Text.AtoiPadded` | internal/parser/parser.go:184-187 | Every 64-bit integer printed at any zero-padded width reads back as itself |
| `Text.DigitsOfValue` | internal/parser/parser.go:184-187 | Decimal text is its own value zero-padded to its own width |
| `Ingestor.ConnectAndIngest` | cmd/ingestor/main.go:93-147 | For every cutting of a byte stream into reads, the publish attempts are the trimmed non-empty pieces of all but the last element of splitting the whole stream, refusals by the broker notwithstanding, and the buffer is that last element |
| `Ingestor.Ingest` | cmd/ingestor/main.go:112-145 | One chunk: all complete lines offered once and in order, the rest kept |
| `Ingestor.PublishAll` | cmd/ingestor/main.go:119-138 | The publishing loop offers the trimmed non-empty pieces before the last |
| `Ingestor.PublishedTrimmed` | cmd/ingestor/main.go:124-126 | Nothing published is empty or begins or ends with white space |
| `Ingestor.ChunkArrives` | cmd/ingestor/main.go:112-145 | Splitting the kept rest plus the new chunk continues splitting the whole stream, also with a line ending cut in two |
| `Ingestor.FramingIsExact` | cmd/ingestor/main.go:112-145 | Pieces and buffer rejoin to the exact stream and neither ever contains a line ending |
| `Ingestor.IngestInvertsFraming` | cmd/ingestor/main.go:112-145 | Messages framed by a sender, each with any white space around it in its line, come out as they went in without that white space and without blank lines, under any cutting, and the buffer ends empty |
| `Text.SplitResumes` | cmd/ingestor/main.go:115-143 | Splitting can be resumed: only the last piece changes when more text arrives |
| `Text.JoinSplit` | cmd/ingestor/main.go:115 | Joining what was split gives the text back |
| `Text.SplitJoin` | internal/parser/parser.go:34 | Splitting what was joined gives the pieces back, for pieces the separator cannot cut |
| `Ingestor.DeliveredExactly` | cmd/ingestor/main.go:131-134 | The broker gets exactly the attempts it accepts, and all of them if it accepts all |
| `Capture.StopIsBounded` | internal/capture/capture.go:97-108 | After Stop closes the stop channel every schedule of N workers, with or without a reader, makes at most 7N + 3 steps of the workers and of Stop |
| `Capture.StepDecreases` | internal/capture/capture.go:97-223 | ... because every such step strictly decreases one measure, and the consumer leaves it alone |
| `Capture.NeverDeadlocked` | internal/capture/capture.go:97-223 | Until Stop has returned some worker or Stop itself can move, even with the buffer full and nobody reading |
| `Capture.StoppedForGood` | internal/capture/capture.go:97-108 | A schedule that cannot go on after Stop has ended well: Stop returned, channel closed, all workers done, all connections closed |
| `Capture.ChannelClosedLast` | internal/capture/capture.go:39-45 | In every reachable state the message channel is closed only after all workers are done, so none is about to send on it |
| `Capture.StopClosesEverything` | internal/capture/capture.go:97-168 | When Stop returns every connection ever dialled is closed, those registered after the sweep and those displaced by a duplicate source included |
| `Capture.NoReadPendingExactly` | internal/capture/capture.go:99-104 | Once Stop has swept the connections no worker is left in a read on an open one, in any schedule, if and only if the sources are distinct |
| `Capture.DisplacedReadWaits` | internal/capture/capture.go:139-141 | For any two equal sources, a run in which the sweep misses the displaced connection while its worker is reading |
| `Capture.RunTracks` | internal/capture/capture.go:139-150 | With distinct sources the map holds each worker's connection exactly from its registration to its removal |
| `Capture.MessagesFaithful` | internal/capture/capture.go:163-221 | The channel's history restricted to one worker is that worker's reads in order across reconnects, with at most the final one missing, and missing only after Stop; received plus buffered is all of it and the buffer keeps to 1000 |
| `Capture.BackoffAfterFirstConnection` | internal/capture/capture.go:48-60 | A failed dial is retried with delay exactly if the worker has been connected before |
| `Capture.RunInvariant` | internal/capture/capture.go:39-223 | The invariants above hold after every step of every interleaving from Start |
| `Capture.NoReadAfterFailure` | internal/capture/capture.go:184-196 | After a failed read or a silence of more than three seconds a worker reads again only once it has dialled again, in every run |
| `Capture.ClosesAndRedials` | internal/capture/capture.go:144-161 | And it comes to that: closing the connection, removing the source and beginning the loop again are each the one thing it can do, with the time of the loss noted |
| `Capture.KeepsConnection` | internal/capture/capture.go:184-221 | Until Stop a worker leaves a connection only by a failed or silent read: other timeouts, messages sent and what others do keep it |
| `Capture.ChunksAreReads` | internal/capture/capture.go:184-212 | What the messages are compared with is what the worker's reads delivered, in order, over every run |
| `Capture.SendsExactly` | internal/capture/capture.go:213-221 | The channel takes a message exactly while it holds fewer than 1000, and a sender gives up exactly after Stop |
| `Workers.Capturer.ConnectToSource` | internal/capture/capture.go:115-161 | In however many rounds of the scheduler it is given, the goroutine does exactly what `Workers.Follow` says, whatever the others and the network do between its steps; it ends before the rounds do only by its deferred wg.Done, and in its first round if Stop came first |
| `Workers.Capturer.Connect` | internal/capture/capture.go:131-158 | One turn of its loop after the select: the failed dial with its delay, or the dialled session |
| `Workers.Capturer.HandleConnection` | internal/capture/capture.go:163-223 | The read loop in any number of rounds, up to the closed connection |
| `Workers.Capturer.ReadOnce` | internal/capture/capture.go:172-221 | Its body: select, read, and the send if there is data |
| `Workers.Capturer.Offer` | internal/capture/capture.go:213-221 | The send waits while the channel is full and Stop has not come, and only then |
| `Workers.Capturer.Register` | internal/capture/capture.go:139-141 | Waits for the mutex while Stop sweeps |
| `Workers.Capturer.Remove` | internal/capture/capture.go:147-154 | Likewise, and notes the time the connection was lost |
| `Workers.Capturer.Stop` | internal/capture/capture.go:97-108 | In however many rounds it is given, Stop does exactly what `Workers.Follow` says; it ends before the rounds do only by returning, with the channel closed |
| `Workers.Capturer.CloseAll` | internal/capture/capture.go:99-105 | The loop over the map under the mutex, in any order, which no other goroutine can change meanwhile |
| `Workers.FollowReachable` | internal/capture/capture.go:97-223 | What `Follow` does stays within the machine: from reachable states only reachable states, whatever the other goroutines do |
| `Workers.ActionsAreChoices` | internal/capture/capture.go:115-223 | And the machine has no action too many: a worker can act exactly as some round has its code act |
| `Workers.StopReturnsClean` | internal/capture/capture.go:97-108 | When Stop's code returns, from any moment of any run, every worker is done, the channel closed and every connection ever dialled closed |
| `Logger.NothingAcknowledgedIsLost` | cmd/logger/main.go:122-230 | If every rotation reopens on a later day than it closed, then at every step of every interleaving of writers and rotation, compression failing at any stage, every acknowledged message stands whole and in order in its day's log or archive |
| `Logger.OneFileOpen` | cmd/logger/main.go:157-196 | At every step of every interleaving at most one file handle is open, and it is the current day's log |
| `Logger.StaleWriteRefused` | cmd/logger/main.go:134-136 | A write through a closed captured handle changes no file and acknowledges nothing; an acknowledged one lands at the end of the current log |
| `Logger.TokensBalance` | cmd/logger/main.go:129-148 | Over every run the tokens sent are those received and the one still waiting: every rotation answers one request |
| `Logger.WriterNeverStuck` | cmd/logger/main.go:129-131 | A writer waiting on the rotation channel holds no lock: it or the rotation goroutine can move if and only if that goroutine lives or the channel is empty |
| `Logger.StuckForGood` | cmd/logger/main.go:142-147 | Otherwise it waits in every run: after the context is cancelled nobody empties the channel |
| `Logger.ClosedForGood` | cmd/logger/main.go:157-178 | Once a rotation ends without an open file, no run ever acknowledges a message or changes a file again |
| `Logger.FailureShuts` | cmd/logger/main.go:162-166 | A Close that reports an error and a reopen that fails are such ends |
| `Logger.StartEstablishes` | cmd/logger/main.go:107-119 | A successful Start establishes what conservation starts from, on any disk where earlier days stand |
| `Logger.Logger.Start` | cmd/logger/main.go:107-119 | The rotation goroutine is started exactly when today's log could be opened |
| `Rotation.TwoTokens` | cmd/logger/main.go:129-178 | From every started logger with a writer at rest, with every call succeeding, a run leads to the new day's log being open with a token left over |
| `Rotation.LossReachable` | cmd/logger/main.go:122-230 | Conservation without its hypothesis is false of every logger with a writer: from every started state, with every call succeeding, some run loses an acknowledged message |
| `Rotation.SameDayReopenExact` | cmd/logger/main.go:157-210 | A rotation that reopens on the day it closed is harmless in all later runs if and only if the log was not removed, or nothing had been acknowledged for the day, or no writer and no token is left to cause another rotation |
| `Rotation.EarlyTokenStrips` | cmd/logger/main.go:129-178 | A leftover token has the new day's log archived and removed with acknowledged messages in it |
| `Rotation.WriterLoses` | cmd/logger/main.go:129-230 | From then on any writer, wherever it is, brings about the rotation that loses them |
| `Rotation.NextRotationLoses` | cmd/logger/main.go:199-230 | That rotation truncates the archive that held them |
| `Logger.ChannelDrains` | cmd/logger/main.go:142-178 | With the channel full and the context alive at most seven moves of the rotation goroutine pass before it receives |
| `Logger.RotatorCanMove` | cmd/logger/main.go:142-178 | Whatever the files do, the rotation goroutine can move unless it waits for a token |
| `Logger.Logger.RotateAndCompress` | cmd/logger/main.go:157-178 | The code run in one go takes the disk and the fields where the machine's steps take them, on every failure path; an error exactly when closing or reopening fails |
| `Logger.Logger.CompressFile` | cmd/logger/main.go:199-230 | Success means the archive holds the whole log and the log is gone; failure leaves the log |
| `Logger.Logger.RotateFile` | cmd/logger/main.go:181-196 | Today's log opened for appending; on failure file and date stay |
| `Logger.Logger.WriteMessage` | cmd/logger/main.go:122-139 | Taking the file, asking for a rotation and writing are the machine's steps; the result is nil exactly for a full write to an open file |
| `Logger.AdvanceIsRun` | cmd/logger/main.go:157-178 | What the rotation code does in one go is a run of the interleaving machine, of at most seven rotation steps |
| `Logger.CompressionIs` | cmd/logger/main.go:199-230 | What compression leaves behind: the log stands unless the archive holds all of it |
| `Logger.ArrivedIs` | cmd/logger/main.go:122-131 | A rotation is asked for exactly when the file taken is not today's, and the write goes to that file all the same |
| `Migrations.RunsKeepPrefix` | internal/db/migrations/migrations.go:67-165 | Over every sequence of Migrate and Rollback calls, failing at begin, exec, record or commit, or with a commit that took effect but was reported failed, the recorded names are a prefix of the list in order, whatever Up and Down do; and the schema is the fold of that prefix's Up steps if each Down takes back its Up where the list puts it |
| `Migrations.RunsKeepPrefixExactly` | internal/db/migrations/migrations.go:67-165 | From an empty database that condition on Down is needed for the schema: every run keeps names and schema if and only if it holds |
| `Migrations.MigrateKeepsPrefix` | internal/db/migrations/migrations.go:112-135 | Migrate never shrinks the prefix, and a reported success means the whole list is applied |
| `Migrations.RollbackKeepsPrefix` | internal/db/migrations/migrations.go:138-165 | Rollback takes back exactly the last recorded name, or nothing; the schema follows if its Down takes back its Up |
| `Migrations.MigrateTwice` | internal/db/migrations/migrations.go:112-135 | After a successful Migrate another changes nothing, from any database, with any list, whatever its transactions would have done, and succeeds exactly when the table can be read |
| `Migrations.MigrateCompletes` | internal/db/migrations/migrations.go:112-135 | From a prefix of distinct names a successful Migrate reaches the whole list |
| `Migrations.RollbacksUndo` | internal/db/migrations/migrations.go:138-165 | n successful rollbacks take back the last n names; as many as were applied reach the base schema, if each Down takes back its Up |
| `Migrations.OlderRollbackExactly` | internal/db/migrations/migrations.go:146-153 | A rollback given only an initial part of the list keeps the prefix if and only if no later migration has been applied |
| `Migrations.MigrateSucceedsExactly` | internal/db/migrations/migrations.go:124-132 | With every call succeeding, Migrate succeeds if and only if the pending migrations have distinct names |
| `Migrations.ExecutedExactly` | internal/db/migrations/migrations.go:67-89 | A transaction is reported done exactly if its commit says so; a lost commit changes the database and is reported as a failure; anything else changes nothing |
| `Migrations.AppliedExactly` | internal/db/migrations/migrations.go:43-64 | The names are read exactly if there is a table and no query, scan or end of rows fails |
| `Migrations.SuccessMeansCommits` | internal/db/migrations/migrations.go:124-132 | A Migrate that succeeds has had every pending transaction committed and reported |
| `Migrations.Migrator.GetAppliedMigrations` | internal/db/migrations/migrations.go:43-64 | The map holds exactly the recorded names, or nothing if the query, a scan or the end of rows fails |
| `Migrations.Migrator.ExecuteMigration` | internal/db/migrations/migrations.go:67-109 | All of the transaction or none of it, and whether it is reported as done |
| `Migrations.Migrator.Migrate` | internal/db/migrations/migrations.go:112-135 | The loop applies the pending migrations in order and stops at the first failure |
| `Migrations.Migrator.Rollback` | internal/db/migrations/migrations.go:138-165 | The downward search finds the last applied migration of the list |
| `Storage.Storage.RotateFile` | internal/storage/storage.go:206-223 | Today's file opened for appending, created empty if missing |
| `Storage.Storage.WriteMessage` | internal/storage/storage.go:59-77 | The open file, every log's content and the result after one message, on every path: opened lazily, refused by the path check or the system, or written with exactly one newline at its end |
| `Storage.Storage.WriteAll` | internal/storage/storage.go:59-77 | Any number of messages one after another |
| `Storage.OpensToday` | internal/storage/storage.go:206-223 | Without an open file it is today's that is opened, or none, and a message reported written ends that one's content |
| `Storage.OpenDayExactly` | internal/storage/storage.go:59-77 | Over any messages the open day is the today of the first call whose opening succeeded, and stays; there is none exactly if every opening failed |
| `Storage.KeepsOpenFile` | internal/storage/storage.go:63-77 | With an open file the write alone decides, and that file grows whatever day it has become |
| `Storage.LogPathExactly` | internal/storage/storage.go:207-208 | A day's log is sbs_<day>.log below the output directory, and no two days share one |
| `Storage.MessagesAccumulate` | internal/storage/storage.go:59-77 | After any sequence of messages, with opening and writing failing anywhere and the date changing, the open day's log is what it held followed by the lines of exactly the messages reported written, and no other log changes |
| `Storage.WrittenReadsBack` | internal/storage/storage.go:59-77 | That log splits on newline into its earlier lines and then exactly those messages without their final newline, and stays empty or newline-terminated |
| `Storage.LogReadsBack` | internal/storage/storage.go:70-76 | The lines of messages that are one line each split back into the messages |
| `Storage.WrittenValid` | internal/storage/storage.go:70-76 | Every file stays empty or newline-terminated |
| `Storage.ValidatePathExact` | internal/storage/storage.go:127-145 | For cleaned absolute paths and any output directory but the root, the string test accepts exactly the paths whose components extend the directory's |
| `Storage.RootAcceptsOnlyRoot` | internal/storage/storage.go:138-142 | With the root as output directory only the root itself is accepted |
| `Storage.FirstWriteExactly` | internal/storage/storage.go:127-145 | So the first write succeeds if and only if the output directory is not the root and the system resolves, opens and writes |
| `Storage.SiblingsOutArchivesIn` | internal/storage/storage.go:166-170 | Siblings sharing a string prefix are rejected, and the archive of any accepted descendant is accepted |
| `KeyStore.FlatStoreRefinesMaps` | internal/redis/client.go:57-149 | After any sequence of operations the flat prefixed store stands for three independent maps, and every read answers from its own map |
| `KeyStore.StoredExactly` | internal/redis/client.go:57-149 | What lies under each prefixed key: the flight, the state, or the text "1" or "0" |
| `KeyStore.KeysApart` | internal/redis/client.go:57-149 | Keys are injective and those of different kinds never coincide, for all identifiers |
| `KeyStore.StepRepresents` | internal/redis/client.go:57-136 | Each store or delete changes one map at one identifier only |

## Left out

- The maps of the tracker hold records, not pointers: where the source writes through a pointer to its own record, the model writes the record back. Sharing between the listing given to Start and the map is not captured.
- Goroutines in the capture: what one goroutine does between two points where others can notice it is one atomic step. Its loops are followed for any number of rounds of the scheduler, since they need not end.
- Goroutines in the logger: a write and a Close do not overlap in time; a write still inside the operating system when Close returns is not modelled.
- Capture.StopIsBounded: dials, sleeps and reads are assumed to return; how long they take is not modelled.
- NATS, Redis, PostgreSQL, TCP and the file system themselves: they are maps and sequences with outcomes supplied by the environment. JSON is value copying; a value that cannot be encoded is a refused store.
- Redis expiry, so a fault-free run assumes nothing expires; processing times and the time of the last message; logging and printing.
- Storage.Storage.WriteMessage: a write reaches the file whole or not at all; partial writes are modelled in the logger only. Reuse of the caller's buffer by `append` is not modelled.
- Rotation and compression in `internal/storage/storage.go`: its compressor writes an empty archive and removes the log, so there is no preservation to prove.
- `filepath.Abs` and cleaning: paths are given by their components, and whether they resolve is an answer of the system.
- Unicode white space in `TrimSpace`: ASCII white space only.
- Floating-point text: an arbitrary pair of a writer and a reader; a round trip assumes it for the values printed. Floats are only compared, never computed with.
- `internal/db/client.go`: a map of rows keyed by session id. Its scan of a NULL `ended_at` into a plain time and its integer clamping are not modelled, so Start is modelled at the interface; neither is Start failing to list the flights.
- The text of the migrations and PostgreSQL's own rules: an Up or Down step is any function on schemas, and Down inverting Up is a hypothesis of what is said about the schema.
- Migrations.RunsKeepPrefix: Rollback is given the whole list; Migrations.OlderRollbackExactly covers shorter ones.
- Keepalive settings, printing of reconnect times, environment parsing, signals, main functions, `internal/config`, statistics persistence.
- Methods that only assign a field or a key, such as the increments of `internal/stats/stats.go`, the per-column helpers of the parser and the store operations of the Redis client, are proved against their functions but have no row: the results about those functions do.
