# A verified model of the Yurei ingestion pipeline

Yurei reads Solana program logs from two sources, a WebSocket subscription and an HTTP poller,
decodes them into events, and passes the events through a bounded blocking queue to one thread that
inserts them into PostgreSQL. This project models the logic of that program in Dafny and proves what
its parts promise.

* `RingBuffer` is the ring of `event_queue.c`, as a value and as a class over an array with a ghost
  sequence. `QueueMonitor` is the whole queue as a labelled transition system for any number of
  threads: the mutex, the two condition variables, spurious wakeups, signals, broadcasts and the close.
  `QueueProgress` bounds its runs.
* `Pipeline` runs that queue with the four threads of the program (main, WebSocket client, poller,
  writer) and the start and shutdown order of `main.c`. `StartMode` says which producers run,
  `Producers` what they push and `WriterRuns` what the writer makes of it. `Shutdown` gives a measure that bounds every
  run, `DatabaseDown` says what becomes of the shutdown without the database, `Abandoned` which events
  it leaves behind, and `Draining` that a running program can always empty the queue.
* `RateLimiter` is the token bucket in exact integers: levels in billionths of a token, times in
  nanoseconds, so that a nanosecond brings `rps` units. `RateLimiterTraces` says what it grants over
  whole runs.
* `Metrics` treats every atomic operation of `metrics.c` as one step of any number of threads, with
  weak compare-and-swap and concurrent readers; `AverageReads` says when a reader's average can be
  trusted.
* `Base64` is the streaming decoder of `parser.c` with its unmasked accumulator; `LogParser` is the
  walk over the JSON tree (`JsonTree`), and `HttpPoller` the poll loop around it. `Reports` builds the
  messages that the walk is meant for from their parts and says, without a tree, which events they hold.
* `Config` is the loader of `config.c`; `ConfigRoundTrip`, `ConfigNewlines` and `ConfigComments` say
  what can be written and read back, and `ConfigValues` what the text of a setting comes to.
* `Endpoint` is the URL parser of `websocket_client.c`. `Text` and `Decimal` hold the C library's
  string searches and number readers, `EventTypes`, `Arithmetic` and `Lists` what several modules
  share.

Code that changes things in place is a class or an array method here (`EventQueue`, `Limiter`,
`Recorder`, `ParserContext`, `Poller`, `Configuration`, `WsEndpoint`, `Base64.DecodeInto`); each is
tied to a function whose properties the lemmas state. Interleavings are step relations.

Check it with `dafny verify dfyconfig.toml`.

## Findings

* **Padded Base64.** `=` is tabled as a zero sextet, so decoding a padded text appends one zero byte
  for every `=`. It gives the data back if and only if their length is a multiple of three
  (`Base64.PaddedRoundTripIff`; `TQ==` gives three bytes instead of one, `Base64.OneByteIsNotGivenBack`),
  and refuses a payload whose extra zero bytes do not fit.
* **Long connection texts.** A `YUREI_PG_CONN` line of more than 511 characters is cut by the line
  reader, and what is loaded is never the text that was written, although the field could hold it. A
  setting on a line by itself is read back if and only if it holds no newline and the line has at most
  511 characters (`ConfigNewlines.RestoredIff`).
* **Long comments.** What a comment line has after its first 511 characters is read as a line of its
  own and can assign (`ConfigComments.CommentCanAssign`). A comment is harmless, whatever follows it, if
  and only if it has at most 511 characters or the rest assigns nothing
  (`ConfigComments.CommentIsHarmlessIff`).
* **Shutdown without the database.** The writer's reconnect loop never looks at the running flag. Once
  the exit has been requested, main can leave without a successful connection attempt if and only if
  the writer is not in that loop (`DatabaseDown.ExitWithoutConnectionIff`); in a reachable state all
  that is left are connection attempts, and main waits as long as they fail
  (`DatabaseDown.ShutdownCanHang`). With a connection it always can leave (`Shutdown.ExitIsReached`).
* **Events left at shutdown.** The writer stops at its own flag, not at the end of the queue. What is
  left is settled the moment main lowers the flag: the contents of the queue, less the oldest event if
  the writer is inside a pop and has not reached the ring. Nothing is lost if and only if that is empty
  (`Abandoned.LostAtExit`); a run that does lose an event is `Abandoned.AnEventCanBeLost`. A push is
  never refused because of the close (`Pipeline.EveryPushIsAccepted`).
* **Averages in flight.** An average read while a request is half recorded can exceed every latency
  there is (`Metrics.AverageCanExceedEveryLatency`). It is bounded by the latencies, whatever these are,
  if and only if the reader has counted every request whose latency is in the sum when it loads the
  sum (`AverageReads.AverageBoundedIff`, with a second case for counts of 2^32 and more); it never falls
  below the smallest one.

## Model

| member | source | states |
|---|---|---|
| RingBuffer.IndexIsRemainder | src/event_queue.c:49 | positions that wrap at most once are remainders by the capacity |
| RingBuffer.PutAppends | src/event_queue.c:48-50 | storing at the tail of a ring that is not full appends to its contents and keeps `tail = (head + size) mod capacity` |
| RingBuffer.DropRemovesOldest | src/event_queue.c:68-70 | taking at the head of a ring that is not empty removes the first of its contents and keeps the ring well formed |
| RingBuffer.CloseKeepsContents | src/event_queue.c:81 | closing loses no event |
| RingBuffer.EmptyRingContents | src/event_queue.c:13-18 | a new ring is open and empty and has the capacity asked for |
| RingBuffer.EventQueue.Init | src/event_queue.c:9-23 | fails exactly for capacity zero; otherwise an open, empty queue of that capacity |
| RingBuffer.EventQueue.Push | src/event_queue.c:36-54 | refused exactly when closed, blocked exactly when open and full, otherwise the event is appended to the contents and nothing else changes |
| RingBuffer.EventQueue.Pop | src/event_queue.c:56-74 | refused exactly when closed and empty, blocked exactly when open and empty, otherwise the oldest event is returned and removed |
| RingBuffer.EventQueue.Close | src/event_queue.c:76-85 | the queue is closed and keeps its contents |
| QueueMonitor.StepKeepsInv | src/event_queue.c:36-85 | every step of every thread keeps the invariant: one mutex holder, a well-formed ring, the wakeup accounting of both condition variables, the close discipline, honest replies |
| QueueMonitor.ReachableInv | src/event_queue.c:36-85 | the invariant holds in every reachable state, for any number of threads and any capacity above zero |
| QueueMonitor.NoLostWakeup | src/event_queue.c:40-52 | while open and unlocked, a sleeping popper implies that every queued event has a woken popper coming for it, a sleeping pusher that every free cell has a woken pusher |
| QueueMonitor.CanMove | src/event_queue.c:36-85 | a thread inside the queue can move unless it sleeps or waits for a mutex that another one holds |
| QueueMonitor.DeadlockFreedom | src/event_queue.c:40-72 | when nothing can move, the mutex is free, all threads are outside or asleep, poppers sleep only on an empty queue and pushers only on a full one, never both, and nobody sleeps on a closed queue |
| QueueMonitor.FirstInFirstOut | src/event_queue.c:48-70 | in every reachable state the pushed events are the popped ones followed by the contents, of which there are at most `capacity` |
| QueueMonitor.ProducerOrder | src/event_queue.c:48-50 | the events of a thread stand in the queue in the order of its accepted pushes |
| QueueMonitor.CloseProtocol | src/event_queue.c:76-85 | over every run from a closed queue: no push is accepted, later pops hand out a prefix of the contents at the close, and after the broadcasts nobody sleeps again |
| QueueMonitor.RepliesAreHonest | src/event_queue.c:44-67 | a pop returns -1 only when the queue is closed and all accepted events have been handed out; a push is refused only by the close |
| QueueMonitor.StepRefines | src/event_queue.c:36-85 | every step is one step of a queue whose operations are atomic, or is invisible to it |
| QueueMonitor.Linearizable | src/event_queue.c:36-74 | every run projects to a run of the atomic queue with the same replies, each operation taking effect between its call and its return |
| QueueProgress.RunsAreBounded | src/event_queue.c:36-85 | for any number of threads, no run is longer than its initial weight and what calls and spurious wakeups add |
| QueueProgress.StepsPerCall | src/event_queue.c:36-85 | from the start, a push or a pop adds at most nine steps, a close four more for each thread, a spurious wakeup three |
| QueueProgress.RestIsReached | src/event_queue.c:36-85 | without new calls and spurious wakeups the threads can come to rest within the weight, in a state where nothing can move |
| Pipeline.StepKeepsInv | src/main.c:103-163 | every step of the four threads keeps the lifetimes, the flags, the calls into the queue and the bookkeeping of events in order |
| Pipeline.ReachableInv | src/main.c:96-167 | all of this holds in every state a run of the program reaches, for every mode and every failure to start |
| Pipeline.OnlyMainCloses | src/main.c:161 | the queue is closed only by a step of main inside its call of close, and is never opened again |
| Pipeline.ProducersEndBeforeClose | src/main.c:154-161 | whenever the queue is closed, both producers have ended or were never started, and neither is inside the queue |
| Pipeline.EveryPushIsAccepted | src/main.c:154-163 | no push of any run is ever refused |
| Pipeline.DestroyIsSafe | src/main.c:161-163 | when main destroys the queue no other thread is alive, none is inside the queue or asleep on it, and the mutex is free |
| Pipeline.Conservation | src/db_writer.c:17-109 | in every reachable state the accepted events are those dealt with, in order, the one in the writer's hand, and the queued ones; one dealt with is skipped exactly when its kind is unknown or the table of its kind is the empty name, and otherwise was inserted into the table of its kind or dropped by a failed insert into it; the inserts are a subsequence of the pushes |
| WriterRuns.RunSettles | src/db_writer.c:17-66 | over every run the writer's record grows by exactly one entry for each event it had in its hand: skipped without a table, else inserted into or dropped for the table of its kind, as the database answers |
| WriterRuns.ReconnectsIffDropped | src/db_writer.c:100-104 | the connection is given up exactly after an insert that failed |
| WriterRuns.NothingWithoutConnection | src/db_writer.c:68-104 | from the reconnect loop, as long as no attempt succeeds, nothing is taken from the queue and nothing recorded |
| Producers.StepAccounts | src/parser.c:136-163 | every step keeps the account of a producer: what it pushed, the event whose push is under way and what it has still to offer grow exactly by the message it takes |
| Producers.MessagesArePushed | src/parser.c:136-163 | in every run the events of all messages a producer has taken are those it pushed, then the one whose push is under way, then the rest of its message |
| Producers.FinishedHasPushedAll | src/parser.c:136-163 | a producer that has finished has pushed every event of every message it took, in order, and nothing else |
| StartMode.ProducersOfMode | src/main.c:111-131 | in main's loop the WebSocket client runs only if the mode asks for it, and the poller is in use exactly if the mode asks for it or that client could not be started |
| Pipeline.AbandonedAtExit | src/db_writer.c:95-109 | after the exit, the accepted events are those the writer dealt with followed by those left in the queue |
| Abandoned.StepKeepsLeft | src/db_writer.c:95-98 | once the writer's flag is down, no step changes which events will be left |
| Abandoned.WhatIsLeft | src/db_writer.c:95-109 | however the run goes on, the exit finds just these events in the queue, and all other accepted events have been dealt with |
| Abandoned.NothingIsLeftIff | src/db_writer.c:95-109 | nothing is lost if and only if at that moment the queue is empty, or holds one event that the writer, inside a pop, has not reached yet |
| Abandoned.LostAtExit | src/main.c:161-163 | every run that ends passes the moment at which main lowers the flag, and the state right after it decides what is lost |
| Abandoned.LostFromStart | src/main.c:96-167 | for every run of the program from its start to its exit: the writer could not be started and nothing was ever pushed, or the state right after the fall of the flag decides what is lost |
| Abandoned.AnEventCanBeLost | src/main.c:148-167 | a run of the program from its start that ends with an accepted event still in the queue |
| Shutdown.WeightFalls | src/main.c:148-163 | every step lowers the weight of the state, up to what the environment adds with that step |
| Shutdown.RunsAreBounded | src/main.c:148-163 | no run is longer than its initial weight plus what arrives from outside: messages taken while a flag is up, failed connection attempts, spurious wakeups |
| Shutdown.ShutdownNeverStuck | src/main.c:148-163 | once the exit flag is up and until main has left, some thread can take a free step, if connection attempts succeed |
| Shutdown.ExitIsReached | src/main.c:148-167 | from every such state main can leave within as many free steps as the weight, if connection attempts succeed |
| Shutdown.StoppedRunsHaveExited | src/main.c:148-167 | once the exit is requested, a run that no free step, a successful connection included, can continue has reached the end of main |
| Shutdown.PriceOfStopping | src/db_writer.c:68-88 | once both producers are told to stop, only failed connections and spurious wakeups cost anything |
| Shutdown.ShutdownIsBounded | src/main.c:148-167 | from there every run has at most as many steps as the weight, the failed connections and three for each spurious wakeup, and if no free step, a successful connection included, can continue it, main has left |
| DatabaseDown.ConnectingForEver | src/db_writer.c:68-88 | from the reconnect loop, every run in which no attempt succeeds stays in it, and main does not leave |
| DatabaseDown.ExitWithoutConnection | src/main.c:148-167 | if the writer is not in the loop, main can leave without any connection attempt that succeeds |
| DatabaseDown.ExitWithoutConnectionIff | src/db_writer.c:72-87 | once the exit is requested, main can leave without one if and only if the writer is not in the loop |
| DatabaseDown.StuckInTheLoop | src/db_writer.c:68-88 | once the exit is requested, a run that only a successful connection could continue has reached the end of main or the loop |
| DatabaseDown.ShutdownCanHang | src/db_writer.c:90-92 | a reachable state with the exit requested and the queue closed in which only connection attempts are left, and main never leaves while they fail |
| Draining.DrainIsReached | src/db_writer.c:95-105 | before the exit request, some run of at most the weight, in which connection attempts succeed, empties the queue and deals with every accepted event |
| RateLimiter.IncomeIsProduct | src/rate_limiter.c:45 | the refill over a time is the rate times the time |
| RateLimiter.RefillComposes | src/rate_limiter.c:38-53 | a refill in two parts is one refill, cap included |
| RateLimiter.EachSleepHelps | src/rate_limiter.c:63-87 | after each sleep of a waiter, however late it wakes, a token is there or its patience has fallen |
| RateLimiter.PatienceIsSmall | src/rate_limiter.c:72-84 | the patience of a refused waiter is between 1 and 11 |
| RateLimiter.BurstIsGranted | src/rate_limiter.c:18-20 | at one request per second two attempts at time 0 are granted, and a nanosecond later the bucket holds a single unit |
| RateLimiter.ElevenIsReached | src/rate_limiter.c:72-84 | a caller that finds this bucket and is never woken late sleeps eleven times, because of the truncation to microseconds |
| RateLimiter.Limiter.constructor | src/rate_limiter.c:10-29 | starts with a full burst of twice the rate |
| RateLimiter.Limiter.RefillTokens | src/rate_limiter.c:38-53 | refills by the elapsed time, capped |
| RateLimiter.Limiter.TryAcquire | src/rate_limiter.c:90-107 | is one attempt on the bucket; a rate of zero always grants |
| RateLimiter.Limiter.Wait | src/rate_limiter.c:55-88 | at every clock reading but the last the bucket had no token, and the next reading is the requested sleep later: a whole number of microseconds, at least 1 ms, that brings the missing part of the token up to a microsecond's rounding; so the token is granted less than 1 ms and the last lateness after it is there, after at most 11 sleeps, and the bucket is left as one granted attempt at the last reading leaves it; a rate of zero returns at once and changes nothing |
| RateLimiter.FitsIsExact | src/rate_limiter.c:72-84 | what is said of the length of a sleep determines it |
| RateLimiter.SleepFits | src/rate_limiter.c:72-84 | the sleep that the code computes has that length |
| RateLimiter.NapIsTight | src/rate_limiter.c:72-84 | a sleep of more than 1 ms, had it been 1 ms shorter, would have ended before the token was there |
| RateLimiterTraces.LevelIsTheTightestWindow | src/rate_limiter.c:38-53 | refilled at any time, the level is the minimum over all windows ending then of twice the rate plus the refill minus the grants, or the cap |
| RateLimiterTraces.RefusedIffOverBound | src/rate_limiter.c:96-106 | an attempt is refused if and only if granting it would push some window over twice the rate plus the rate times its length |
| RateLimiterTraces.AnswersWithinBound | src/rate_limiter.c:18-20 | no window of any run is granted more than that |
| RateLimiterTraces.GreedyIsOptimal | src/rate_limiter.c:96-106 | no other way of answering that respects the bound has granted more at any point of any run |
| RateLimiterTraces.TokensAreConserved | src/rate_limiter.c:38-107 | grants plus level plus what the cap threw away equal the initial burst plus the refill of the elapsed time |
| RateLimiterTraces.SomebodyIsServed | src/rate_limiter.c:63-87 | whoever competes, a span in which a whole token comes in and at whose end somebody asks sees a grant |
| RateLimiterTraces.RefusalsAreInvisible | src/rate_limiter.c:90-107 | taking any refused attempts out of a run changes no other answer and no later level |
| Metrics.RunKeepsInv | src/metrics.c:20-50 | every interleaving keeps the counters and the extremes consistent, the minimum never rises and the maximum never falls |
| Metrics.ExtremesAreSound | src/metrics.c:36-49 | a request past its loops lies between the extremes, and the extremes are started latencies or the initial values |
| Metrics.ExtremesAreExact | src/metrics.c:17-49 | when all requests are done the extremes are the true ones |
| Metrics.RetryMeansProgress | src/metrics.c:38-49 | an exchange that fails without being spurious has seen the extreme move |
| Metrics.QuiescentCounters | src/metrics.c:25-34 | when all are done and nothing overflowed, total and count are the number of requests, success and failed those that succeeded and failed, the sum that of the latencies, and the average lies between the extremes |
| Metrics.AverageReadMidFlight | src/metrics.c:73-82 | an average read at any moment is 0 from a count of zero, and otherwise at least the smallest started latency |
| Metrics.AverageCanExceedEveryLatency | src/metrics.c:33-81 | there is a reachable state in which a reader has an average above every latency |
| AverageReads.CoveredAverage | src/metrics.c:77-81 | a reader that has counted every request whose latency is in the sum answers within every upper bound of the latencies |
| AverageReads.TwinIsReachable | src/metrics.c:20-50 | every reachable state can be reached with any other latencies, as far as sum and count go |
| AverageReads.UncoveredAverage | src/metrics.c:77-81 | if the reader has missed one, and the least sum that can mislead it fits 64 bits, requests that have got just as far, with other latencies, make its answer exceed all of them |
| AverageReads.TooLargeToMislead | src/metrics.c:77-81 | if that sum does not fit, the answer is within every upper bound of the latencies after all |
| AverageReads.AverageBoundedIff | src/metrics.c:77-81 | the answer is bounded by the latencies, whatever these are, if and only if the count covers all requests in the sum or no sum that fits could mislead |
| AverageReads.SmallCountsAreExact | src/metrics.c:77-81 | for counts below 2^32 the condition is that the count covers all requests in the sum |
| Metrics.AloneRecords | src/metrics.c:20-50 | the steps of a request that nothing interrupts add up to the sequential record |
| Metrics.Recorder.Request | src/metrics.c:20-50 | records one request: the counters, the sum modulo 2^64 and both extremes, through any bounded number of spurious failures |
| Base64.InitTable | src/parser.c:49-63 | the table maps each alphabet character to its sextet, `=` to zero and all others to -1 |
| Base64.DecodeInto | src/parser.c:65-94 | the streaming decoder, with a 32-bit accumulator that is never masked, writes exactly the bytes of the block decoder and fails exactly when that one does |
| Base64.BlocksLength | src/parser.c:82-90 | n sextets give three quarters of n bytes, rounded down, and no more bytes than their bits fill |
| Base64.BlocksAreDigits | src/parser.c:82-90 | byte i of block decoding is the base-256 digit of the whole sextet string read as one number |
| Base64.WrapKeepsByte | src/parser.c:82-88 | the bits that are taken lie in the part that wrapping to 32 bits keeps |
| Base64.DecodeFailsIff | src/parser.c:85-87 | decoding fails if and only if three quarters of the symbols before the first invalid character exceed 4096 bytes |
| Base64.SextetsThrough | src/parser.c:74-81 | whitespace is skipped and an invalid character ends the data |
| Base64.RoundTrip | src/parser.c:65-94 | every byte string within the limit is given back from its unpadded encoding, with whitespace anywhere and any invalid tail |
| Base64.PaddedDecode | src/parser.c:61-94 | a padded encoding decodes to the data and one zero byte per `=`, or is refused when they do not fit |
| Base64.PaddedRoundTripIff | src/parser.c:61-94 | the padded encoding round-trips if and only if the length is a multiple of three |
| Base64.PlainRoundTrip | src/parser.c:65-94 | decoding the encoding of a byte string gives it back; decoding its padded encoding does if and only if its length is a multiple of three |
| Base64.OneByteIsNotGivenBack | src/parser.c:61-94 | the padded encoding of a single byte decodes to that byte and two zero bytes |
| Base64.OneByteEncoded | src/parser.c:56-61 | the byte 77 is encoded as `TQ==` |
| LogParser.DeliveryIsPrefix | src/parser.c:136-145 | pushing a list of events delivers exactly the prefix before the close, and the count and the highest slot are those of that prefix |
| LogParser.MaxSlotIsMax | src/parser.c:140-142 | the slot kept is the maximum of the incoming slot and the slots pushed |
| LogParser.FindPayload | src/parser.c:106-116 | the payload of a line is what follows the first marker and its whitespace, if anything does |
| LogParser.ParserContext.EnqueueEvent | src/parser.c:96-146 | a line pushes its event, if it has a marker, a payload and decodable data |
| LogParser.ParserContext.ProcessLogsArray | src/parser.c:148-164 | the strings of a log array are delivered in order; other items are skipped |
| LogParser.ParserContext.ProcessValueObject | src/parser.c:166-188 | an object's lines are delivered with its own slot, else the fallback |
| LogParser.ParserContext.ProcessResultObject | src/parser.c:190-213 | a result object delivers the lines of its value, or of all its entries, with the innermost slot |
| LogParser.HandleMessage | src/parser.c:215-259 | for every tree, a prefix of the decodable lines in document order, cut only by the close, is pushed; the result is its length and the slot the maximum; for every message built from its parts the i-th event is that of the i-th data line, with the slot of its value, else of the context, else 0 |
| LogParser.BuiltMessage | src/parser.c:96-259 | the walk finds in every such message (an answer with one value or a list, with or without context; a list of values; a notification) exactly the events of its data lines |
| Reports.OneEventPerLine | src/parser.c:96-146 | what is said of the event of a line determines it: slot, signature, program, data, and the kind by the configured program, in any case of letters |
| JsonTree.LookupFirst | src/parser.c:166-188 | of several members of the same name a lookup finds the first |
| HttpPoller.Poller.Receive | src/http_poller.c:137-153 | the guard on `processed` loses no slot: what the poller keeps is what the delivery makes of the answer |
| HttpPoller.Poller.Turn | src/http_poller.c:127-160 | one turn delivers the events, records the request and counts events and bytes |
| HttpPoller.Poller.Run | src/http_poller.c:87-164 | the loop is the succession of its turns |
| HttpPoller.RunDelivers | src/http_poller.c:87-164 | over any responses the poller delivers what they offer, one after the other |
| HttpPoller.RunCounts | src/http_poller.c:141-149 | events_processed grows by exactly the number of pushed events |
| HttpPoller.FetchAddAllIsSum | src/metrics.c:59-64 | counting n events one at a time adds n to the counter modulo 2^64 |
| HttpPoller.RunRecords | src/http_poller.c:133-159 | modulo 2^64 the total and the count grow by the number of requests, the successes by the answers, the failures by the rest, the sum by the latencies |
| HttpPoller.RunBytes | src/http_poller.c:134 | bytes_received grows by the lengths of the answers, modulo 2^64 |
| HttpPoller.RunFindsExtremes | src/http_poller.c:127-159 | the minimum and the maximum are those of the recorded latencies and the initial values |
| HttpPoller.RunAverage | src/metrics.c:73-82 | between requests, from fresh counters and without overflow, sum divided by count lies between the extremes |
| HttpPoller.SlotIsHighestPushed | src/http_poller.c:151-153 | after the turns for any responses `last_slot` is the maximum slot the poller has pushed, 0 if none |
| HttpPoller.SlotNeverFalls | src/http_poller.c:151-153 | from any turn to any later one `last_slot` does not fall |
| Decimal.StrtoulShow | src/config.c:92-112 | a printed 64-bit number is read back |
| Decimal.StrtoulIff | src/config.c:92-112 | a text is accepted as a number if and only if it is blanks, an optional sign and digits, and then reads as their value, 2^64 minus it after a minus sign, and the largest number when it does not fit |
| Decimal.AtoiMeans | src/websocket_client.c:71 | the port is the signed number that the text starts with, clamped to 64 bits, of which an int keeps the low 32 |
| Decimal.AtoiOfNoNumber | src/websocket_client.c:71 | a text that does not start with a number gives port 0 |
| Decimal.AtoiStopsAtSlash | src/websocket_client.c:71 | reading the port does not run into the path |
| Config.Trim | src/config.c:71-90 | the two loops compute the trimmed text, cut to the buffer |
| ConfigRoundTrip.TrimmedIs | src/config.c:71-90 | trimming gives the one text without outer whitespace that the input holds between whitespace |
| Config.NamesOneField | src/config.c:121-157 | no key names two fields, in any case of letters |
| Config.FindField | src/config.c:121-157 | the chain of comparisons finds the field of a key, if there is one |
| Config.Configuration.constructor | src/config.c:42-69 | all defaults |
| Config.Configuration.ApplyKeyValue | src/config.c:114-159 | changes the field that the key names, if the value is valid for it, and no other |
| Config.Configuration.LoadEnvFile | src/config.c:192-220 | the fields become what the assignments of the file's lines make of them, in order |
| Config.Configuration.ApplyEnvironmentOverrides | src/config.c:161-190 | the non-empty variables are applied in table order |
| Config.Load | src/config.c:244-256 | each field is its last valid assignment in defaults, then file lines, then environment |
| Config.LastValidDecides | src/config.c:114-159 | an assignment that is valid for a field, and is followed by none that is, decides it |
| Config.FieldsHold | src/config.c:92-159 | no assignment makes a field outgrow its buffer or its integer type |
| ConfigRoundTrip.RenderThenLoad | src/config.c:192-220 | settings without newlines rendered as KEY="value" lines of at most 511 characters, in any order, are read back exactly, and the other fields stay |
| ConfigNewlines.FileIsNewlineless | src/config.c:204-215 | no value that a file assigns holds a newline |
| ConfigComments.LineThenRest | src/config.c:204-217 | a line of any length has no influence on how the lines after it are read |
| ConfigComments.CommentAssigns | src/config.c:204-208 | a comment of at most 511 characters is skipped; of a longer one the rest is read as a line |
| ConfigComments.CommentIsHarmlessIff | src/config.c:204-208 | a comment changes nothing, whatever follows it, if and only if it has at most 511 characters or the rest assigns nothing |
| ConfigComments.CommentCanAssign | src/config.c:204-216 | a `#` and any 510 characters in front of a rendered setting do not disable it |
| ConfigNewlines.RestoredIff | src/config.c:202-217 | a setting on a line by itself is read back if and only if it holds no newline and the line has at most 511 characters |
| ConfigRoundTrip.EnvironmentDecides | src/config.c:161-190 | a non-empty valid variable beats defaults and file; of the two connection keys YUREI_PG_CONNINFO beats YUREI_PG_CONN |
| ConfigValues.StripQuotesIff | src/config.c:21-40 | a value stands for what is between its quotes, double or single, and for itself when it is not in a pair of them |
| ConfigValues.ThreeWays | src/config.c:21-40 | a text without quotes can be written bare or in either kind of quotes |
| ConfigValues.LineMeans | src/config.c:204-216 | a line without an equals sign assigns nothing; otherwise the key is what stands before the first one and the value what follows it, both trimmed, unless the key starts with `#` |
| ConfigValues.ColorOfLine | src/config.c:154-157 | a YUREI_LOG_COLOR line turns colours on for 1, true and yes in any case of letters, bare or quoted, and off for every other text |
| ConfigValues.ColorOfVariable | src/config.c:154-188 | so does the environment variable |
| ConfigValues.TextOfLine | src/config.c:14-19 | a text field keeps the whole text, or as much as its buffer holds |
| ConfigValues.NumberGiven | src/config.c:92-112 | a number field keeps the number, or its low 32 bits |
| ConfigValues.NumberRefused | src/config.c:92-112 | any other text leaves a number field as it was |
| Text.CaseEqIff | src/config.c:121-157 | two texts are equal for the comparison if and only if they have the same characters up to the case of the letters A to Z |
| Text.SpacesAre | src/config.c:76-80 | the characters that trimming removes are the six of isspace |
| ConfigRoundTrip.RoundTrip | src/config.c:192-256 | a rendered file through the whole load restores every rendered field that the environment does not override |
| Endpoint.PrintRead | src/websocket_client.c:39-85 | whatever is read is a legal URL and prints as it was written |
| Endpoint.ReadPrint | src/websocket_client.c:39-85 | every legal URL is read back, even when its path holds a colon or "://" |
| Endpoint.ReadsExactlyTheLegal | src/websocket_client.c:39-85 | a text is readable if and only if it is a legal URL, and it is one in at most one way |
| Endpoint.MeaningOfPrinted | src/websocket_client.c:51-85 | scheme (in any case of letters), host, port (80 or 443 by default) and path ("/" when empty) of a printed URL come back, the path cut at 255 characters |
| Endpoint.WsEndpoint.Parse | src/websocket_client.c:33-87 | returns 0 exactly for the legal URLs, and then the fields say what the URL means |

## Left out

- libwebsockets, libcurl and libpq: connecting, inserting and answering are arbitrary successes and failures; SQL text, `ON CONFLICT` and retry back-off times are not modelled.
- JSON text: the walk starts from a tree in which a lookup returns the first member of that name; slots are naturals, without the conversion from double.
- Floating point in the rate limiter: exact integers stand for the doubles, so rounding is not modelled.
- The C memory model: the plain `running` flags and the exit flag are read and written as atomic steps, and every atomic operation is sequentially consistent.
- A signal of a condition variable wakes exactly one waiter when there is one; waking several is covered by spurious wakeups.
- Base64.DecodeInto: the shift of a full accumulator is undefined in C for a signed int; the model wraps it to 32 bits as compilers do, and proves that the bytes do not depend on it.
- RingBuffer.EventQueue.Init: a failed allocation is not modelled.
- RingBuffer.EventQueue.Push: a single caller's view, where waiting is an outcome; the waiting and the signal are in `QueueMonitor`.
- RingBuffer.EventQueue.Pop: a single caller's view, where waiting is an outcome; the waiting and the signal are in `QueueMonitor`.
- RingBuffer.EventQueue.Close: the broadcasts are in `QueueMonitor`.
- RateLimiter.Limiter.Wait: sleeps last at least as long as asked for and nobody else takes tokens; competing callers are in `RateLimiterTraces.SomebodyIsServed`.
- Metrics.Recorder.Request: the number of spurious failures is bounded by a parameter; the interleaved form has no such bound.
- HttpPoller.Poller.Turn: the rate limiter's wait, the request text and the pause are left out, as in `HttpPoller.Poller.Run`.
- HttpPoller.Poller.Run: time, the pauses and the rate limiter's wait between turns are not part of the loop here; the flag that ends it is the end of the list of responses; the request text is left out.
- LogParser.HandleMessage: the queue is seen from the producer's side, as one that accepts until it is closed.
- Pipeline.DestroyIsSafe: allocation and initialisation failures before the threads start, and a signal that kills the process before its handler is installed, are not modelled.
- Config.Configuration.LoadEnvFile: texts are values without zero bytes; that `trim` works inside the buffers it reads from is not modelled. The log level setting is stored but its effect on logging is left out.
- Endpoint.WsEndpoint.Parse: after a failure only address and path are described, which stay empty.
- Logging and colours, the command line, the signal handler's body, the WebSocket callbacks with their reconnect back-off and subscription text, and the growing of the curl write buffer are not modelled.
- Queue and event sizes are unbounded integers except where the code's width matters (64-bit counters, 32-bit and 64-bit settings, the 32-bit accumulator, the int port).
