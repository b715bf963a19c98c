# Verification of the py-qgis-server request path

py-qgis-server routes HTTP requests through a 0MQ balancer to a pool of QGIS worker processes, streams
their answers back in chunks, keeps the workers alive, and gives each worker a two-tier cache of QGIS
projects. QGIS and 0MQ are opaque here. What lies between them is a set of small state machines, and this
project models those machines and proves what they keep over whole runs.

Each module follows one part of the server:

| file | part | form |
|---|---|---|
| `Broker.dfy` | the balancer loop | class `LoadBalancer`, whose state is proved to be the replay of a trace of labels; lemmas over all legal traces |
| `Framing.dfy` | `Response` and `RequestHandler.send` on the worker | two classes, proved against a step function; lemmas over all call sequences |
| `Client.dfy` | the HTTP side: poll task, reply handlers, consumers | two classes, proved against a step function; lemmas over all interleavings |
| `EndToEnd.dfy` | framing and client composed | lemmas only |
| `Network.dfy` | many workers, the balancer and a client composed | lemmas only |
| `Lru.dfy` | the LRU table | class `LruCache`, lemmas over access traces |
| `CacheManager.dfy` | the project cache over a changing store | class `QgsCacheManager`, lemmas over runs of lookups, refreshes and store changes |
| `Observer.dfy` | the server that deduplicates update notices, and all workers together | class `Server`, lemmas over message streams and fleets |
| `Supervisor.dfy` | worker loop, BUSY/DONE client, kill timers | classes `Client` and `Server`, lemmas over event sequences |
| `Pool.dfy` | reaping and repopulating the worker pool | class `Pool` sharing a `ProcessList`, and the loop that sweeps it |
| `Oom.dfy` | killing workers when memory runs short | method `CheckOomStatus` |
| `Wire.dfy` | byte strings, `Option`, `Result` | |

What the environment decides is left open everywhere: whether a send succeeds and which worker a set hands
out are nondeterministic in the balancer, the order of events is any legal one in the client and the
supervisor, and the store behind the cache may change in any way that an assumption does not exclude.

## What holds, and what does not

* A streamed answer reaches its consumer whole, in order and closed, in every interleaving with other
  requests, and the consumer stops on its step for the last message (`EndToEnd.StreamingRoundTrip`). That
  the messages of one request come from one worker and in order is no assumption but follows from the
  balancer (`Network.OneReplyInOrder`, `Network.RoundTrip`), as long as each worker's own messages stay in
  order. Its consumer sees exactly the status and headers that the worker's calls told
  (`Framing.ReplyExact`).
* A request whose consumer has stopped, raised or given up by itself is never kept
  (`Client.EndedIsForgotten`), whatever arrives in the moment between a timeout and its handling. One whose
  consumer was cancelled, or dropped the chunks before their end, is not cleaned up by the client.
  `EndToEnd.KeptIff` says exactly how long it is kept: until the reply is closed, so for a 206 reply until
  its closing message (`EndToEnd.AbandonedIsKept`), and for good if the wait was cancelled before a reply of
  one message came (`EndToEnd.CancelledIsKept`) or before a refusal came (`EndToEnd.KeptRefusedIff`).
* `finish` ends every reply except one: when it is the first call to send and the status was set to 206
  by hand, the header announces chunks that never come, and the client keeps waiting
  (`Framing.FinishCloses` is an equivalence, `Framing.ExplicitPartialStatusNeverCloses` the example). The
  same case is the only one in which the Content-Length that `flush` itself sets on a finishing reply can
  be wrong (`Framing.ContentLengthExact`).
* The balancer does not guarantee one request at a time per worker: an idle worker repeats READY, and
  `Broker.TwoRequestsInFlight` shows two requests sent before any reply. Exactly when this can happen:
  a worker with an unanswered request can be sent another if and only if it sent READY after that request
  was sent to it, and after any later attempt (`Broker.SecondRequestIff`). So it never does to a worker whose
  READYs do not overtake its replies (`Broker.OneAtATimeIf`).
* The cache is transparent if every change of a stored project raises its modified time
  (`CacheManager.Versioned`, an assumption about the store), and an update then reports UPDATED exactly
  when the store has risen since the entry was taken (`CacheManager.UpdatedIffRisen`). Without the
  assumption, the fallback storage handler may report UPDATED without a new read;
  `CacheManager.StorageReportsBackwardTime` says exactly when. A refresh during which the store changes
  leaves each entry at a version that the store held since the refresh began
  (`CacheManager.RefreshWhileChanging`).
* The observer server takes the time of every message into its table, even an older one.
  `Observer.InSyncIffNeverDown` shows that observers stay up to date exactly when times never go down per
  key, and `Observer.FleetToldOnce` that the workers do produce such a stream, whichever of its notices
  their sockets drop. Times are cut to seconds before they are sent, so two changes within one second count
  as one.
* The supervisor kills on what it has heard, and the sending socket drops a message when it would block. A
  lost DONE kills an idle worker (`Supervisor.LostDoneKillsIdle`), or a busy one later on
  (`Supervisor.LostDoneKills`). Exactly when a kill hits a worker that has really been busy for a full
  timeout, whatever messages are dropped, late or repeated (`Supervisor.KillDeservedIff`): if no control
  message told since is unheard, exactly when the BUSY behind the kept handle, which need not be that of the
  timer that fired, is that old; otherwise only by a later BUSY that was not heard itself. What a worker's
  loop tells alternates (`Supervisor.LoopAlternates`), so while none of its messages is lost or on its way
  the kill is deserved, whatever happens to those of other workers (`Supervisor.WorkersAreSafe`).
* Conversely a stalled worker is not overlooked: while its last control message heard is a BUSY and none of
  its timers has fired, its timer is live and due a full timeout after that BUSY, whatever other workers do
  (`Supervisor.StalledIsKilled`, `Supervisor.OthersUntouched`).
* Timers and handles agree all through a run if and only if no BUSY heard in it comes from a worker whose
  handle is still kept (`Supervisor.AgreesThroughoutIff`).

## Model

| member | source | states |
|---|---|---|
| Broker.NoOvertaking | src/pyqgisserver/zeromq/broker.py:115-142 | requests leave the queue, dispatched or dropped, in acceptance order; the queue is the rest, across push-backs |
| Broker.Conservation | src/pyqgisserver/zeromq/broker.py:103-142 | every received request is rejected, waiting, dispatched or dropped, in total exactly as often as it was received, whatever sends fail |
| Broker.AtMostOnce | src/pyqgisserver/zeromq/broker.py:103-142 | a request received once is never dispatched twice nor both dispatched and dropped, and has one fate once it left the queue |
| Broker.Expiry | src/pyqgisserver/zeromq/broker.py:121-132 | with a clock that does not go back, the queue stays sorted by arrival and nothing is dispatched beyond the timeout |
| Broker.DropsAreLate | src/pyqgisserver/zeromq/broker.py:124-128 | on every run, whatever the clock does, a dropped request was older than the timeout |
| Broker.HeadIsDecidedByAge | src/pyqgisserver/zeromq/broker.py:124-142 | with a ready worker the oldest request can be dropped if and only if its age exceeds the timeout, and offered if and only if it does not |
| Broker.NothingMovesUnready | src/pyqgisserver/zeromq/broker.py:121-128 | while no worker is ready nothing leaves the queue, not even what is too old |
| Broker.DropsComeFirst | src/pyqgisserver/zeromq/broker.py:121-135 | a drop after a dispatch belongs to a later dispatch pass: within one pass drops come first |
| Broker.ReadyCredits | src/pyqgisserver/zeromq/broker.py:84-89 | sends to a worker, failed ones included, plus one while it is in the ready set, never exceed the READYs received from it |
| Broker.TwoRequestsInFlight | src/pyqgisserver/zeromq/worker.py:191-202 | a repeated READY can earn a worker a second request before its first reply |
| Broker.ReadySetIs | src/pyqgisserver/zeromq/broker.py:84-142 | on every run a worker is in the ready set if and only if READY came from it after the last attempt to send to it |
| Broker.CanBeSentIff | src/pyqgisserver/zeromq/broker.py:84-142 | at any time, a worker that says nothing more can be sent a further request if and only if READY came from it after the last attempt to send to it |
| Broker.SecondRequestIff | src/pyqgisserver/zeromq/broker.py:84-142 | a worker with an unanswered request can be sent another before it answers if and only if READY came from it after that request was sent to it and after any later attempt to send to it |
| Broker.OneAtATimeIf | src/pyqgisserver/zeromq/broker.py:84-142 | no run in which no READY overtakes a reply sends a worker a second request before its first reply message |
| Broker.QueueBounded | src/pyqgisserver/zeromq/broker.py:108-115 | the queue never exceeds `maxqueue` |
| Broker.RefusedIff | src/pyqgisserver/zeromq/broker.py:108-115 | a request is refused if and only if `maxqueue` of those accepted have not left yet |
| Broker.LoadBalancer.HandleBackend | src/pyqgisserver/zeromq/broker.py:80-100 | a READY marks the worker, a reply is relayed unchanged, a message of the wrong shape does nothing |
| Broker.LoadBalancer.HandleFrontend | src/pyqgisserver/zeromq/broker.py:103-117 | a request is queued with its arrival time, or refused when the queue is full |
| Broker.LoadBalancer.Offer | src/pyqgisserver/zeromq/broker.py:129-142 | a request goes to one worker, or back to the head of the queue when every ready worker failed |
| Broker.LoadBalancer.Dispatch | src/pyqgisserver/zeromq/broker.py:121-142 | the nested loops terminate and stop only without ready worker or without waiting request, all under one clock reading |
| Broker.LoadBalancer.Iterate | src/pyqgisserver/zeromq/broker.py:75-142 | one turn keeps the invariant that no ready worker is left beside a waiting request; a refusal (with `maxqueue` at least 1) means that no worker was ready when the turn began |
| Broker.TurnActsOn | src/pyqgisserver/zeromq/broker.py:80-115 | a turn acts once on each READY, reply and request that it is delivered, contents unchanged, and on nothing else |
| Broker.TurnStamps | src/pyqgisserver/zeromq/broker.py:115-123 | an accepted request carries the first clock reading of its turn, all that leaves the second |
| Broker.LoadBalancer.Serve | src/pyqgisserver/zeromq/broker.py:75-142 | over any sequence of turns the deliveries are acted on once and in order; and if no clock reading is below an earlier one, the trace has the clock that the expiry results assume |
| Framing.RequestHandler.Send | src/pyqgisserver/zeromq/worker.py:87-110 | first message is the header, promoted to 206 when more follows status 200; chunks only at 206; the last chunk ends the stream |
| Framing.Response.SetStatusCode | src/pyqgisserver/qgsworker.py:116-120 | the status is frozen by the header |
| Framing.Response.SetHeader | src/pyqgisserver/qgsworker.py:185-189 | headers are frozen by the header message |
| Framing.Response.SetExtraHeader | src/pyqgisserver/qgsworker.py:110-114 | the header is also kept for a later `clear` |
| Framing.Response.Flush | src/pyqgisserver/qgsworker.py:131-160 | sends and empties the buffer, sets Content-Length when finishing, and pushes the empty end marker |
| Framing.Response.Finish | src/pyqgisserver/qgsworker.py:125-129 | the last flush |
| Framing.Response.SendError | src/pyqgisserver/qgsworker.py:194-204 | one error message, only before the header |
| Framing.Response.Clear | src/pyqgisserver/qgsworker.py:206-223 | drops the buffer and all headers but the extra ones |
| Framing.Response.Crash | src/pyqgisserver/zeromq/worker.py:205-215 | a handler that raised before any answer is answered with status 500 |
| Framing.AlwaysWellFramed | src/pyqgisserver/zeromq/worker.py:87-110 | over every call sequence: one header first, chunks only behind a 206 header, at most one end marker, empty and last |
| Framing.ClosedIsFinal | src/pyqgisserver/qgsworker.py:131-160 | nothing is sent after the end, even if the response is flushed or finished again |
| Framing.FinishCloses | src/pyqgisserver/qgsworker.py:125-160 | `finish` ends the reply if and only if the header was out or the status was not an explicit 206 |
| Framing.ExplicitPartialStatusNeverCloses | src/pyqgisserver/qgsworker.py:116-160 | the failing input: status 206 set by hand, some data, `finish` |
| Framing.CrashCloses | src/pyqgisserver/zeromq/worker.py:205-215 | after a raising handler the reply ends if and only if nothing or everything had been sent |
| Framing.PayloadExact | src/pyqgisserver/qgsworker.py:131-204 | over every call sequence the reply carries exactly the bytes owed: those written and not truncated before each flush while streaming; otherwise those buffered at the first flush, or the error message |
| Framing.ReplyExact | src/pyqgisserver/qgsworker.py:110-223 | over every call sequence the messages sent are exactly those told from the calls: status and headers as left by the calls before the first send (set, extra, removed, cleared back to the extra ones, Content-Length of a finishing answer, the code of an error, 500 of a crash, 206 of a first flush), and one message for each flush behind a 206 header |
| Framing.LateCallsAreIgnored | src/pyqgisserver/qgsworker.py:110-204 | once the header message is out no status, header or error can be set; an extra header is only kept for a later `clear` |
| Framing.StreamIsLossless | src/pyqgisserver/qgsworker.py:125-160 | any writes, flushes and header changes followed by `finish` send every byte, in order, and close |
| Framing.ContentLengthExact | src/pyqgisserver/qgsworker.py:143-145 | the Content-Length set on a finishing reply is the length of its whole body, whatever is called later, if and only if the status is not an explicit 206 |
| Client.ResponseHandler.SetResult | src/pyqgisserver/zeromq/client.py:67-91 | the first message is the header and settles the future; chunks are queued only while more is expected |
| Client.ResponseHandler.SetException | src/pyqgisserver/zeromq/client.py:63-65 | a refusal ends the reply; a settled future raises instead |
| Client.AsyncClient.Fetch | src/pyqgisserver/zeromq/client.py:187-192 | registers the handler and schedules a poll task when none is polling |
| Client.AsyncClient.StartPoll | src/pyqgisserver/zeromq/client.py:142-146 | a started task polls, or leaves at once when nothing is registered |
| Client.AsyncClient.Receive | src/pyqgisserver/zeromq/client.py:146-166 | a message reaches the handler of its id and no other; a done handler is removed; the last one out ends the polling |
| Client.AsyncClient.Wait | src/pyqgisserver/zeromq/client.py:194-199 | `fetch` returns the reply, or raises and forgets the request |
| Client.AsyncClient.WaitTimedOut | src/pyqgisserver/zeromq/client.py:98-106 | the timeout of `fetch` cancels the future unless it is settled; the handler stays registered until the consumer runs |
| Client.AsyncClient.FetchMore | src/pyqgisserver/zeromq/client.py:201-209 | yields a queued chunk, or stops on the message without successor and discards its data |
| Client.AsyncClient.FetchMoreTimedOut | src/pyqgisserver/zeromq/client.py:108-116 | the timeout of `fetch_more` ends its wait; chunks may still be queued until the consumer runs |
| Client.AsyncClient.GiveUp | src/pyqgisserver/zeromq/client.py:104-212 | a consumer resumed by a timeout forgets the request and raises |
| Client.AsyncClient.Abandon | src/pyqgisserver/zeromq/client.py:194-212 | a consumer that is cancelled in `fetch`, or leaves `fetch_more` at a chunk, ends without removing the handler |
| Client.EndedIsForgotten | src/pyqgisserver/zeromq/client.py:142-212 | in every interleaving, whatever messages arrive and whatever times out, no request is kept whose consumer has stopped, raised or given up, unless it was cancelled or dropped the chunks before their end |
| Client.GivesUpIff | src/pyqgisserver/zeromq/client.py:98-116 | in every run a consumer can give up if and only if its wait timed out and it is not gone yet |
| Client.GivingUpForgets | src/pyqgisserver/zeromq/client.py:104-212 | over every run giving up ends the consumer and forgets the request at once, keeps what was read, and changes nothing else |
| Client.TimingOutWaits | src/pyqgisserver/zeromq/client.py:98-116 | over every run a timeout ends the wait only: the request stays known, its future is settled, and giving up is the consumer's next step |
| Client.AbandoningLeaves | src/pyqgisserver/zeromq/client.py:194-212 | over every run an abandoning consumer ends and leaves the request as known as it was |
| Client.WakingUp | src/pyqgisserver/zeromq/client.py:194-199 | over every run a refused `fetch` ends the consumer and forgets the request; any other hands over the first part, and only a 206 reply is read on |
| Client.ReadingOn | src/pyqgisserver/zeromq/client.py:201-209 | over every run `fetch_more` takes the oldest queued chunk, hands it over, or stops at the one without successor and hands over nothing |
| Client.RefusalIs | src/pyqgisserver/zeromq/client.py:63-65 | over every run a refusal stops the reply; it raises and forgets the request if and only if the future was still open |
| Client.FirstPartIs | src/pyqgisserver/zeromq/client.py:73-85 | over every run the first message must be a header and fills in status, headers and body; the request stays if and only if chunks follow or the future was settled before |
| Client.LaterPartIs | src/pyqgisserver/zeromq/client.py:86-96 | over every run a later message must be a chunk and is queued last while more is expected; the one without successor forgets the request |
| Client.PollTasks | src/pyqgisserver/zeromq/client.py:142-192 | over every run a poll task ends exactly when no request is left, and one is created exactly when a request is sent while none is polling |
| Client.NoRequestWithoutReader | src/pyqgisserver/zeromq/client.py:142-199 | in every interleaving the polling flag implies a live poll task, and a registered request implies a live or scheduled one |
| Client.Demultiplexed | src/pyqgisserver/zeromq/client.py:142-166 | the state of a request depends on its own messages and its own consumer only |
| EndToEnd.Delivery | src/pyqgisserver/zeromq/client.py:67-96 | for any well-formed reply in any run: the consumer holds a prefix of its bytes, and has stopped, with every byte, exactly when it has taken one step for each message of a closed reply; once all has arrived the handler is gone if and only if the reply is closed, and the steps it lacks are there to take; it sees the status and the headers of the header message |
| EndToEnd.StreamingRoundTrip | src/pyqgisserver/zeromq/client.py:142-209 | whatever is written by a plain status 200 answer is what the consumer has read when it stops, which it does on its step for the last message and not before, in every interleaving with other requests; the handler is removed; it sees the status and the headers that the calls told |
| EndToEnd.AnyAnswerRoundTrip | src/pyqgisserver/zeromq/client.py:142-209 | the same for every call sequence ended by `finish`; exactly in the explicit 206 case a handler stays behind and the consumer never stops; status and headers are those that the calls told |
| EndToEnd.KeptIff | src/pyqgisserver/zeromq/client.py:142-212 | for any well-formed reply, any timeouts and any abandoning, a request is kept if and only if its consumer did not end by itself and the reply is not closed yet or is a single message that met a cancelled wait |
| EndToEnd.KeptRefusedIff | src/pyqgisserver/zeromq/client.py:142-212 | a request that is refused is kept if and only if its consumer did not end by itself and the refusal has not arrived yet or met a cancelled wait |
| EndToEnd.AbandonedIsKept | src/pyqgisserver/handlers/asynchandler.py:146-156 | the concrete run: a consumer that leaves after the header of a streamed answer |
| EndToEnd.CancelledIsKept | src/pyqgisserver/zeromq/client.py:194-199 | the concrete run: a wait cancelled before a whole answer arrives, which is kept though the answer is closed |
| Network.OneReplyInOrder | src/pyqgisserver/zeromq/broker.py:80-142 | however many workers and requests share the balancer, what goes out under the id of a request is the start of its one reply, in order and from one worker, or the one refusal |
| Network.RoundTrip | src/pyqgisserver/zeromq/broker.py:75-142 | from the calls on the worker, through the balancer, to the consumer: it stops on its last step with exactly the bytes written, status and headers included |
| Network.Refused | src/pyqgisserver/zeromq/broker.py:108-113 | a request that finds the queue full yields no byte; once the refusal has arrived it is forgotten and its consumer raises |
| Network.AttemptsWithinTurns | src/pyqgisserver/zeromq/worker.py:189-202 | the balancer never tries to send a worker more requests than the turns of its own loop |
| Lru.LruCache.Set | src/pyqgisserver/utils/lru.py:57-69 | a set stores the key as newest and evicts only the oldest entries |
| Lru.LruCache.Get | src/pyqgisserver/utils/lru.py:50-55 | a hit becomes the newest; a miss raises and changes nothing |
| Lru.LruCache.Delete | src/pyqgisserver/utils/lru.py:71-74 | removes the key and keeps the order of the others |
| Lru.LruCache.Size | src/pyqgisserver/utils/lru.py:110-124 | refuses a size that is not positive; shrinking evicts the oldest entries |
| Lru.LruCache.Items | src/pyqgisserver/utils/lru.py:86-92 | the entries from most to least recently used |
| Lru.StoreIs | src/pyqgisserver/utils/lru.py:57-69 | the table after a set, in terms of the order before it |
| Lru.TableIsRecency | src/pyqgisserver/utils/lru.py:50-69 | after any trace the table is exactly the `capacity` most recently accessed distinct keys, in order, with the values last set |
| Lru.CachedIff | src/pyqgisserver/utils/lru.py:50-69 | a key is cached if and only if it was accessed and fewer than `capacity` other keys were accessed since |
| Lru.Inclusion | src/pyqgisserver/utils/lru.py:50-69 | on the same trace a smaller cache is contained in a larger one |
| Lru.ShrinkIsSmaller | src/pyqgisserver/utils/lru.py:110-124 | shrinking gives what a smaller cache would hold after the same trace |
| CacheManager.QgsCacheManager.UpdateStaticEntry | src/pyqgisserver/qgscache/cachemanager.py:363-368 | the static tier takes the refreshed details; a failure changes nothing |
| CacheManager.QgsCacheManager.UpdateLruEntry | src/pyqgisserver/qgscache/cachemanager.py:370-395 | the LRU tier takes the details, by way of the static tier when only that knows the key, and observers are told |
| CacheManager.QgsCacheManager.LookupProject | src/pyqgisserver/qgscache/cachemanager.py:397-416 | an unrefreshed hit is returned without reordering, a static hit is copied up, anything else is updated |
| CacheManager.QgsCacheManager.RefreshEverything | src/pyqgisserver/qgscache/cachemanager.py:295-307 | all static entries, then all LRU entries from the oldest, up to the first failure |
| CacheManager.FetchIsDirect | src/pyqgisserver/qgscache/handlers/file_handler.py:82-88 | a project taken through a cached copy is the one a direct read gives, and so is a failure |
| CacheManager.AlwaysSound | src/pyqgisserver/qgscache/cachemanager.py:295-416 | over every run each entry of either tier is a version the store held at its timestamp, no earlier than the last complete refresh |
| CacheManager.Transparent | src/pyqgisserver/qgscache/cachemanager.py:397-416 | over every run a refreshing lookup answers what a direct read answers now, failures included, and a failure changes neither tier |
| CacheManager.BoundedStaleness | src/pyqgisserver/qgscache/cachemanager.py:403-412 | over every run an unrefreshed lookup answers what a direct read would have answered at some moment since the last complete refresh, and what it answers now right after one |
| CacheManager.RefreshedAnswers | src/pyqgisserver/qgscache/cachemanager.py:295-416 | over every run, right after a refresh without failure an unrefreshed lookup answers what a direct read answers now |
| CacheManager.HitChangesNothing | src/pyqgisserver/qgscache/cachemanager.py:403-407 | over every run and any store, an unrefreshed lookup of a resident key reports UNCHANGED and changes nothing, the order included |
| CacheManager.StaticHitCopiesOnce | src/pyqgisserver/qgscache/cachemanager.py:408-412 | over every run and any store, the first unrefreshed lookup of a preloaded key reports UPDATED, reads nothing, tells nobody and makes exactly the static details the newest LRU entry; the next one reports UNCHANGED and changes nothing |
| CacheManager.LookupUpdates | src/pyqgisserver/qgscache/cachemanager.py:370-416 | over every run and any store, any other lookup fails without a trace, or makes the key the newest LRU entry and answers its project; it reports INSERTED if and only if the key was not resident, and brings the static entry along if and only if only that tier knew the key |
| CacheManager.PreloadIs | src/pyqgisserver/qgscache/cachemanager.py:363-368 | over every run and any store, a preload changes one static entry, behind the others if new, and nothing else; it reports INSERTED if and only if the key was new to the tier |
| CacheManager.RefreshSound | src/pyqgisserver/qgscache/cachemanager.py:295-307 | a refresh without store error keeps keys and exact order of both tiers and brings every entry to the store's version |
| CacheManager.RefreshWhileChanging | src/pyqgisserver/qgscache/cachemanager.py:295-307 | over every run, a refresh between whose reads the store changes in any way keeps keys and exact order of both tiers and leaves each entry at a version held since the refresh began |
| CacheManager.UpdateIsTruthful | src/pyqgisserver/qgscache/cachemanager.py:344-395 | INSERTED if and only if the key was new to the LRU tier, UPDATED if and only if a resident project was read again, and one notice exactly for the states other than UNCHANGED |
| CacheManager.UpdatedIffRisen | src/pyqgisserver/qgscache/cachemanager.py:370-395 | over every run and with every handler, an update of a resident key reports UPDATED, reads again and notifies exactly when the store has risen since the entry was taken, and UNCHANGED exactly when the store holds the same version |
| CacheManager.StorageReportsBackwardTime | src/pyqgisserver/qgscache/cachemanager.py:117-134 | with the fallback storage handler UPDATED comes without a read if and only if the store's time went back |
| CacheManager.StorageUpdateWithoutRead | src/pyqgisserver/qgscache/cachemanager.py:117-134 | the concrete case |
| CacheManager.TimestampsNeverDecrease | src/pyqgisserver/qgscache/cachemanager.py:363-416 | over every run no static entry goes back in time, nor an LRU entry while it stays resident |
| CacheManager.StepTells | src/pyqgisserver/qgscache/cachemanager.py:198-214 | every notice sent carries the store's present modified time of its key, cut to the second |
| Observer.Server.Receive | src/pyqgisserver/qgscache/observer.py:146-163 | the table takes every message; the message is passed on or not, as `Told` says |
| Observer.ToldIff | src/pyqgisserver/qgscache/observer.py:151-163 | a message is passed on if and only if it is the first about its key or exceeds the time of the previous message about it |
| Observer.InSyncIffNeverDown | src/pyqgisserver/qgscache/observer.py:151-163 | observers know the latest time of every key after every message if and only if times never go down per key |
| Observer.ExactlyOnce | src/pyqgisserver/qgscache/observer.py:9-14 | while times never go down, each distinct key and time is passed on exactly once and in increasing order |
| Observer.FleetToldOnce | src/pyqgisserver/qgscache/observer.py:9-72 | any number of workers over one store, whichever notices their sockets drop: of what arrives, observers hear of each key and second exactly once, in increasing order, and stay up to date after every message |
| Supervisor.Client.NotifyBusy | src/pyqgisserver/zeromq/supervisor.py:80-85 | BUSY is sent only by a client that was not busy |
| Supervisor.Client.NotifyDone | src/pyqgisserver/zeromq/supervisor.py:73-78 | DONE is sent only by a client that was busy |
| Supervisor.Client.RunWorker | src/pyqgisserver/zeromq/worker.py:189-242 | the messages of any sequence of turns of the worker loop, and one READY per turn |
| Supervisor.LoopAlternates | src/pyqgisserver/zeromq/worker.py:191-217 | for every path through the loop the control messages alternate BUSY, DONE and end on DONE |
| Supervisor.LoopTells | src/pyqgisserver/zeromq/worker.py:189-237 | the loop takes its turns up to the first interrupt, restart order or failure before an answer, with one READY each; every request served is announced by one BUSY and closed by one DONE, and every report asked for is given |
| Supervisor.Server.HandleMessage | src/pyqgisserver/zeromq/supervisor.py:136-145 | BUSY arms a timer and keeps its handle, DONE cancels the kept timer |
| Supervisor.Server.Kill | src/pyqgisserver/zeromq/supervisor.py:123-130 | a timer that fires deletes the handle and kills, or fails without a handle |
| Supervisor.OthersUntouched | src/pyqgisserver/zeromq/supervisor.py:123-145 | in every run an event about one worker changes no timer and no handle of another and kills no other |
| Supervisor.StalledIsKilled | src/pyqgisserver/zeromq/supervisor.py:123-143 | in every run a handle is kept for a worker if and only if its last control message heard is a BUSY and none of its timers has fired since; once that BUSY is a full timeout old the timer can fire, and kills |
| Supervisor.PendingIsKept | src/pyqgisserver/zeromq/supervisor.py:136-143 | in every run such a worker has a live timer, due exactly a full timeout after its BUSY was heard |
| Supervisor.AgreeIff | src/pyqgisserver/zeromq/supervisor.py:123-143 | timers and handles stay in one-to-one agreement unless BUSY comes from a worker that is still busy; while they agree no kill is lost |
| Supervisor.AgreesThroughoutIff | src/pyqgisserver/zeromq/supervisor.py:123-143 | over every run, timers and handles agree throughout if and only if no BUSY comes from a worker whose handle is still kept |
| Supervisor.KillAsHeardIff | src/pyqgisserver/zeromq/supervisor.py:123-143 | in every run, a firing timer kills if and only if a handle is kept for its worker, and the worker seems stalled by what was heard if and only if the timer of the kept handle is due |
| Supervisor.KillDeservedIff | src/pyqgisserver/zeromq/supervisor.py:64-143 | whatever messages are dropped, late or repeated: a timer that fires kills if and only if a handle is kept for its worker; if no control message told since is unheard, the worker has really been busy for a full timeout if and only if the BUSY behind the kept handle was told that long ago; otherwise if and only if a later BUSY, not heard itself, was |
| Supervisor.WrongKillMeansLoss | src/pyqgisserver/zeromq/supervisor.py:64-143 | a kill that is not deserved takes a control message of that worker unheard after the last one heard, or an earlier BUSY heard from it while its handle was still kept |
| Supervisor.AlwaysAgree | src/pyqgisserver/zeromq/supervisor.py:123-143 | over every run of alternating messages timers and handles agree |
| Supervisor.KillsOnlyStalled | src/pyqgisserver/zeromq/supervisor.py:123-143 | when the timer of a worker heard alternating fires, a BUSY was heard from it at least a full timeout earlier and no DONE or BUSY since |
| Supervisor.WorkersAreSafe | src/pyqgisserver/zeromq/supervisor.py:64-143 | for any turns of the worker loop, and whatever happens to the messages of other workers: a firing timer always kills, and the kill is deserved while nothing the worker told is unheard |
| Supervisor.LostDoneKills | src/pyqgisserver/zeromq/supervisor.py:64-71 | one lost DONE lets an old timer kill a worker at its third request, busy for a second, though all it told since was heard |
| Supervisor.LostDoneKillsIdle | src/pyqgisserver/zeromq/supervisor.py:64-71 | one lost DONE lets the timer of a served request kill an idle worker |
| Pool.Pool.JoinExitedWorkers | src/pyqgisserver/zeromq/pool.py:58-82 | exactly the exited processes are deleted, in spite of deletion while indexing backwards; an early failure is flagged |
| Pool.Pool.RepopulatePool | src/pyqgisserver/zeromq/pool.py:84-92 | the missing processes are appended to the same list, each started once |
| Pool.Pool.MaintainPool | src/pyqgisserver/zeromq/pool.py:94-98 | the pool is full again: survivors in their order, then fresh processes; only as many are started as are missing |
| Pool.PoolIsStable | src/pyqgisserver/zeromq/pool.py:58-98 | over any number of sweeps the pool holds exactly the wanted number of distinct processes, oldest first, and none is lost that was not seen to exit |
| Pool.RunPool | src/pyqgisserver/qgspool.py:283-297 | the sweep loop: after each sweep the pool is the one `AfterSweeps` describes, so it is stable as above; it runs on until the first sweep that finds an early failure |
| Oom.CheckOomStatus | src/pyqgisserver/qgspool.py:225-243 | above the mark the killed are a prefix of the descending order and a set that brings the rest strictly below the mark, unless all are killed; no smaller set of children would |
| Oom.NoFewerWillDo | src/pyqgisserver/qgspool.py:235-243 | if the n heaviest children do not suffice, no n children do |
| Oom.SortedPermutes | src/pyqgisserver/qgspool.py:237 | the sort keeps the children |

## Left out

- 0MQ sockets, pickling, signals, processes and the asyncio scheduler: channels, nondeterministic results and atomic steps between suspension points stand for them.
- Delivery order: that the messages of one worker arrive in the order sent is an assumption of the network results, and that the notices which arrive do so in the order sent, across workers, one of the fleet results.
- Observer.FleetToldOnce: notices of different workers that overtake each other are excluded; `Observer.ToldIff` says what is told then.
- CacheManager.QgsCacheManager.RefreshEverything: the method reads one state of the store throughout; `CacheManager.RefreshWhileChanging` is about the same walk, step by step, while the store changes.
- A send by `fetch` that fails before the handler is registered: it changes nothing.
- The exception path inside `Response.flush` and a worker that dies in mid-stream: the client then sees only a timeout.
- The metadata that travels beside each reply message.
- QGIS itself: reading a project is a function of the store's version, with possible failure.
- Key resolution and query merging: the resolved source of a key is taken as fixed.
- The path checks of the file handler and the connection of the postgres handler: only their freshness test is modelled.
- The lazy generator of `refresh`: it is consumed at once, as the worker does; the check interval before it is left to the events of a run.
- A store that rewrites a project without raising its modified time: the cache results assume that it does not.
- A process id that the system reuses, and the clocks of different processes: one id names one worker, and one clock times all.
- A clock that goes back: the expiry results of the balancer assume that it does not.
- Rounding of memory fractions: exact reals stand for floating point.
- Termination of the pool and of the client, statistics, monitors, HTTP handlers, configuration, plugins and the management API.
