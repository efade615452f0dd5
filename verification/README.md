# Gitstafette: a verified model of the relay pipeline

Gitstafette carries GitHub webhook deliveries from a public server to clients behind a
firewall. A server caches each POST; a stream handler fetches a repository's unrelayed
events, sends them and marks them; a cleaner removes relayed events two minutes later; a
client caches what it receives and relays it by HTTP. All these goroutines share one cache
of event pointers whose flag and time they overwrite in place, and most of what the system
promises holds only across them. This project models that pipeline in Dafny and proves
what holds of every input and of every interleaving.

## How it is built

- `Events`, `Codec`: events, messages and the four conversions (loops proved against
  functions), and what one hop, many hops and the whole way from POST to relayed request do.
- `CacheSpec`: a repository's cache as an ordered list of cells; the cleaner as one filter;
  what a stream of deliveries leaves in a cache that turns away known IDs.
- `EventStore`: `inMemoryStore` on the heap, with Go slices spelled out (backing array,
  length, spare capacity, append in place or into a larger array), and every slice ever
  handed to a reader.
- `Repositories`, `Ticks`, `Admission`, `StreamWindow`: the watcher, the loops of one fetch,
  marking, cleaner or push-relay tick, the two ways in, and the two timed stream loops, as
  methods on that heap.
- `Protocol`: the goroutines interleaved. A state holds the accept log with each event's
  flag and time, the cached list, and the program point of the cleaner, of any number of
  stream handlers and of any number of push-relay loops. Each read or write of an event's
  field is a step; every list of actions is a schedule. `Safety`, `RelayedOrder`,
  `CleanerTick`, `SingleFetch`, `Exclusivity`, `Retention`, `Queue`, `Drain`, `PushDrain` and
  `PushRelay` are theorems about all its schedules.
- `Correspondence`: the heap methods and the machine's steps for them lead from lists that
  read the same to lists that read the same.
- `Transfer`: a fetch tick on the server's heap and the client's loop on its own, composed.
- `Delivery`: server, stream and client composed, with breaks and client restarts. `Arrival`:
  from every state of it the moves that are left bring everything home, except what a break
  or a restart took away.

## What turned out not to hold

- *Relayed events come first in a repository's list* fails when a stream handler shares the
  repository with another consumer: a handler marks by ID, so if the event it sent has been
  marked by someone else, removed and accepted again meanwhile, its late mark hits the new
  event. `Exclusivity.RelayedFirstIffExclusive` gives the exact deployments, and
  `RelayedOrder.RelayedFirstWithoutReacceptance` shows that re-acceptance is all it takes.
- *A relayed event is kept for two minutes* holds on every schedule only in a deployment
  that relays nothing (`Retention.RetainedIffNoConsumer`). Push relay never sets the time,
  so an event can go at the instant of its mark (`Retention.PushedDropsAtOnce`), and where
  only push relay serves a cache whatever is relayed when a cleaner visit begins is gone
  when it ends (`PushDrain.RelayedGoOnNextVisit`). A stream
  handler sets the flag, then the time, while the cleaner reads the time, then the flag: it
  can meet a set flag with the zero time (`Retention.TornReadDropsAtOnce`). Making the mark
  atomic would not help, since it can fall between the two reads
  (`Retention.AtomicMarkDropsAtOnce`). With one stream handler, retention holds on every
  schedule in which no mark falls into the cleaner's reading of the same event in either of
  these two ways (`Retention.RetainedWhenUndisturbed`).
- *The cache is a queue* fails because the cleaner reads the clock anew for every event: of
  two events marked together it can remove the later one and keep the earlier one
  (`Queue.LaterGoesFirst`). `CacheSpec.DequeuesIffOneInstant` gives the exact readings with
  which cleaning dequeues. With one stream handler, and time passing anywhere, the cache is
  a queue on every schedule in which marks do not disturb the cleaner in the two ways above
  and no wait in mid-tick makes the next event to be tested due while one before it, tested
  already, is still listed (`Queue.CacheIsQueue`). The condition on waits is exact: a wait
  that does so is followed by such a removal, and one that does not is harmless
  (`Queue.WaitKeepsQueueIff`); the other cannot be dropped (`Queue.TornReadBreaksQueue`).
- *What the server marks as relayed has arrived* fails when a stream breaks, or a client
  ends, with events in flight: a send that succeeded is all the server asks for
  (`Arrival.LostForGood`). Nothing else is lost (`Delivery.LossIsConfined`), and everything
  else can still arrive (`Arrival.RestIsReachable`).
- *The relayed request carries the original headers* holds over one hop or more. A process
  that relays an event straight from a POST sends an empty header name as well, because the
  cached header list starts with one empty entry for every real one
  (`Codec.DirectRelayHasEmptyName`).
- *The client judges a signature as the handler does* holds for requests that carry a
  digest, when a token is configured (`Codec.VerdictsAtBothEnds`): without a digest the
  handler rejects and `ValidateEvent` finds no fault.
- *Cached events belong to watched repositories* holds for the POST handler; a pushed event
  is not checked and keeps it exactly when its repository is watched
  (`Admission.WebhookEventPush`).
- Deliveries without a delivery ID all share the ID `""`; each repository caches at most one
  of them at a time.

## Model

| member | source | states |
|---|---|---|
| Codec.InternalToExternalEvent | api/v1/webhook_event.go:54-69 | the loop yields the event's ID and body and, after as many nil headers as there are headers, each header in order |
| Codec.ExternalToInternalEvent | api/v1/webhook_event.go:25-52 | the loop keeps the body and exactly the headers with a name and a value; the ID is the value of the last delivery header that has one, and empty without one |
| Codec.InternalEvent | internal/cache/event_cache.go:80-102 | for whatever order the map is iterated in: the body, one empty header per name, then each name of the request with its first value, and the first value of the delivery header as ID |
| Codec.EventHeadersToHttpHeaders | internal/relay/relay.go:55-66 | the map filled by the loop has exactly the names of the list, and the last header of a name wins |
| Codec.ValidateEvent | internal/api/v1/events.go:35-50 | the digest checked is the value of the last signature header, empty without one; the verdict is positive exactly when there is no digest or it is the code of the body under the token; the result is true whatever the verdict |
| Codec.NonEmptyIsFilter | api/v1/webhook_event.go:31-39 | what survives decoding is the headers at exactly the positions with non-empty name and value, in the order of the positions |
| Codec.HopIsLossless | api/v1/webhook_event.go:25-69 | encoding, the wire and decoding keep the body and exactly the non-empty headers in order, and set the ID those headers carry |
| Codec.HopKeepsCoherence | api/v1/webhook_event.go:28-46 | a hop always yields an event whose ID agrees with its headers, and keeps the ID exactly when it agreed before |
| Codec.HopsStabilise | api/v1/webhook_event.go:25-69 | any number of hops equals one hop, while every encoding sends twice as many headers as there are non-empty ones |
| Codec.PostIsCoherent | internal/cache/event_cache.go:80-102 | for every iteration order the ID of a posted event is the one its own cached headers carry |
| Codec.RelayFidelity | internal/relay/relay.go:55-78 | for every iteration order and one or more hops, the relayed request has the original body, ID and exactly the headers whose name and first value are non-empty, each with that one value |
| Codec.DirectRelayHasEmptyName | internal/cache/event_cache.go:83-90 | without a hop the relayed request has a header with an empty name, exactly when the POST had any header |
| Codec.VerdictsAtBothEnds | internal/api/v1/events.go:35-70 | for a request and the event streamed for it: with a token the handler accepts exactly when the first signature value is there, not empty and the code of the body; `ValidateEvent` finds the event valid in these cases and when there is no digest; both for any code function |
| CacheSpec.FirstOccurrencesAre | internal/cache/inmemory.go:52-57 | a cache that turns away known IDs ends up with the events at exactly those positions of the stream where an ID comes up for the first time, in the order of the positions |
| CacheSpec.AddAllDistinct | internal/cache/inmemory.go:52-57 | whatever stream is offered, the cache holds each ID once |
| CacheSpec.AddAllMembers | internal/cache/inmemory.go:52-71 | it holds all it held before, every ID that was offered, and nothing that was neither held nor offered |
| CacheSpec.KeptMembers | internal/relay/relay.go:332-342 | the cleaner's filter keeps exactly the cells not due at their own test instant |
| CacheSpec.KeptAfterPrefix | internal/relay/relay.go:332-342 | if the due cells are the first k, the filter removes exactly that prefix |
| CacheSpec.DequeuesIffOneInstant | internal/relay/relay.go:332-342 | the exact clock readings with which cleaning drops a prefix of every cache whose relayed events come first and were marked in order: none later than one before it, that is, for a clock that does not go back, all equal |
| CacheSpec.LaterReadingBreaksQueue | internal/relay/relay.go:334 | for any tick with a reading later than one before it there is such a cache that loses a later event and keeps an earlier one |
| CacheSpec.KeptTwice | internal/relay/relay.go:330-342 | two scans of one list are one filter, each cell judged at the reading of the scan that dropped it or of the last |
| EventStore.Append | internal/cache/inmemory.go:71 | append extends the slice by the pointer, in the same array when there is spare capacity and in a fresh one otherwise, and changes nothing within the old length |
| EventStore.InMemoryStore.Store | internal/cache/inmemory.go:44-76 | stores exactly when the ID is not held, then appends unrelayed at the end of that repository's list; otherwise nothing changes; handed-out slices stay as they were |
| EventStore.InMemoryStore.Remove | internal/cache/inmemory.go:98-123 | that repository's list loses exactly the pointers with the ID and keeps the order of the others; the result is false exactly for a nil slice; handed-out slices stay as they were |
| EventStore.InMemoryStore.RetrieveEventsForRepository | internal/cache/inmemory.go:78-84 | the slice handed out shows the repository's current pointers |
| EventStore.InMemoryStore.CountEventsForRepository | internal/cache/inmemory.go:86-92 | the number of events cached for the repository |
| EventStore.SnapshotOutlives | internal/cache/inmemory.go:70-84 | after any sequence of stores, removals and retrievals, in any repositories, a handed-out slice has its length and shows the same pointers |
| EventStore.OthersAt | internal/cache/inmemory.go:105-110 | with distinct IDs, the removal loop drops one position and keeps the rest in order |
| EventStore.OthersIsFilter | internal/cache/inmemory.go:105-110 | it keeps the pointers at exactly the positions with other IDs, in the order of the positions |
| EventStore.OthersKeepDistinct | internal/cache/inmemory.go:105-110 | what the removal loop keeps came from the list, and IDs stay distinct |
| Repositories.RepositoryWatcher.RepositoryIsWatched | internal/cache/repositories.go:21-28 | true exactly for a repository that was added |
| Ticks.PendingIsFilter | internal/server/gsf_server.go:223-227 | what is pending is the events at exactly the positions where the flag is not set, in the order of the positions |
| Ticks.EncodedCarries | internal/server/gsf_server.go:228-229 | the k-th message of a batch has the k-th event's ID and body; decoded at the other end it has that body, exactly that event's significant headers, and the ID they carry |
| Ticks.RetrieveForFetch | internal/server/gsf_server.go:217-232 | for a watched repository one message per unrelayed event, in order: the k-th has the k-th such event's ID and body, and decodes to its body and exactly its significant headers; an error for any other repository |
| Ticks.MarkBatch | internal/server/gsf_server.go:236-244 | the nested loop is one set update: exactly the events whose ID is in the batch become relayed, at a time read during the call; flags are never unset |
| Ticks.UpdateRelayStatus | internal/server/gsf_server.go:234-245 | the same on the live cache, which keeps its list and order |
| Ticks.TestAndRemove | internal/relay/relay.go:332-342 | an event that is relayed, and whose time is more than two minutes before the reading, goes, by ID; any other stays |
| Ticks.ScanStep | internal/relay/relay.go:332-342 | removing by ID in mid-scan takes out the event under test and nothing else |
| Ticks.CleanRepository | internal/relay/relay.go:331-342 | a scan that removes from the list it walks, with any non-decreasing clock readings, ends with one order-preserving filter of the snapshot |
| Ticks.SweptMeans | internal/relay/relay.go:328-343 | after a tick nothing is new, nothing is left that was due when it began, and nothing is gone that was not due when it ended: no unrelayed event, and none relayed less than two minutes before |
| Ticks.CleanupTick | internal/relay/relay.go:328-343 | every watched repository is reduced by one order-preserving filter with clock readings of this tick, however often it is listed; every other repository is left alone |
| Ticks.RelayTick | internal/relay/relay.go:109-124 | one call per unrelayed event, in order; then all are marked, whatever the calls did, and no time is touched |
| Ticks.CacheEvent | internal/cache/event_cache.go:74-78 | afterwards the ID that the message's headers carry is held; unless it was held before, one new unrelayed event is last in the list, with the message's body and its decoded headers; other repositories are unchanged |
| Ticks.StoreBatch | cmd/client/main.go:276-290 | a response leaves the cache as taking its decoded events in one by one, dropping known IDs: the list keeps what it held, holds the ID of every message, and every event new in it is a decoded message of the response, with its body |
| Admission.CachePost | internal/cache/event_cache.go:80-102 | stores exactly when the request's delivery ID is not held, then one new unrelayed event with the request's body and every header's first value is last in the list |
| Admission.HandleGitHubPost | internal/api/v1/github.go:26-94 | the exact condition of each status code, in terms of the request's headers, the code of its body and the cache: 201 only with a digest that is the code of the body, if a token is set, for a watched repository and a new delivery ID; then exactly one event, made from the request, was appended to the repository the target ID names; every other code leaves the cache unchanged |
| Admission.WebhookEventPush | internal/server/gsf_server.go:110-123 | always accepted; the cache takes the decoded event in unless its ID is held; afterwards only watched repositories hold events exactly if that was so and this one is watched |
| Admission.PostsKeepClosure | internal/api/v1/github.go:71-94 | over any run of POSTs and cleaner ticks, every repository holding events is watched |
| Protocol.IngressIsCoherent | internal/cache/event_cache.go:74-102 | by POST, push or stream, every cached event's ID agrees with its own headers |
| Protocol.KeepAt | internal/cache/inmemory.go:105-110 | removal by ID keeps all but one position, in order |
| Protocol.CondemnedIsDropped | internal/relay/relay.go:333-337 | the removal after a test drops the very object that was tested, which is relayed, never one stored since under its ID |
| Protocol.NextKeeps | internal/relay/relay.go:329-343 | every step of every goroutine keeps the invariant: accept order, one event per ID, each accepted event cached or removed but not both, only relayed events removed; flags are never unset |
| Protocol.RunKeeps | internal/relay/relay.go:329-343 | the same for every schedule |
| Safety.EveryRunIsSafe | internal/relay/relay.go:329-343 | on every schedule with any numbers of stream handlers and push-relay loops, the invariant holds, and per ID accepted stores equal cached events plus removals, with at most one cached |
| CleanerTick.DropTested | internal/cache/inmemory.go:98-111 | in the machine too, removing by ID in mid-scan takes out only the event under test |
| CleanerTick.TickIsFilter | internal/relay/relay.go:328-343 | a whole cleaner tick of single steps, with ingest and time passing anywhere in it, leaves the filter `Ticks.CleanRepository` ends with, at the tick's own readings, followed by what came in, in order and unrelayed |
| CleanerTick.EveryScanIsATick | internal/relay/relay.go:332-342 | conversely, for any clock readings that do not go back there is a tick of single steps that makes them and ends with that filter |
| RelayedOrder.RelayedFirstWithoutReacceptance | internal/server/gsf_server.go:234-245 | with any mix of consumers, relayed events come first on every schedule in which no ID is accepted twice, and always without stream handlers |
| Exclusivity.StaleMarkBreaksOrder | internal/server/gsf_server.go:236-244 | the schedule in which a late mark by ID hits a re-accepted event behind an unrelayed one |
| Exclusivity.RelayedFirstIffExclusive | internal/server/gsf_server.go:234-245 | relayed events come first on every schedule exactly when there is no stream handler, or one and no push relay |
| Retention.RetainedIffNoConsumer | internal/relay/relay.go:333-337 | every removal comes more than two minutes after the event became relayed, on every schedule, exactly in a deployment without stream handlers and push relay |
| Retention.TornReadDropsAtOnce | internal/relay/relay.go:333-337 | with any stream handler there is a schedule that removes an event at the instant it became relayed: flag set, time not yet |
| Retention.AtomicMarkDropsAtOnce | internal/server/gsf_server.go:240-241 | so there is one in which flag and time are written in consecutive steps, between the cleaner's two reads |
| Retention.PushedDropsAtOnce | internal/relay/relay.go:121 | and one for any push-relay loop, which sets the flag and never the time |
| Retention.RetainedWhenUndisturbed | internal/relay/relay.go:333-337 | with one stream handler, every removal comes more than two minutes after the event became relayed, on every schedule where the cleaner never reads the time of a half-marked event and no flag is set between its two reads of that event |
| Retention.RetainedUnlessReadZero | internal/relay/relay.go:333-337 | on every schedule of one stream handler, the same for every removal for which the cleaner read a time other than zero |
| SingleFetch.OneStreamDelivers | internal/server/gsf_server.go:163-208 | with one stream handler, on every schedule with ingest and cleaning, the send log is the accept order without gap or repeat; only sent events are ever marked, and between ticks all of them are; relayed events come first |
| SingleFetch.MarkHits | internal/server/gsf_server.go:236-244 | each mark by ID changes exactly one object: the one that was sent |
| SingleFetch.FailedSendKeepsPending | internal/server/gsf_server.go:182-186 | a failed send marks nothing, and the whole batch is still cached unrelayed |
| Queue.CacheIsQueue | internal/relay/relay.go:328-343 | on every schedule of one stream handler, ingest and cleaner, with time passing anywhere, in which no mark falls into the cleaner's reading of the same event and no wait in mid-tick makes the next event to be tested due while one tested before it is still listed: what was removed is the first accepted events in accept order, and the list is all the others |
| Queue.WaitKeepsQueueIff | internal/relay/relay.go:334 | the condition on waits is exact: at any point of such a schedule with no mark half written, after a wait and any number of steps of the cleaner alone the cache is still a queue, if and only if the wait does not do that |
| Queue.OvertakenFirst | internal/relay/relay.go:332-337 | after a wait that does, two or three steps of the cleaner remove that event while one before it is listed |
| Queue.ScanIsThorough | internal/relay/relay.go:332-337 | where no listed event becomes due after its own test in mid-tick either, a finished scan leaves no fully marked event of its snapshot that is due |
| Queue.LaterGoesFirst | internal/relay/relay.go:334 | a reachable state, with no mark in progress, from which a tick with time passing between two tests removes the later of two events and keeps the earlier |
| Queue.TornReadBreaksQueue | internal/relay/relay.go:333-334 | a reachable state from which a tick in which no time passes removes the later of two events and keeps the earlier, because the later one is half marked |
| Drain.DrainProgress | internal/server/gsf_server.go:163-208 | after a fetch tick with successful sends, any steps at all for more than two minutes, and a cleaner tick, with ingest, cleaner and later fetch ticks interleaved everywhere: everything cached at the start is gone, and what has not been sent is cached unrelayed |
| Drain.DrainsExactly | internal/relay/relay.go:329-343 | with no other fetch tick the list is then exactly the events accepted after the batch was taken, unrelayed and in order |
| Drain.RunSettled | internal/server/gsf_server.go:234-245 | the events a finished fetch tick sent are never touched again, flag, time and all, whatever happens |
| PushDrain.RelayedGoOnNextVisit | internal/relay/relay.go:121 | with any number of push-relay loops and no stream handler, from any reachable state with the cleaner at rest, the cleaner's next visit, with ingest, push relay and waits anywhere in it, leaves nothing listed that was relayed when it began |
| PushRelay.EachRelayedOnceInOrder | internal/relay/relay.go:109-124 | with one push-relay loop, on every schedule, the relay calls are the accepted events in accept order, none twice and none skipped |
| PushRelay.AtMostOneRelayPerDelivery | cmd/client/main.go:111-112 | over a client's life the calls are a prefix of its cache and no delivery ID is relayed twice |
| PushRelay.WholeLog | cmd/client/main.go:276-290 | a cache without cleaner lists every accepted event in accept order |
| Correspondence.StoreIsIngest | internal/cache/inmemory.go:44-76 | storing a new event on the heap and the machine's ingest lead from lists that read the same to lists that read the same, and store in the same cases |
| Correspondence.RemovalAgrees | internal/cache/inmemory.go:98-123 | so do removal by ID on the heap and in the machine |
| Correspondence.CleaningAgrees | internal/relay/relay.go:331-342 | what a filter of the heap list and one of the machine's list leave, at the same clock readings, reads the same |
| Correspondence.CleaningIsATick | internal/relay/relay.go:331-342 | the cleaner's scan of the heap list is a tick of the machine's cleaner: whatever readings it makes, single steps lead to a list that reads the same |
| Correspondence.MarkIdMarksRows | internal/server/gsf_server.go:238-243 | the inner marking loop changes what readers see of the events with that ID, flag and time, and nothing else |
| Correspondence.MarkStepsMarkRows | internal/server/gsf_server.go:238-243 | so do the stream handler's two writes in the machine, in one instant |
| Correspondence.PushStepsRelayRow | internal/relay/relay.go:112-121 | a push-relay loop's two steps call the relay for one event and change only that event's flag |
| Correspondence.RelayIsAPushTick | internal/relay/relay.go:109-124 | the heap method's tick is a whole tick of a push-relay loop in the machine: it ends with a list that reads the same, and makes the same calls in the same order |
| Delivery.EndToEndOrder | internal/server/gsf_server.go:163-208 | on every run with nothing lost and no client restart, with cleaning and re-acceptance at the server: the client lists all it took; relayed calls are a prefix of that, and that is a prefix of the first occurrences in the server's accept log, bodies and headers included |
| Delivery.EverythingArrives | internal/server/gsf_server.go:163-208 | when such a run comes to rest, the client lists exactly the first occurrences in the accept log, and once it has relayed its list, these are the calls, each once and in order |
| Delivery.OrderSurvivesLoss | cmd/client/main.go:133-150 | with streams breaking and client processes ending at any time: what is handed to client caches is in accept order, and the present process lists exactly the first occurrences of what was handed to it |
| Delivery.LossIsConfined | internal/server/gsf_server.go:173-194 | on every run each accepted event is cached unrelayed and unsent, or sent and in exactly one place: handed to a client cache, being stored, in the stream, or in flight when a stream or client ended; an ID handed to the present client process is in its cache, and one handed to an earlier process was in the cache of some client process |
| Delivery.EachAcceptRelayedOnce | cmd/client/main.go:111-150 | over all client processes, with breaks and restarts at any time, the accepts behind all relay calls ever made strictly increase, and each call of the present process relays what that accept stored, after one hop |
| Arrival.RestIsReachable | cmd/client/main.go:255-290 | from every reachable state of the pipeline the handler's steps, opening a stream, receiving, storing and the client's push relay lead to rest: everything accepted is sent, nothing is under way, the client has relayed all it took, and each accepted event was handed to a client or lost before, not both; if nothing was lost and no client restarted, the client caches and has relayed exactly the first occurrences in the accept log, every accepted ID and nothing else |
| Arrival.AcceptedIsRelayed | internal/cache/event_cache.go:74-102 | from every such state, any POST or message can be accepted and, with nothing more accepted, its ID gets relayed; if the ID is new, what is relayed under it has the body and the significant headers of that POST or message |
| Arrival.ServerRunsSchedules | internal/server/gsf_server.go:163-208 | while a stream is open and sends succeed, the server's part of the pipeline is any schedule of the machine, and the stream takes up exactly what is sent, in order |
| Arrival.LostForGood | internal/server/gsf_server.go:184-194 | what is in the stream when it breaks, or in flight when the client ends, is counted as sent by the server and reaches no client on any continuation |
| Arrival.ClosedStreamIsQuiet | internal/server/gsf_server.go:163-215 | after the end of a stream, by its window, a break or the client's end, nothing is sent until another opens |
| Arrival.RelaysOnRecord | cmd/client/main.go:111-150 | the next client process starts with nothing cached and nothing relayed; what the ended one relayed stays on record, call by call, on every continuation |
| StreamWindow.TicksFit | internal/server/gsf_server.go:138-163 | n ticks an interval apart can all begin within a window exactly when n is at most ceil(window / interval) |
| StreamWindow.ReceiveEvents | cmd/client/main.go:246-320 | the receive loop ends; it receives at most ceil(window / interval) times; the cache has taken in exactly the replies received, in order: it keeps what it held, holds the ID of every message received, and what is new in it was received, body and all; why the loop was left; an error is reported exactly for a failed receive, for a context that is done, and when the stream's context has an error at the end |
| StreamWindow.BatchNamesPending | internal/server/gsf_server.go:217-245 | the batch, which names events by ID, names a cached event exactly when it is pending |
| StreamWindow.FetchTick | internal/server/gsf_server.go:163-194 | a tick sends the pending events in order, message by message with their IDs, bodies and significant headers, and marks just these, at times read during the tick; after a failed send, or for an unwatched repository, nothing changes |
| StreamWindow.FetchWebhookEvents | internal/server/gsf_server.go:125-215 | the stream loop ends and responds at most ceil(window / interval) times, each time by a send that succeeded; with events arriving in every interval, the responses carry in order and once all that was pending and all that arrived, each response all up to it; the rest is pending, and no event is marked that was neither relayed before nor in a response; it fails only on a failed send or an unwatched repository, and ends otherwise when the window is over or a context is done |
| StreamWindow.StreamedQuietly | internal/server/gsf_server.go:163-208 | if nothing arrives the first response is everything pending and every later one is empty |
| Transfer.DeliverTick | cmd/client/main.go:255-290 | a fetch tick, the wire and the client's loop over the response composed: everything that was pending at the server is relayed there and its ID held by the client; the client keeps what it held, and every event new there has the body, the significant headers and the ID of one that was pending |

## Left out

- gRPC and HTTP transport, TLS, OAuth, dialling and tickers. A stream is a FIFO channel that may close; a relay call is an entry in a log; time is a clock that never goes back, with waits of at least the duration asked for.
- Tracing, metrics, logging and error reporting: they only observe. `TimeReceived` is not kept, since nothing reads it.
- internal/cache/redis.go: it depends on an external server, and it does not meet the in-memory contract (what it retrieves is never appended to its result, and its removal does nothing).
- HMAC-SHA256 is a parameter, `mac`. `ValidateEvent` never gates caching, so its verdict is only compared with the handler's, for one and the same token.
- Health checks, `WebhookEventStatus` and `WebhookEventStatuses`, `GetInfo`, the listing handlers, flags and configuration: constants, folds and thin wrappers.
- Go's memory model. In `Protocol` each field access is one atomic step in one global order, and retrieving a slice is one step; the read of the cache map without the lock, beside a write to it, is a data race that Go leaves undefined.
- The methods on the heap are sequential, one tick at a time. Interleavings are the subject of `Protocol`, whose objects are accept numbers instead of pointers; it shows what a snapshot shows by copying it, which `EventStore.SnapshotOutlives` justifies. `Correspondence` relates the two step by step; a simulation of whole interleaved runs by concurrent heap methods is not stated. `Protocol` follows one repository; that operations leave the others alone is part of the contracts in `EventStore`, `Ticks` and `Admission`.
- Strings that are not valid UTF-8, which a message cannot carry; bodies are bytes and are not affected.
- Two overlapping streams, or a stream beside push relay, in `SingleFetch`, `Queue`, `Drain` and `Delivery`: the code promises nothing about delivery there. They are covered in `Safety`, `RelayedOrder`, `Exclusivity` and `Retention`.
- Admission.HandleGitHubPost: a request with a target ID and no target type is excluded, because the handler indexes an absent list there; failures to read the body are not modelled.
- StreamWindow.ReceiveEvents: what the other end sends is given as a list, which ends where a context is done; a blocking receive takes no time of its own; whether the stream's context has an error when the loop ends otherwise is the transport's affair and a parameter.
- StreamWindow.FetchWebhookEvents: events arrive while the handler waits; arrivals during the rest of a tick are in `SingleFetch`.
- EventStore.Append: the growth factor of Go's runtime is not modelled exactly; the proofs use only that a full slice moves to a larger array.
- Delivery.EndToEndOrder: a stream opens only when nothing of the previous one is in flight and the handler is at rest; a new process never receives an old stream's responses.
- Liveness: that goroutines are scheduled at all. `Arrival` says that rest can be reached from every state, not that a schedule takes the moves that lead there; `Drain` says what holds once a tick has run to its end.
