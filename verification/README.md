# hooklens, modelled and proved

hooklens captures webhooks at a public address, stores them, shows them live in a browser and forwards them down a
tunnel to a developer's machine. This project models the parts of it whose correctness is not visible from any single
function, and proves what they promise for every input, every run and every interleaving.

- **Tunnel** (`Tunnel*.dfy`, `Reconnect.dfy`). One connection is a step relation: every lock section, channel operation
  and `select` branch of `send`, `deliver`, `forget` and `close` is one step, and the peer may send any frame at any
  time. `TunnelClient.dfy` is the same record as a class whose methods are those atomic sections, with `send`, `deliver`
  and `close` written out over them while others act in between. `TunnelPeer.dfy` composes it with the command-line
  peer, `TunnelHub.dfy` is the registry under any interleaving of handlers, and `Reconnect.dfy` the retry loop and
  several peers contending for one inbox.
- **Structural diff** (`Json*.dfy`). What the comparison reports, as values (`JsonDiff`), the walks that append to one
  list (`JsonWalk`), the relation "no changes" (`JsonDiffLaws`, `JsonEquality`) and the report as a patch (`JsonPatch`).
- **Server-sent events** (`Sse.dfy`): the writer, the incremental parser, and any cutting of the bytes into chunks.
- **Shared state**: broker and event stream (`Broker.dfy`), rate limiter (`RateLimit*.dfy`, `Eviction.dfy`), resolution
  cache with lookups in flight (`EndpointCache.dfy`), counters and histograms (`MetricsLabels.dfy`,
  `MetricsCounter.dfy`, `MetricsHistogram.dfy`), load generator (`LoadGen.dfy`).
- **Database histories**: keyset pagination over a changing table (`Pagination.dfy`), retention with overlapping
  transactions and the sweep (`Retention.dfy`).
- **Capture to forward** (`Capture.dfy`): bounded reading, the durability line, the recorded outcome.

Where a promise turned out to need a condition, the condition is stated and proved exact:

- The limiter's bound per interval of clock readings fails when readings reach the lock out of order
  (`RateLimitLate.OutOfOrderExample`). With readings at most `late` behind, it holds for every run if and only if that
  much time earns at most one token or the burst is below two (`RateLimitBound.LimitHoldsIff`); in order, it always
  holds.
- Evicting idle keys is invisible if and only if the idle window refills a whole burst (`Eviction.InvisibleIff`).
- An event survives the wire if and only if its name has no newline (`Sse.EventSurvivesIff`).
- After a forget every later answer is fresh if and only if no lookup of that slug is between its read and its put
  (`EndpointCache.ForgetIsFinalIff`).
- A capture's stored expiry follows its inbox's retention in every history if and only if no insert for the inbox falls
  between the second update of a change of retention and its commit (`Retention.ExpiriesTrueIff`,
  `Retention.StaleExample`); the indexed sweep selects what the join would exactly then
  (`Retention.IndexedSweepIsTheJoinIff`).
- Contending peers come down to one, the last to register, once drops have stopped, unless the server gives up a
  connection before its peer notices (`Reconnect.SeveredExample`) or a handler registers after its peer has dropped
  (`Reconnect.LateHandlerExample`). Exactly who is left is `Reconnect.WhoIsLeft`, and when exactly anybody is
  `Reconnect.LastToRegister`.
- The retry ceiling is the doubled base, capped, if and only if there were at most 32 attempts or the cap is reached by
  then (`Reconnect.DoublingCapped`); with the program's constants it always is.
- A cursor reads back if and only if its id is not empty (`Pagination.CursorRoundTripIff`).
- With forwarding on, exactly one of status and error is recorded if and only if the database can be reached and an
  app that answered gave a status from 100 to 599 (`Capture.HandleCapture`).

Two comments in the source disagree with its code, and the model follows the code. `internal/tunnel/server.go:193-197`
says that a handler closes before it unregisters; deferred calls run last-in first-out, so it unregisters first.
`internal/ingest/ingest.go:191-197` says that a partly read body is still stored; `FromHTTP` returns nothing on a read
error, so the provider is answered 503.

Proofs use Dafny's `hide` statement to keep definitions out of a proof that does not need them.

## Model

| member | source | states |
|---|---|---|
| Tunnel.StepKeepsInv | internal/tunnel/hub.go:143-267 | every step of any goroutine, with any peer frame, keeps: slots = calls between acquire and release and at most 32, ids never shared, a pending entry expects its own call, closed means nothing pending, the done channel closed at most once |
| Tunnel.KeepsDelivery | internal/tunnel/hub.go:216-236 | between taking an entry and sending on its channel, nobody else can send on that channel or find the id again |
| TunnelRuns.ReachableInv | internal/tunnel/hub.go:143-267 | the invariant holds in every state of every run |
| TunnelRuns.AnswersMatch | internal/tunnel/hub.go:160-213 | a caller receives only a response bearing its own id, at most one is ever sent to its channel, and no two calls share an id |
| TunnelRuns.DeliverNeverBlocks | internal/tunnel/hub.go:216-267 | the send in deliver always finds room, the done channel is never closed twice, slots are never more than 32, and a waiting call can have one exactly while fewer are taken |
| TunnelRuns.OutcomesTellTheTruth | internal/tunnel/hub.go:148-212 | a call is answered exactly if a response was sent on its channel and taken, and then with that response; a write or an encoding error exactly if its own write or encoding failed; overloaded and timed out exactly if it gave up at its deadline, without a frame on the wire or with one; disconnected means closed |
| TunnelRuns.AnswerReturned | internal/tunnel/hub.go:198-236 | while a call waits on an open connection, a response with its id can be taken, sent and received, and the call then returns that response |
| TunnelRuns.ClosedForGood | internal/tunnel/hub.go:173-178 | once closed, a client stays closed and never has anything pending again |
| TunnelRuns.MeasureDrops | internal/tunnel/hub.go:143-267 | every step that is not an arrival or the first close either changes nothing or brings the end nearer |
| TunnelRuns.ClosedGoesOn | internal/tunnel/hub.go:148-213 | after a close, until all is quiet, some step is possible without any deadline, given that a pending write returns |
| TunnelRuns.ClosedDrains | internal/tunnel/hub.go:143-267 | after a close, with calls still arriving, every other step is bounded by the measure and ten for each arrival, and a run can go no further exactly when every call has returned, nothing is pending and all slots are back |
| TunnelRuns.QuietIsClean | internal/tunnel/hub.go:158-185 | when all calls have returned, no pending entry and no slot is leaked, closed or not |
| TunnelClient.Send | internal/tunnel/hub.go:143-213 | send from beginning to end, whatever others do between its sections and while it waits: answered exactly if a response was taken from its channel, and then that one, bearing its id; each error only for its own cause (deadline, encoding, write, closed connection); it leaves no entry behind, the slots taken are exactly those of the other calls, and alone it leaves slots and entries as it found them |
| TunnelClient.Client.TakePending | internal/tunnel/hub.go:217-226 | taking removes the entry in the section that finds it |
| TunnelClient.Client.Mark | internal/tunnel/hub.go:249-261 | the first close empties the pending map; later ones change nothing |
| TunnelClient.Deliver | internal/tunnel/hub.go:216-236 | for any frame: an unknown id changes nothing; a known one puts exactly this response into the empty channel of the call that owns it; and the id of a call that waits on an open connection is known |
| TunnelClient.Close | internal/tunnel/hub.go:249-267 | closing again and again closes the done channel exactly once and leaves calls and slots to their owners |
| TunnelPeer.AnswerIsForThisRequest | internal/tunnel/client.go:304-352 | in every run of server and peer, an answered caller gets what the local app answered to that very request |
| TunnelPeer.AnswerArrives | internal/tunnel/client.go:304-337 | what the local app answers while the caller waits can be handled, read and delivered, and the caller returns exactly it |
| TunnelPeer.LinkStepKeeps | internal/tunnel/client.go:249-337 | every response in flight, queued, delivered or returned is one the peer made for a frame of that id |
| TunnelHub.NewestHoldsTheInbox | internal/tunnel/hub.go:80-101 | in every interleaving an inbox maps to the client that registered last unless that client itself unregistered, and that client is not closed |
| TunnelHub.DisplacedIsClosed | internal/tunnel/server.go:192-218 | in every run, once nobody is in the middle of closing it, a client that has registered is closed exactly when another registered after it or its own handler has ended |
| TunnelHub.StaleUnregisterIsHarmless | internal/tunnel/hub.go:95-101 | an unregister by a superseded client leaves the registry as it is |
| TunnelHub.StepKeepsInv | internal/tunnel/server.go:192-217 | only superseded clients and clients whose handler has ended are ever closed, given the order in which the defers really run |
| TunnelHub.RegisterConnection | internal/tunnel/server.go:199-218 | registering on the program's map learns exactly the displaced client, which is superseded from then on |
| TunnelHub.UnregisterConnection | internal/tunnel/server.go:197 | after its own unregister a client is nowhere in the registry, and nobody else has left it |
| TunnelHub.Hub.Register | internal/tunnel/hub.go:80-86 | newest wins, and the displaced client is returned |
| TunnelHub.Hub.Unregister | internal/tunnel/hub.go:95-101 | removes only the client that is registered |
| Reconnect.DoublingCapped | internal/tunnel/backoff.go:48-56 | for any base that cannot overflow and any maximum the ceiling is the doubled base, capped, exactly as long as the clamp at 32 attempts does not show |
| Reconnect.CeilingIsExact | internal/tunnel/backoff.go:48-56 | with the program's constants no attempt overflows: the ceiling is half a second doubled with each attempt, capped at thirty seconds |
| Reconnect.Backoff.Next | internal/tunnel/backoff.go:48-64 | each delay is the draw below the ceiling of its attempt, and the ceiling never exceeds the maximum |
| Reconnect.Run | internal/tunnel/client.go:129-165 | retries stop exactly at the first cancellation or at "unauthorized", "unsupported_version" or "replaced"; an error is returned exactly for these three; and every other ending is followed by one delay, drawn below the ceiling of the failures since a lasting session |
| Reconnect.StreakIsLength | internal/tunnel/client.go:137-148 | the failures counted are those since the last session of thirty seconds or more, it included |
| Reconnect.RegistrationsPaid | internal/tunnel/protocol.go:168-194 | in every run, registrations made and still to be made are paid for by peers that were idle, handlers that were arriving and sessions that end in a retry, and evictions by registrations |
| Reconnect.NoFight | internal/tunnel/protocol.go:168-194 | n peers on one inbox register at most n times, handlers still to register included, plus once for every session that ended neither by being replaced nor for good: being replaced never brings a peer back |
| Reconnect.EvictionsStop | internal/tunnel/protocol.go:173-189 | from any point on, evictions are bounded by the peers still to connect, the handlers still to register and the drops to come, so they stop once drops stop |
| Reconnect.AtMostOneLive | internal/tunnel/server.go:176-218 | at every moment at most one peer is live whose handler has registered and whose connection was neither displaced, with the notice still to be read, nor given up by the server itself |
| Reconnect.WhoIsLeft | internal/tunnel/client.go:129-165 | once drops have stopped and notices have been read, the peers left are exactly those, of the ones live before or welcomed since, whose connection the hub holds, whose handler has still to register, or whom the server has given up by itself |
| Reconnect.LastToRegister | internal/tunnel/server.go:176-218 | when nobody is arriving or given up, somebody is left exactly if the last to register has a peer that was live before or welcomed since, and then it alone |
| Reconnect.OneIsLeft | internal/tunnel/client.go:129-165 | without drops and with no connection given up by the server, exactly one peer is left, the last to register |
| Reconnect.SeveredExample | internal/tunnel/server.go:344-423 | a concrete run in which the server gives up a connection whose peer has not noticed, and two peers stay live with no notice on its way |
| Reconnect.LateHandlerExample | internal/tunnel/server.go:176-199 | a concrete run in which a handler registers after its peer has dropped and come back, displaces the peer's own new connection, and nobody is left |
| JsonDiff.FindIdFinds | internal/diff/diff.go:195-203 | lookup by id finds an element with that id, or there is none |
| JsonDiff.IdIs | internal/diff/diff.go:222-271 | an object's id is the string, the number's token, or "true" or "false" under "id" when that holds a scalar, else under "uuid", else "key", else "name", and "" when none does |
| JsonDiffLaws.DiffMembers | internal/diff/diff.go:105-220 | a change is reported exactly when one compared place contributes it |
| JsonDiffLaws.ObjectChanges | internal/diff/diff.go:132-163 | between objects a change is exactly a key gone, a key come, or a change between the two values of one key |
| JsonDiffLaws.IndexChanges | internal/diff/diff.go:173-193 | between arrays matched by index a change is exactly an index gone, an index come, or a change between the elements there |
| JsonDiffLaws.IdChanges | internal/diff/diff.go:195-220 | between arrays matched by id a change is exactly an id gone, an id come, or a change between the two elements of one id, wherever they stand |
| JsonDiffLaws.DiffPrefixFree | internal/diff/diff.go:105-220 | no reported path is repeated or extends another |
| JsonDiffLaws.SameObjects | internal/diff/diff.go:132-163 | objects are without changes exactly when they have the same keys with values without changes |
| JsonDiffLaws.SameByIndex | internal/diff/diff.go:182-192 | arrays matched by index are without changes exactly when equally long and without changes place by place |
| JsonDiffLaws.SameById | internal/diff/diff.go:195-220 | arrays matched by id are without changes exactly when their ids agree and so do the elements of equal id |
| JsonDiffLaws.SameHasIds | internal/diff/diff.go:222-259 | arrays without changes between them agree on whether the id heuristic applies |
| JsonDiffLaws.SameReflexive | internal/diff/diff.go:58-77 | a value has no changes to itself |
| JsonDiffLaws.SameSymmetric | internal/diff/diff.go:58-77 | "no changes" does not depend on the order of the sides |
| JsonDiffLaws.SameTransitive | internal/diff/diff.go:58-77 | "no changes" is transitive, id-matched arrays included |
| JsonEquality.IdenticalIffEqual | internal/diff/diff.go:58-77 | identical holds exactly for values equal up to reordering arrays whose elements carry unique ids on both sides |
| JsonEquality.ReorderedIsIdentical | internal/diff/diff.go:173-271 | arrays of objects with distinct non-empty strings, numbers or booleans under "id", one a reordering of the other, are identical |
| JsonEquality.OrderedWithoutIds | internal/diff/diff.go:173-193 | an element without an id, or two with one id, on either side: the arrays are identical exactly when they are place by place |
| JsonEquality.DiffSwaps | internal/diff/diff.go:105-220 | exchanging the inputs reports the same multiset with added and removed, old and new exchanged |
| JsonPatch.PatchGivesRight | internal/diff/diff.go:105-220 | the reported changes, in any order, applied to the left value give one without changes to the right |
| JsonPatch.PatchArraysById | internal/diff/diff.go:195-220 | the patch is right for arrays matched by id, where elements move, go and are appended |
| JsonWalk.ElementIDs | internal/diff/diff.go:229-259 | the loop decides exactly whether every element has a non-empty id and all differ, and lists them |
| JsonWalk.SortedUnion | internal/diff/diff.go:137-147 | the keys come out in one order whatever order the maps are iterated in |
| JsonWalk.RenderSays | internal/diff/diff.go:183-217 | keys are joined by dots, indexes stand in brackets, ids in brackets after "id=" |
| JsonWalk.Walk | internal/diff/diff.go:105-130 | the walk appends what the comparison reports, under its path, and nothing else |
| JsonWalk.WalkObjects | internal/diff/diff.go:132-163 | as Walk, for objects |
| JsonWalk.WalkArrays | internal/diff/diff.go:173-193 | as Walk, for arrays, choosing the matching |
| JsonWalk.WalkArraysByID | internal/diff/diff.go:195-220 | as Walk, with the index and the matched set kept in maps |
| JsonWalk.SortOrders | internal/diff/diff.go:297-299 | the report ascends by rendered path |
| JsonWalk.SortIsStable | internal/diff/diff.go:297-299 | changes rendered alike keep the order of the walk |
| JsonWalk.Bodies | internal/diff/diff.go:58-77 | non-JSON bodies are compared as bytes; otherwise identical means equal up to reordering and the report is a patch to a value equal to the right one |
| Sse.WriteEvent | internal/server/sse.go:68-89 | the builder loop produces the lines of the event and the blank line that ends it |
| Sse.EventBytes | internal/server/sse.go:68-89 | the name on a line of its own after "event: " unless it is empty, each line of the data after "data: ", and a blank line |
| Sse.WriteComment | internal/server/sse.go:94-96 | a colon, a space, the text and a blank line |
| Sse.WriteRetry | internal/server/sse.go:99-101 | "retry: ", decimal digits that say the delay in milliseconds, and a blank line |
| Sse.ParseFrame | web/src/lib/sse.ts:84-119 | the loop over lines computes the frame's event |
| Sse.LineReads | web/src/lib/sse.ts:89-113 | how each line is read: one space after the colon is dropped, a field may have no colon, comments and other fields say nothing |
| Sse.SSEParser.Push | web/src/lib/sse.ts:62-82 | a push takes every complete frame off the buffer and keeps the rest |
| Sse.DrainInParts | web/src/lib/sse.ts:62-82 | pushing a then b gives what pushing both together gives, and leaves the same buffer |
| Sse.RoundTrip | internal/server/sse.go:68-101 | any sequence of events, comments and retry lines is parsed back as exactly its events in order, with nothing left over |
| Sse.ReadBack | web/src/lib/sse.ts:162-171 | the reader loop gets exactly what was written however the bytes are cut into chunks |
| Sse.PartialRead | web/src/lib/sse.ts:62-82 | what has been read at any moment is a beginning of what was written |
| Sse.EventSurvivesIff | internal/server/sse.go:68-89 | an event survives, with any data at all, exactly when its name has no newline |
| Broker.Conservation | internal/broker/broker.go:116-130 | in every history published = received + waiting + dropped, and received then waiting is in order exactly the messages that found fewer than 32 waiting |
| Broker.FlagSays | internal/broker/broker.go:120-128 | a message finds room exactly when fewer than 32 are waiting |
| Broker.Broker.Subscribe | internal/broker/broker.go:66-77 | a new subscriber joins its topic and no other |
| Broker.Broker.Unsubscribe | internal/broker/broker.go:88-103 | a channel is closed once, only while registered; an emptied topic disappears; a second call changes nothing |
| Broker.Broker.Publish | internal/broker/broker.go:116-130 | reaches every subscriber of the topic once and nobody else, in any iteration order, never on a closed channel |
| Broker.Meanwhile | internal/broker/broker.go:66-130 | whatever others do to the broker reaches a subscriber as exactly the messages of its own topic, in order, and never closes or loses it |
| Broker.Stream | internal/server/sse.go:156-207 | whoever else publishes, joins or leaves meanwhile, the stream ends early only when the client is gone or a write fails; in the turns it completes it relays exactly what it receives, in order, with one keepalive for every tick; the drops told of never exceed the drops, and are all of them after a tick |
| RateLimit.Limiter.Allow | internal/ratelimit/ratelimit.go:66-99 | one call refills the key's bucket for the time since its last reading, up to the burst, a new key starting full; it grants and takes a token exactly if there is one, says how long to wait otherwise, and touches no other key |
| RateLimit.Limiter.Evict | internal/ratelimit/ratelimit.go:110-124 | removes exactly the keys idle longer than the window, and counts them |
| RateLimit.TokensInRange | internal/ratelimit/ratelimit.go:66-99 | a key always holds between 0 and burst tokens, clock readings out of order included |
| RateLimit.RunIsPaid | internal/ratelimit/ratelimit.go:66-99 | what a run of calls keeps about grants inside an interval and tokens in hand |
| RateLimitBound.LimitHoldsIff | internal/ratelimit/ratelimit.go:66-99 | at most burst + rate times length is granted in every interval of readings, for every run at most `late` out of order, exactly when that much time earns at most one token or the burst is below two |
| RateLimitBound.EveryKeyLimited | internal/ratelimit/ratelimit.go:66-99 | the same bound for each key of a shared limiter, whatever calls for other keys come in between |
| RateLimitLate.OutOfOrderExample | internal/ratelimit/ratelimit.go:66-99 | a concrete run whose last reading is late gets six grants at one instant from a burst of five |
| RateLimitWait.RefusalEndsAt | internal/ratelimit/ratelimit.go:66-99 | after any run of calls, a key refused and then left alone succeeds exactly from the announced wait on, measured from the refused call when readings are in order |
| RateLimitWait.TruncatedWaitSuffices | internal/ratelimit/ratelimit.go:96-98 | after any run in order, the truncated duration plus one nanosecond is always enough |
| Eviction.SameAnswers | internal/ratelimit/ratelimit.go:101-124 | with a monotone clock and a window that refills a burst, an evicting limiter answers every history as one that never evicts |
| Eviction.SweptTooSoon | internal/ratelimit/ratelimit.go:101-124 | with a shorter window some history is answered differently |
| Eviction.InvisibleIff | internal/ratelimit/ratelimit.go:101-124 | eviction is invisible exactly when the window refills a burst |
| Eviction.ServerLimiters | internal/server/server.go:120-132 | the rates and bursts of the server's limiters for any settings, those not positive meaning the defaults; with their fifteen minute window they hide eviction exactly from one creation in three minutes and one capture in 900 seconds on |
| EndpointCache.Cache.Get | internal/ingest/cache.go:94-111 | a hit, a cached absence and a miss stay distinct, and an expired entry is dropped by the read |
| EndpointCache.Cache.Put | internal/ingest/cache.go:114-141 | below 10,000 entries, or with an expired one among them, the answer is stored to expire in five seconds, an absence in one; a full map of live entries admits nothing; no other live entry is lost |
| EndpointCache.PutIsHit | internal/ingest/cache.go:94-141 | after a put that found room the slug is a hit with exactly that answer for five seconds, an absence for one, and then no more |
| EndpointCache.Cache.EvictExpired | internal/ingest/cache.go:155-172 | removes exactly the expired entries |
| EndpointCache.StepKeepsInv | internal/ingest/cache.go:192-218 | under concurrent lookups every entry is what the store said to the lookup it came from; failed reads leave no entry; the cap holds |
| EndpointCache.Resolve | internal/ingest/cache.go:192-218 | the store is read exactly on a miss; its answer is returned, and kept unless it is an error |
| EndpointCache.AnsweredFromMemory | internal/ingest/cache.go:94-218 | whatever lookups, changes and clearings come between, what a lookup kept with room to spare answers every lookup of its slug until it expires, unless the slug is forgotten or put again |
| EndpointCache.HitsAreTrue | internal/ingest/cache.go:94-141 | in every run a hit is the store's answer to the lookup of the last admitted put, less than one TTL ago, and the map never outgrows 10,000 |
| EndpointCache.LiveEntryStays | internal/ingest/cache.go:123-138 | a live entry leaves only by expiring, by a forget or by a put of its own slug |
| EndpointCache.ForgetIsFinalIff | internal/ingest/cache.go:143-153 | after a forget every later answer comes from a later read exactly when no lookup of the slug was between its read and its put |
| Pagination.ListRequests | internal/store/requests.go:115-202 | rows of this inbox below the cursor, newest first and at one time the greater id first, as many as the limit from 1 to 200 and otherwise 50; fewer, and no cursor, only when there are no more |
| Pagination.PageIsTop | internal/store/requests.go:140-202 | a page is the greatest rows below the cursor in order; a cursor is offered exactly when more rows matched |
| Pagination.WalkDescends | internal/store/requests.go:133-202 | whatever is inserted or deleted between pages, a walk goes strictly down, so no row comes twice |
| Pagination.WalkIsComplete | internal/store/requests.go:133-202 | a finished walk has every row that was there throughout |
| Pagination.WalkEnds | internal/store/requests.go:133-202 | if nothing is inserted below the cursor a walk ends in no more pages than its rows fill |
| Pagination.CursorRoundTripIff | internal/store/cursor.go:34-56 | a cursor reads back as itself exactly when its id is not empty |
| Pagination.CursorReadsIff | internal/store/cursor.go:39-56 | a text reads as a cursor exactly when it decodes to a time, the first bar and an id that is not empty |
| Retention.ExpiriesTrueIff | internal/store/requests.go:338-382 | in every history of overlapping inserts and changes of retention, each expiry stored or about to be is at every moment the receipt time plus the inbox's retention exactly when every change that alters it commits with no insert for its inbox between its second update and its commit |
| Retention.CommitKeepsIff | internal/store/requests.go:358-382 | a commit of a change keeps every expiry true exactly when it alters nothing or the second update saw every row of the inbox and no insert is under way |
| Retention.StaleExample | internal/store/requests.go:83-90 | a concrete history in which a capture inserted between second update and commit keeps the old expiry |
| Retention.IndexedSweepIsTheJoinIff | internal/store/requests.go:298-327 | the indexed predicate selects what the join over two tables would, at every time, exactly when every stored expiry is true |
| Retention.IndexedSweepIsTheJoin | internal/store/requests.go:298-327 | in every history whose changes of retention are undisturbed the two predicates select the same rows |
| Retention.SetRetention | internal/store/requests.go:338-382 | with statements of others before, between and after its updates: changed, the inbox has the new retention and every capture stored before the call and still there expires by it; an unknown inbox is no error and changes nothing; it fails exactly for hours out of range, a change by another that holds the inbox, or a failing statement, having made no update or taken it back |
| Retention.InsertRequest | internal/store/requests.go:49-103 | whatever others do before it commits, an insert succeeds exactly if its inbox is there and its statement does not fail, and stores the receipt time plus the hours it read |
| Retention.Store.DeleteExpiredRequests | internal/store/requests.go:298-334 | deletes only expired rows, as many as the batch allows, earliest expiry first |
| Retention.SweepBatch | internal/sweeper/sweeper.go:112-138 | a short batch leaves no expired row, and no row deleted expired later than one left |
| Retention.SweepOnce | internal/sweeper/sweeper.go:90-141 | a tick deletes only expired rows, in at most 20 batches; it goes on after every full batch unless it is cancelled or a statement fails, and ending on a short batch leaves no expired row; the database is what its batches and the statements of others between them make of it |
| Retention.SweptWereDue | internal/store/requests.go:298-334 | what a sweep deletes is past its inbox's present retention, in every history whose changes of retention are undisturbed |
| MetricsLabels.EscapedEnds | internal/metrics/metrics.go:106-112 | an escaped value can be read back: it ends at its closing quote |
| MetricsLabels.EscapeSays | internal/metrics/metrics.go:106-112 | backslash, quote and newline are escaped wherever they stand, and nothing else is |
| MetricsLabels.RenderLabels | internal/metrics/metrics.go:80-99 | the builder loop renders the labels in key order |
| MetricsLabels.RenderSays | internal/metrics/metrics.go:80-99 | braces around pairs in key order, a comma between them, each value quoted |
| MetricsLabels.RenderInjective | internal/metrics/metrics.go:80-99 | label sets with identifier names render alike only when they are the same |
| MetricsCounter.NoIncrementLost | internal/metrics/metrics.go:80-180 | in every interleaving of adds under label sets with identifier names, a series reads the sum of what was added under exactly its labels: none is lost in double-checked creation and distinct label sets never share a series |
| MetricsCounter.CounterVec.Add | internal/metrics/metrics.go:147-171 | with any additions by others between its sections, Add adds its amount to its own series and loses none of theirs |
| MetricsCounter.FloatCell.AddFloat | internal/metrics/metrics.go:459-467 | however often others get in between, the loop adds its amount exactly once and keeps theirs |
| MetricsHistogram.FindSlot | internal/metrics/metrics.go:338-344 | the scan finds the first bucket that fits |
| MetricsHistogram.MoveKeepsInv | internal/metrics/metrics.go:324-349 | every atomic step of concurrent observers keeps counts, total and sum in agreement with the observations |
| MetricsHistogram.BucketLines | internal/metrics/metrics.go:387-395 | with observers at work between the loads the lines never decrease, and each lies between what its bucket and those before it held at the start and at the end |
| MetricsHistogram.QuietLines | internal/metrics/metrics.go:371-402 | once observers are done each line counts the observations at or below its bound, the last one all of them, and the sum line is their sum |
| MetricsHistogram.NoObservationLost | internal/metrics/metrics.go:324-369 | in every interleaving of observers under any label sets with identifier names, a label set's lines at rest count the observations made under exactly those labels, and its sum is theirs, double-checked creation included |
| MetricsHistogram.NoSeriesNoObservation | internal/metrics/metrics.go:351-369 | a label set without a histogram has no observation either |
| MetricsHistogram.Quantile | internal/metrics/metrics.go:411-427 | the answer is the least bound with enough observations at or below it, or -1 when no bound has |
| LoadGen.EventKeepsInv | internal/loadgen/loadgen.go:189-255 | in every interleaving of scheduler and workers each due time is saturated or dispatched, and each dispatched job waits, is at work or has one outcome |
| LoadGen.FinishedIsAccounted | internal/loadgen/loadgen.go:258-269 | at the end scheduled = saturated + dispatched unless cancelled, dispatched = sent + build failures = statuses + transport, and latencies = statuses |
| LoadGen.RecordedIsTrue | internal/loadgen/loadgen.go:164-262 | in every run, from its events alone: a due time is saturated exactly when as many jobs wait as there are workers, the responses by status and the failures are those of the events, and each latency runs from the due time of the job its worker picked |
| LoadGen.WaitEnds | internal/loadgen/loadgen.go:190-228 | once the schedule is over, what the workers still do is bounded, and they can do no more exactly when all have exited with every count in place, given that requests return |
| LoadGen.Run | internal/loadgen/loadgen.go:164-262 | the scheduling loop, with workers at work between its turns: every due time comes up unless the run is cancelled, what is recorded is what its events say, and the counts add up |
| Capture.ReadBody | internal/capture/request.go:113-143 | the body is the longest prefix within the limit, truncated says exactly that more was sent, and a failure is reported exactly when the stream breaks within the limit or with the byte that passes it |
| Capture.Forward | internal/ingest/ingest.go:421-484 | a truncated capture is never handed to the tunnel, any other is handed over whole; the code recorded is "too_large" exactly for a truncated capture, "unreachable" exactly for an app not reached, and for each error of the tunnel its own; otherwise the status of the answer is recorded, and nothing when forwarding is off |
| Capture.RecordedCodeIsTrue | internal/ingest/ingest.go:493-506 | in every run of a connection the code recorded for a failed call is true of it: "overloaded" exactly when it never got a slot, and then no frame of it is on the wire; "timeout" only when one is; "disconnected" only when the connection is closed |
| Capture.HandleCapture | internal/ingest/ingest.go:141-312 | something stored is answered 200 or with the relayed response, 502 only for a status out of range, where informational statuses and those without a body reach the provider as net/http sends them; what is forwarded is all that was sent; with the database there to record it, exactly one of status and error is recorded just when an answering app gave a status from 100 to 599 |

## Left out

- Tunnel.Apply: ids are numbered without bound; the 64-bit counter's wrap-around after 2^64 calls on one connection is not modelled.
- Tunnel.Apply: a write that fails may or may not have reached the peer, but never reaches it after it has failed.
- TunnelPeer.Do: what the peer does between reading a frame and answering it (its own slots, the headers it rewrites, the local call) is one arbitrary answer.
- TunnelClient.Send: deadlines are counted in rounds of waiting, not in time. The goroutines' locals and channels are fields of the class, so that one state holds them all.
- RateLimitBound.LimitHoldsIff: tokens and times are real numbers; rounding of float64 and the nanosecond grain of clock readings are not modelled.
- JsonDiff.Diff: scalars are compared as decoded values where the program compares their JSON encodings, and changes carry values; the encoding is taken to be injective on decoded values.
- JsonWalk.Bodies: paths are kept as steps and rendered last; rendered paths are not unique, since keys may contain dots and brackets.
- Retention.Apply: time of a statement is a parameter; rows carry only what retention needs. A delete that overlaps an uncommitted change of retention is taken before or after it.
- Retention.SetRetention: a wait for another change of the same inbox is taken to end in the deadline when that change is still open after the statements that come before.
- MetricsCounter.Apply: counters are unbounded integers and sums real numbers, where the program holds both in 64 bits.
- MetricsHistogram.Quantile: proved for a histogram at rest; called while others observe, its total and slots may disagree.
- Reconnect.AtMostOneLive: a `replaced` frame stays on its way until its peer reads it or loses the connection.
- Capture.HandleCapture: the text of the handler's own answers and the dropped body of an answer to a HEAD request.
- Capture.ReadBody: a limit of 2^63-1, whose successor does not fit the program's 64 bits, is not modelled.
- LoadGen.WaitEnds: a request is taken to return in the end, as the client's timeout has it.
- LoadGen.Run: latencies stay in the order of the responses; the sort at the end and the percentiles read from it are not modelled, nor is the computation of interval and total from the configured rate.
- Parsing and printing of JSON text, base64, time formats and UTF-8 are parameters or taken as injective.
- WebSocket, HTTP, the database driver, tickers, signals and logging appear only as their possible outcomes.
- Authentication, tokens, hashing and the signature checks are not modelled.
- The header diff, host routing, slug validation, hop-by-hop lists, configuration and status classes are single-branch facts.
- `Retry-After` rounding in the capture handler and frame size limits are not claimed.
- The retry delays of the browser's stream and the React components are not modelled.
