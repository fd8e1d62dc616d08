# Verification of the chat overlay server's state machines

The server shows Chzzk chat in a widget, next to the DJ CLASS badge of each viewer. This project models its
in-process state machines in Dafny 4.11 and proves what they keep. It holds:

- the realtime hub: `HubCore` is the state under the hub's mutex, `HubSystem` the steps of widgets, timers,
  workers and shutdown in any order, `HubSafety` and `HubDelivery` the two invariants, `HubTheorems`,
  `HubDeliveryTheorems`, `HubContents` (what each delivered line says), `HubLosses` (why a subscriber misses a message)
  and `HubShutdown` (Close ends) what follows from them, `HubObjects` the hub as mutable objects, each method of which is proved to do what the function of
  `HubCore` does, `Batch` the building of one batch;
- the TTL cache: `TtlCache` over sequences, `TtlCacheObjects` as a map into a doubly linked ring;
- the badge resolver and the link service: `Store` (tables and transactions), `Resolver`, `Link`, `Coherence`
  (whole operations as steps), `CoherenceRaces` (every read, write and invalidation its own step), `CoherenceExact`
  (exactly which changes can leave a stale badge), `CoherenceSeen` (what chat shows after each operation),
  `LinkObjects` (the services as objects);
- the Engine.IO / Socket.IO client: `Eio3Packet`, `Eio3Handshake`, `Eio3Run`;
- the ingest loop and its sessions: `Ingest`, `Session`;
- badge selection (`DjClass`), the rate limiter (`RateLimit`), the emoji tokenizer (`Tokenizer`) and the V-ARCHIVE
  client (`Varchive`).

This checks everything:

```
dafny verify --resource-limit 2000000 --verification-time-limit 0 --warn-contradictory-assumptions dfyconfig.toml
```

## How concurrency, time and libraries appear

A concurrent component is a step system: one step per critical section, channel operation or atomic operation, and
a theorem speaks of every sequence of enabled steps. Where the source mutates objects or loops over variables there
is also a class or a method with loop invariants, and its contract equates the new state with a function of the old
one; the theorems are about those functions. Clocks, the network, the database's I/O errors and the outcomes of
HTTP calls are inputs. JSON is a set of uninterpreted functions; where a proof needs a fact about JSON it is a
precondition of that lemma (an array text begins with a bracket after whitespace, section 2 of RFC 8259; a quoted
string is JSON). Conversions are reals, times are integers and never go back.

A function that computes an answer has beside it a statement of what the answer is, in terms of the tables, the
messages or the frames alone: who is admitted, what stands in each field, which row wins, what is on the wire.

## What turned out different from the comments

- A teardown need not wait the full delay (`internal/realtime/hub.go:172-195`): a callback that already waits for the
  mutex may tear down a channel that was used again meanwhile. `HubTheorems.LateTimerTearsDownEarly` is such a run,
  `HubTheorems.EarlyExactlyWhenLate` says exactly which callbacks do it in any run, and
  `HubTheorems.NoRaceNoEarlyTeardown` that it takes a Subscribe that finds such a callback waiting.
- Invalidating after the commit (`internal/link/link.go:5-6`) does not by itself keep the cache right: a resolution
  that read before the commit and stores after the invalidation leaves a stale entry
  (`CoherenceRaces.RaceLeavesStaleAnswer`). `CoherenceExact` gives the exact condition: a change is safe if every
  resolution of its sender already under way would still give the new answer. Runs of safe changes keep every cached
  answer fresh or its invalidation pending, every unsafe change can be continued into a stale entry, and
  `CoherenceRaces.StaleIsShortLived` bounds how long that lasts.
- A wait right after a reset is not capped by the maximum backoff (`internal/realtime/ingest.go:24-40`):
  `Ingest.WaitClosedForm` holds for it exactly if the minimum is at most the maximum.
- The fixed-window limiter admits at most 2 * limit - 1 requests in any window-long interval, one less than twice the
  limit, and for every limit that many do occur (`RateLimit.WindowBound`, `RateLimit.WindowBoundIsReached`).

## Model

| member | source | states |
|---|---|---|
| HubObjects.Hub.Subscribe | internal/realtime/hub.go:147-170 | ErrClosed exactly when closed, ErrTooManySubscribers exactly when open and at either cap, nothing touched by either; otherwise one more subscription, with an empty open queue, in the set of the channel registered under the id, which is started if it is unknown and whose pending teardown is stopped |
| HubObjects.Hub.Unsubscribe | internal/realtime/hub.go:173-195 | removes the subscription if it is still there, and arms the teardown exactly when it was the last one of an open hub |
| HubObjects.Hub.Teardown | internal/realtime/hub.go:186-194 | the timer's callback deregisters and cancels its own channel exactly if that is still empty and registered under its id |
| HubObjects.Hub.StartChannel | internal/realtime/hub.go:240-249 | a new, empty, uncancelled channel registered under the id, and its two workers added to the WaitGroup |
| HubObjects.Hub.CloseLocks | internal/realtime/hub.go:212-230 | in one critical section, however the map is visited: timers of registered channels stopped, every subscriber listed once, subscriber sets, registry and total emptied; a second call does nothing |
| HubObjects.Hub.CloseQueues | internal/realtime/hub.go:232-237 | every listed queue is open before and closed after, its contents untouched |
| HubObjects.Hub.Inject | internal/realtime/hub.go:199-207 | true exactly for a registered channel, whose buffer then ends with the message |
| HubObjects.Hub.Subscribers | internal/realtime/hub.go:265-273 | the snapshot lists each subscriber exactly once |
| HubObjects.Hub.BuildBatch | internal/realtime/hub.go:326-356 | line j of the first 200 has the id after the last one used plus j, the content, nickname and emojis of message j, and the answer given at its sender's first message, or unlinked without a badge after an error; the resolver is asked once per distinct sender among them |
| Batch.BatchFields | internal/realtime/hub.go:326-356 | these fields say everything about a batch: a list of lines is the batch exactly if it has them |
| HubObjects.Hub.SendAll | internal/realtime/hub.go:315-321 | every subscriber gets the batch unless its own queue holds 64 already |
| HubObjects.Hub.FlushOnce | internal/realtime/hub.go:302-322 | the buffer is empty afterwards; without messages or subscribers nothing else changes; otherwise ids are used up for the batch, which is offered to every subscriber if it can be encoded and to nobody if it cannot |
| Batch.MemoIsInvisible | internal/realtime/hub.go:326-356 | with a resolver that is consistent during the batch, remembering answers gives exactly the per-message map of the first 200 messages, an error shown as unlinked |
| HubSafety.StepKeeps | internal/realtime/hub.go:147-322 | every step of widgets, timers, workers and Close keeps the safety invariant that ties mutex, WaitGroup and snapshots together |
| HubTheorems.NeverPanics | internal/realtime/hub.go:211-249 | in no interleaving is a batch sent on a closed queue, a queue closed twice, or the WaitGroup extended while Close waits |
| HubTheorems.SendersKeepQueuesOpen | internal/realtime/hub.go:232-237 | as long as one flush goroutine is alive, no queue is closed |
| HubTheorems.Bookkeeping | internal/realtime/hub.go:147-195 | the total is the sum of the subscriber sets and within its cap, each set within its own; live subscriptions belong to the registered channel; a registered channel has a pending teardown exactly when it is empty; no channel is torn down twice |
| HubTheorems.SubscribeIsGranted | internal/realtime/hub.go:147-170 | at every step of every run a Subscribe changes nothing exactly if the hub is closed or full, or the id registered and its set full; otherwise a new subscription with an empty open queue joins the channel registered under the id, no teardown is pending there, and no other channel changes |
| HubTheorems.TimersSpareOthers | internal/realtime/hub.go:186-194 | a callback, however late, tears down at most its own channel, exactly when it is empty and still registered, and never a successor under the same id |
| HubTheorems.UnsubscribeTwice | internal/realtime/hub.go:177-179 | a repeated Unsubscribe, and one after Close, change nothing |
| HubTheorems.LateTimerTearsDownEarly | internal/realtime/hub.go:186-194 | a run in which a channel is torn down while the timer of its current idle period is still armed |
| HubTheorems.EarlyExactlyWhenLate | internal/realtime/hub.go:186-194 | in every state of every run a waiting callback tears down early exactly if its timer is no longer the channel's current one, the current one is still armed, and the channel is registered and empty |
| HubTheorems.NoRaceNoEarlyTeardown | internal/realtime/hub.go:156-194 | no teardown is early in a run in which no Subscribe finds the channel's timer expired with its callback still to run |
| HubTheorems.CloseEmptiesTheHub | internal/realtime/hub.go:211-230 | right after the critical section of Close the hub is closed, nothing is registered, nobody is subscribed, and no timer of a channel that was registered is armed |
| HubTheorems.CloseEndsExactlyTheLive | internal/realtime/hub.go:211-237 | after Close exactly the queues not unsubscribed before it are closed, no channel is registered and no worker is left |
| HubShutdown.ShutdownMustEnd | internal/realtime/hub.go:232-263 | once Close has begun, in every continuation, whatever widgets, timers and the session do, the hub's own goroutines take no more steps than are left to do plus one per further drain, and until Close has ended one of them can be taken |
| HubShutdown.ShutdownNeverStuck | internal/realtime/hub.go:232-237 | from every state of every run in which Close has begun, the hub's own goroutines alone can bring it to its end |
| HubDelivery.StepKeeps | internal/realtime/hub.go:251-322 | every step keeps the delivery invariant over buffers, batches, ids and queues |
| HubDeliveryTheorems.PushesAreConserved | internal/realtime/hub.go:251-263 | all drained batches followed by the buffer are the pushes to the channel, in order |
| HubDeliveryTheorems.WidgetSeesSubsequence | internal/realtime/hub.go:302-322 | what a widget is sent is a subsequence of what was pushed to its channel |
| HubDeliveryTheorems.WidgetSeesIncreasingIds | internal/realtime/hub.go:326-356 | message ids strictly increase along everything one widget is sent |
| HubDeliveryTheorems.IdsAreUnique | internal/realtime/hub.go:85 | two delivered messages with one id are the same message of the same channel, whichever widgets got them |
| HubLosses.EveryLossHasACause | internal/realtime/hub.go:265-331 | a finished flush took its snapshot at one step of the run: it had no subscribers exactly if the channel had none at that step, and otherwise, unless encoding failed, exactly the subscribers of that step got its first 200 messages or a recorded drop with 64 batches in their own queue |
| HubLosses.LiveSubscribersAreServed | internal/realtime/hub.go:265-331 | forwards: who is subscribed when a flush takes its snapshot ends with its first 200 messages, a drop with 64 batches queued, or a batch that could not be encoded for anybody |
| HubLosses.SnapshotIsComplete | internal/realtime/hub.go:265-273 | in every run a snapshot names exactly the subscribers of its channel at that step, and is empty exactly if there are none |
| HubContents.DeliveredLines | internal/realtime/hub.go:302-356 | in every run a batch that a widget got shows the first 200 drained messages, each line with the content, nickname and emojis of its message, and with the answer that some step of the run got from the resolver at the first message of that sender in that flush, an error shown as unlinked without a badge |
| HubDeliveryTheorems.OneAnswerPerSender | internal/realtime/hub.go:324-342 | within one delivered batch a sender is shown one way, even if the resolver changes its mind meanwhile |
| HubDeliveryTheorems.QueueIsTheUnreadTail | internal/realtime/hub.go:315-321 | a queue holds the last accepted batches in order, at most 64 |
| TtlCacheObjects.Cache.Get | internal/ttlcache/ttlcache.go:35-50 | the map and the linked list act as one sequence of entries: an unexpired hit, or the entry dropped at its expiry |
| TtlCacheObjects.Cache.Set | internal/ttlcache/ttlcache.go:54-67 | overwrites in place, or appends after evicting the front of a full cache |
| TtlCacheObjects.Cache.Delete | internal/ttlcache/ttlcache.go:69-75 | removes the key's entry and nothing else |
| TtlCacheObjects.List.Remove | internal/ttlcache/ttlcache.go:83-86 | unlinks one node and keeps the ring doubly linked in order |
| TtlCache.NeverOverfull | internal/ttlcache/ttlcache.go:54-67 | after any history keys are distinct and at most max entries are held |
| TtlCache.HitIsLatestSet | internal/ttlcache/ttlcache.go:35-75 | after any history a hit at t returns the value of the latest Set of the key, with t before that Set's expiry and no Delete of the key since |
| TtlCache.GetAnswers | internal/ttlcache/ttlcache.go:35-50 | an entry is returned exactly until its expiry, is gone after a Get at or past it, and no other entry is touched |
| TtlCache.DeleteTakesOne | internal/ttlcache/ttlcache.go:69-75 | a Delete leaves exactly the entries of the other keys |
| TtlCache.FoundUntilExpiry | internal/ttlcache/ttlcache.go:35-67 | what was set is found again: a Get returns the value exactly before the expiry, in any run that neither sets, deletes nor reads it expired and inserts fewer than max absent keys |
| TtlCache.Survives | internal/ttlcache/ttlcache.go:54-67 | an entry neither deleted nor read past its expiry survives any run in which the younger entries and later insertions of absent keys stay fewer than max |
| TtlCache.SurvivesInsertion | internal/ttlcache/ttlcache.go:54-67 | in particular any run with fewer than max insertions of absent keys after its own |
| TtlCache.PushedOut | internal/ttlcache/ttlcache.go:54-81 | whatever the operations, an entry is gone after one eviction more than there are older entries, unless its key is inserted anew |
| TtlCache.FullCachePushesOut | internal/ttlcache/ttlcache.go:63-66 | so the bound of Survives is sharp: in a full cache that many insertions of other keys push the entry out |
| TtlCache.OldestFirst | internal/ttlcache/ttlcache.go:54-67 | after any history the entries stand in the order of their insertion, whatever was overwritten since |
| TtlCache.EvictsTheOldest | internal/ttlcache/ttlcache.go:63-66 | a Set into a full cache drops a key exactly if no other key present was inserted before it |
| Store.ListedRows | internal/store/db/queries.sql.go:203-235 | listing a user's classes gives each stored row once, by button |
| Store.SyncStoresTheFetch | internal/store/db/queries.sql.go:305-314 | delete followed by upserts in one transaction leaves exactly the given classes, and links and users untouched |
| Store.ExecAllKeepsOk | internal/store/store.go:98-115 | a committed transaction keeps the declared constraints |
| LinkObjects.Database.WriteTx | internal/store/store.go:98-115 | every statement takes effect, or none |
| LinkObjects.BadgeResolver.Read | internal/resolver/resolver.go:71-109 | a sender without an active link is unlinked, one without stored classes unsynced; otherwise the automatic badge is that of the highest stored row, and the viewer's that of the row of the preferred button if there is one, else the automatic one |
| Resolver.FreshDisplays | internal/resolver/resolver.go:71-109 | the same of a fresh resolution as a function of the tables |
| Resolver.AutoIgnoresPreference | internal/resolver/resolver.go:91-107 | the automatic badge is the same whatever is preferred |
| LinkObjects.BadgeResolver.Resolve | internal/resolver/resolver.go:56-69 | the cached answer, or a fresh one that is then cached for a time that depends on its status; fails exactly on a read error after a miss, and then caches nothing; while cache and tables agree, the answer displays what the tables hold, as for Read |
| LinkObjects.LinkService.Connect | internal/link/link.go:56-71 | nothing happens if V-ARCHIVE or the write refuses; otherwise the link is stored and active, the badge invalidated, and the first sync follows |
| LinkObjects.LinkService.Sync | internal/link/link.go:74-83 | not linked exactly without an active link; otherwise a sync under the linked nickname |
| LinkObjects.LinkService.SyncUser | internal/link/link.go:87-122 | an empty fetch keeps the rows and reports stale if there were any; otherwise the rows are replaced, the badge is invalidated and the best fetched class reported |
| LinkObjects.LinkService.Unlink | internal/link/link.go:126-146 | nothing without an active link; otherwise inactive link, no classes, automatic badge, invalidated cache |
| LinkObjects.LinkService.SetPreferredButton | internal/link/link.go:150-174 | stores none or a button that the user has a class for, and refuses anything else without a write |
| LinkObjects.LinkService.SyncAll | internal/link/link.go:177-201 | the tables, the cache and both counters after syncing the active links one after the other until the context ends |
| Link.SyncAllServesEveryLink | internal/link/link.go:176-200 | one bad link never stops the daily sync: every user with an active link at its start ends with exactly its own fetch, or its old rows if that was empty or its write failed, and nobody else's rows change |
| Link.EveryLinkIsTried | internal/link/link.go:184-200 | the same for each place of any list of links, one per user |
| Link.SyncEachKeepsCoherent | internal/link/link.go:176-200 | the batch keeps the cache in agreement with the tables |
| Link.SyncUserAnswers | internal/link/link.go:87-122 | an empty fetch is not ok and stale exactly if there are rows; any other is ok, not stale, and reports a fetched class that no other outranks; a failed access is an error and changes nothing |
| Link.SyncEachCounts | internal/link/link.go:191-199 | successes and failures add up to the links tried |
| Link.SyncEachCountsSuccesses | internal/link/link.go:184-200 | the first counter counts exactly the links with a fetch that was not empty and a write that did not fail, the second the others |
| Link.PreferenceIs | internal/link/link.go:150-165 | automatic is meant exactly by the empty text and "auto"; a button is only ever one that the user has a class for, and the decimal number of such a button is accepted |
| Link.ParseIntReadsBack | internal/link/link.go:152-156 | parsing undoes decimal writing, with or without a sign, for all that fits 64 bits |
| Link.ParseIntRefuses | internal/link/link.go:152-156 | anything but digits after an optional sign is refused |
| Link.PreferenceCommits | internal/link/link.go:150-172 | an accepted preference never violates the table's constraint |
| Coherence.CachedAnswersAreFresh | internal/resolver/resolver.go:56-115 | after any run of resolutions, link operations, logins, expiries and evictions, every answer equals a fresh resolution |
| CoherenceSeen.AnswersDisplay | internal/resolver/resolver.go:56-115 | after any such run every answer displays what the tables hold: unlinked, unsynced, or both badges from the stored rows |
| CoherenceSeen.AnswersAreKept | internal/resolver/resolver.go:25-69 | an answer after a miss is a hit for exactly five minutes if linked, 15 seconds if unsynced, 10 if unlinked |
| CoherenceSeen.PreferenceIsShown | internal/link/link.go:150-174 | from every state in which cache and tables agree: after an accepted preference, until the user's own next change, every resolution shows the viewer the badge of that button's row, beside the automatic badge of the highest row |
| CoherenceSeen.AutomaticIsShown | internal/link/link.go:150-174 | after the automatic preference the viewer is shown the automatic badge |
| CoherenceSeen.ConnectIsShown | internal/link/link.go:56-71 | after a connect every resolution is linked, or unsynced without classes |
| CoherenceSeen.SyncIsShown | internal/link/link.go:96-110 | after a sync of a linked user every resolution builds its badges from exactly the fetched classes |
| CoherenceSeen.UnlinkIsShown | internal/link/link.go:126-146 | after an unlink every resolution answers unlinked without a badge, and there is no active link to sync |
| Coherence.OthersKeepTheirAnswer | internal/link/link.go:56-174 | statements for one user change no other sender's answer |
| Coherence.LoginKeepsAnswers | internal/store/db/queries.sql.go:337-343 | a login upsert, which invalidates nothing, changes nobody's answer |
| Coherence.HighestIsTheAutoBadge | internal/link/link.go:116-121 | after a sync of a linked user without interleaving writes, the reported highest class is the row behind the automatic badge |
| Coherence.SyncReadsBack | internal/link/link.go:96-110 | the rows read back after a sync are exactly the fetched classes |
| CoherenceRaces.StepKeeps | internal/resolver/resolver.go:56-115 | with reads, commit, invalidation and Set as separate steps, every entry and every resolution not overtaken by a change of its sender stays right |
| CoherenceRaces.StaleIsShortLived | internal/resolver/resolver.go:25-29 | whatever interleaves, an answer from the cache was set less than five minutes ago if it is linked, 15 seconds if unsynced, 10 if unlinked, and not invalidated since |
| CoherenceRaces.CalmMeansFresh | internal/link/link.go:5-6 | if no change commits while its own sender is being resolved, every cached answer is fresh or its invalidation is pending |
| CoherenceExact.SafeChangesKeepTheCacheRight | internal/link/link.go:5-6 | in every run in which a sender's changes commit safely, its cached answer is fresh or an invalidation for it is pending |
| CoherenceExact.UnsafeChangeGoesStale | internal/resolver/resolver.go:60-69 | an unsafe change, in any reachable state, can be followed by reads, its invalidation and one Set that leave a wrong entry, nothing of this change being pending |
| CoherenceExact.SafeExactlyIfNeverStale | internal/resolver/resolver.go:60-69 | after a run of safe changes a further change keeps the cache right under every safe continuation if and only if it is safe |
| CoherenceExact.EarlyResolutionsAreSafe | internal/resolver/resolver.go:60-71 | a change is safe if each resolution of its sender under way, if any, has yet to read anything |
| CoherenceRaces.RaceLeavesStaleAnswer | internal/resolver/resolver.go:60-69 | a run that ends with a stale cached answer and nothing pending |
| Eio3Packet.ParseSocketPacket | internal/chzzk/eio3/eio3.go:261-306 | the imperative parser, with its digit-skipping loop, computes the parse that the lemmas below are about |
| Eio3Packet.ParsingUndoesEncoding | internal/chzzk/eio3/eio3.go:261-306 | every event, with any acknowledgement id and any default-namespace prefix, is delivered as it was encoded |
| Eio3Packet.DeliveredExactlyIfEncoded | internal/chzzk/eio3/eio3.go:292-305 | an event packet is delivered exactly if it is such an encoding |
| Eio3Packet.ClosesExactly | internal/chzzk/eio3/eio3.go:261-282 | exactly a disconnect of the default namespace closes |
| Eio3Packet.OthersAreIgnored | internal/chzzk/eio3/eio3.go:266-291 | packets of another namespace or type neither deliver nor close |
| Eio3Packet.ErrorsAreEvents | internal/chzzk/eio3/eio3.go:283-288 | an error packet is an "error" event with one argument: the packet's own text if that is JSON, and otherwise that text quoted |
| Eio3Handshake.Dial | internal/chzzk/eio3/eio3.go:129-168 | succeeds exactly on an open packet with positive timings, then pings and noops, then a connect; otherwise names the first frame that is wrong; writes one pong per ping before that |
| Eio3Handshake.CompletesMeans | internal/chzzk/eio3/eio3.go:129-168 | on the wire: a "0" frame that decodes to positive timings, then frames beginning with "2" or "6", then "40" or one beginning with "40{" |
| Eio3Handshake.OpenErrorMeans | internal/chzzk/eio3/eio3.go:129-147 | which of the three errors a wrong first frame gets |
| Eio3Handshake.CompletesOnce | internal/chzzk/eio3/eio3.go:148-168 | at most one frame can complete the handshake |
| Eio3Handshake.PongsAnswerPings | internal/chzzk/eio3/eio3.go:159-162 | exactly one pong per ping, in order and with its payload |
| Eio3Run.Run | internal/chzzk/eio3/eio3.go:180-249 | the two-timer loop hands over, writes and ends as the automaton says |
| Eio3Run.SilenceEndsTheSession | internal/chzzk/eio3/eio3.go:204-227 | the deadline is at most interval plus timeout after the last handled frame, so a running session has never been silent for longer |
| Eio3Run.TimeoutsMeanSilence | internal/chzzk/eio3/eio3.go:204-227 | a session times out only if no frame was handled for interval plus timeout, or none since a ping sent a timeout ago |
| Eio3Run.WritesAre | internal/chzzk/eio3/eio3.go:209-235 | what is written, if the writes succeed, is exactly "2" for each ping timer and, for each frame "2" with a payload, "3" with that payload |
| Eio3Run.ClosesMeans | internal/chzzk/eio3/eio3.go:225-246 | exactly the frames beginning with "1", and with "41" for the default namespace, close |
| Eio3Run.CarriesMeans | internal/chzzk/eio3/eio3.go:236-246 | a "42" frame carries exactly the event that it encodes, a "44" one of the default namespace an "error" event, and no other frame any |
| Eio3Run.PromptPongsNeverTimeOut | internal/chzzk/eio3/eio3.go:218-230 | if every ping gets its pong handled in less than the timeout, the session never times out |
| Eio3Run.PingsAtMostOneAhead | internal/chzzk/eio3/eio3.go:220-230 | pings sent exceed pongs handled by at most one |
| Eio3Run.PingCadence | internal/chzzk/eio3/eio3.go:175-179 | a ping goes out exactly one interval after the last pong or the start |
| Eio3Run.NeverStuck | internal/chzzk/eio3/eio3.go:209-227 | in a running session time can pass or an expired timer can be served |
| Eio3Run.HandsOverEventsBeforeClose | internal/chzzk/eio3/eio3.go:225-246 | a session ended by a close has handed over exactly the events of the frames before the first close, any other a prefix of them |
| Ingest.Loop | internal/realtime/ingest.go:23-42 | the waits are those of the doubling backoff, counted from the last healthy session, with the reset before the wait |
| Ingest.LastReset | internal/realtime/ingest.go:14-34 | the wait counts from the last session that lasted healthyAfter or longer, or from the start |
| Ingest.WaitingIs | internal/realtime/ingest.go:25-41 | every turn before the first cancelled one waits, and the loop ends where it is cancelled |
| Ingest.WaitClosedForm | internal/realtime/ingest.go:33-40 | a wait is min(minimum * 2^j, maximum) for j waits since the reset, for j = 0 exactly if the minimum is at most the maximum |
| Ingest.TotalClosedForm | internal/realtime/ingest.go:33-40 | for all minima and maxima, n waits without a reset total minimum * (2^a - 1) + maximum * (n - a), with a the first positive number of doublings that reaches the maximum, or n |
| Ingest.StretchTotals | internal/realtime/ingest.go:33-40 | any stretch of the loop between two resets takes that total |
| Session.NoSilentConnection | internal/realtime/ingest.go:69-114 | for every connected event with a key some attempt is running or scheduled, or a call of its task returned with success, or its context has ended; a task is subscribed exactly if a call returned with success; never more than three calls |
| Session.ThreeFailuresEndTheSession | internal/realtime/ingest.go:101-114 | three calls of one task that fail leave its session with a cause or over; with fewer, no success and a live context the task is still trying |
| Session.ThirdFailureIsTheResult | internal/realtime/ingest.go:92-114 | the third failure in a live context is the cause, and then the result of the session |
| Session.NoKeyEndsTheSession | internal/realtime/ingest.go:76-79 | a connected event without a key ends its session's context with that cause, unless something ended it before |
| Session.GivingUpIsTheResult | internal/realtime/ingest.go:92-95 | after a task gave up or failed three times the session returns a cause set by fail, unless the parent ended |
| Session.FirstCauseStays | internal/realtime/ingest.go:66-95 | the first cause of a session's context is the one it keeps |
| Session.EndedContextsStopTasks | internal/realtime/ingest.go:103-106 | a call that fails after its context has ended stops its task and changes nothing else |
| Session.NoSessionAfterTheParent | internal/realtime/ingest.go:25-30 | once the parent context has ended no further session begins |
| Session.OwnCauseOnlyFromFail | internal/realtime/ingest.go:92-95 | such a cause is only ever a missing key or a task that did give up |
| Session.UrlsAreSingleUse | internal/realtime/ingest.go:44-56 | every dial uses a URL that its own session fetched, and no URL is dialed twice |
| Session.Subscribe | internal/realtime/ingest.go:101-114 | subscribed exactly if the last call succeeded, stopped exactly if it failed in an ended context, given up exactly after three failures in a live one; retried exactly while calls fail and the context lives, after one minimum backoff and then two |
| RateLimit.Limiter.Allow | internal/ratelimit/ratelimit.go:39-64 | sweeps an overfull map, clears it if that is not enough, then counts or opens the key's bucket; the map never exceeds its bound by more than one |
| RateLimit.NeverOverfull | internal/ratelimit/ratelimit.go:43-52 | in all runs the map holds at most 10001 keys |
| RateLimit.SweepMeans | internal/ratelimit/ratelimit.go:43-52 | nothing is taken up to 10000 keys; beyond that the finished windows go, and everything goes if more than 10000 are left |
| RateLimit.EvictionIsInvisible | internal/ratelimit/ratelimit.go:43-52 | without a hard clear every answer is that of a limiter that never evicts |
| RateLimit.AdmittedExactly | internal/ratelimit/ratelimit.go:53-63 | without a hard clear a request is admitted exactly if it is among the first limit of its key in its window, windows beginning with the first request at or after the end of the last one |
| RateLimit.SweepChangesAnswerExactly | internal/ratelimit/ratelimit.go:43-52 | a sweep changes an answer exactly if it clears the map while the key's own window is unfinished and used up |
| RateLimit.WindowBound | internal/ratelimit/ratelimit.go:53-63 | any half-open interval one window long admits at most 2 * limit - 1 requests of a key |
| RateLimit.WindowBoundIsReached | internal/ratelimit/ratelimit.go:53-63 | for every limit, and every window of at least two ticks of the clock, a run reaches that number |
| DjClass.Resolve | internal/djclass/djclass.go:181-199 | none without rows; the first row with the wanted button for a viewer who has one; else the row on top: no row has a better rank of the table, or the same rank and a better level (theory, I, II, III, IV, none), or the same level and a better button (8, 5, 6, 4), and no row before it is as good |
| DjClass.FindBest | internal/djclass/djclass.go:190-198 | the loop finds the first row that no row exceeds |
| DjClass.OrderDoesNotMatter | internal/djclass/djclass.go:153-199 | with one row per real button the choice does not depend on row order |
| DjClass.TheoryIsRaw | internal/djclass/djclass.go:104-117 | a badge is at theory exactly on the raw conversion, and its power never exceeds 10000 |
| DjClass.ParsingUndoesWriting | internal/djclass/djclass.go:119-135 | button, rank and level written together parse back into the rank and the level |
| DjClass.DocumentedOrder | internal/djclass/djclass.go:153-199 | for texts written from a rank of the table, a level and a button, a row is never shown while there is another that the documented order puts before it |
| DjClass.BadgeOfWriting | internal/djclass/djclass.go:98-221 | each field of the badge of such a text: button, short rank, short rank with level, floor of the conversion or 10000 at theory, the table's threshold |
| DjClass.UnknownRanksKeepTheirName | internal/djclass/djclass.go:135-221 | a rank outside the table is shown by its own name and has no threshold |
| DjClass.NoRankIsBeginner | internal/djclass/djclass.go:119-126 | a blank text counts as BEGINNER, the lowest rank |
| DjClass.FloorsFollowRanks | internal/djclass/djclass.go:42-57 | a badge with a higher rank has a higher power floor |
| Tokenizer.AppendContent | internal/web/static/overlay/widget.js:133-155 | the loop over matches appends exactly the rendered tokens of the content |
| Tokenizer.EachTokenIsShown | internal/web/static/overlay/widget.js:133-155 | in the rendering every token has its place: a text is a text node, a known key its image, an unknown key nothing |
| Tokenizer.WordCharacters | internal/web/static/overlay/widget.js:132 | a key has digits, letters, underscores and hyphens of ASCII |
| Tokenizer.PrintingUndoesTokenizing | internal/web/static/overlay/widget.js:132-155 | texts and placeholders in order concatenate back to the content |
| Tokenizer.TokensAreNormal | internal/web/static/overlay/widget.js:132-155 | no text slice is empty or holds a complete placeholder, no two texts are adjacent, every key is a word |
| Tokenizer.TokenizingUndoesPrinting | internal/web/static/overlay/widget.js:132-155 | tokenizing the printed form of any such list gives the list back |
| Varchive.SlotsAreRequestsInFlight | internal/varchive/varchive.go:63-70 | for any number of callers the taken slots are the requests in flight, at most eight; a waiting request can take one exactly if there are fewer than eight; a cancelled waiter holds none and a finished request can always give its slot back |
| Varchive.AllDjClasses | internal/varchive/varchive.go:142-160 | for every completion order the result is that of a sequential fetch |
| Varchive.SequentialHas | internal/varchive/varchive.go:117-137 | a class is returned exactly if its own button's request returned it |
| Varchive.FetchedExactly | internal/varchive/varchive.go:117-160 | that is: exactly if the reply to its button was status 200 with a body of success and a class, whose figures it has |
| Varchive.FetchIsSubsequence | internal/varchive/varchive.go:152-159 | the buttons fetched are a subsequence of 4, 5, 6, 8 |

## Left out

- HTTP handlers, OAuth, cookies, templates, middleware, static files and `cmd/server`: plumbing and user interface.
- The websocket, JSON, SQLite, migration and session libraries: their results are inputs or uninterpreted functions.
- Encryption, configuration, snapshots, session storage, the Chzzk API client, tokens, chat extraction, the schedule: mostly library calls.
- `SocketURL`, `DecodeArg`, `LookupUser`, `Card`, `ClientIP`, logging and redaction: only easy claims.
- All of `widget.js` except the tokenizer. An emoji lookup is a function from keys to addresses, so inherited object properties are whatever that function says.
- The database's row ids: a user's id is its place in the table, and users are never deleted. The timestamps of rows are left out.
- HubSystem lets any channel ever created be pushed to at any time, which covers both the ingest goroutine and Inject.
- HubSystem treats the caps as given: at least one subscriber per channel and a total that is not negative.
- HubObjects.Hub.BuildBatch: describes one uninterrupted call, so ids are consecutive; HubSystem issues them one at a time in any interleaving, and there they only increase.
- HubObjects.Hub.FlushOnce: describes one uninterrupted call; the interleaved one is in HubSystem.
- HubObjects.Hub.Subscribers: the order in which the runtime visits a map is left open.
- Eio3Run.Run: a handler takes no time, and a timer that has expired is served before time passes.
- Eio3Run.PromptPongsNeverTimeOut: one direction, because other frames also push the deadline, so a late pong need not end a session.
- CoherenceRaces.CalmMeansFresh: one direction, as the simple sufficient case; the exact condition is CoherenceExact.SafeExactlyIfNeverStale.
- HubTheorems.EarlyExactlyWhenLate: says when a teardown is early, not by how much; the delay itself is left out.
- HubShutdown.ShutdownMustEnd: the exit of a cancelled ingest goroutine is one step; which of several ready channels a select takes is open, so a flusher may keep draining as long as messages keep arriving.
- RateLimit.WindowBound: for a clock that does not go back, positive windows, one limit and window per scope, and runs without a hard clear, after which counting starts over.
- Session.NoSilentConnection: says that an attempt is under way or scheduled, not that the network answers.
- Varchive.AllDjClasses: each request is one step that fills its own slot of the results; the slots of the semaphore are modelled apart from it.
- Text is a sequence of characters; the source's strings are bytes, which makes no difference to the ASCII characters that the parsers look for.
