# A model of the woongkie-talkie chat server

The server keeps one goroutine, a hub, per chat room. A hub selects among
registrations, messages of its own clients, messages from Redis, its idle timer
and its stop channel, and fans every message out to bounded per-client queues.
Readers persist text messages through a shared queue with four batching workers
before they hand them to the hub. A Redis broker connects the hubs of several
servers and falls back to local delivery when the connection fails. Around this
stand the stores (rooms and messages in MongoDB, presence in Redis), two limiters
and the browser's offline queue.

Each part is modelled twice. A state machine on values (`Enabled`, `Apply`, runs)
has one step for each locked section, channel operation, Redis command or MongoDB
call, so that its runs are all interleavings; the theorems are about every run.
Lemmas named `What...Does` say what a step does field by field, without the step
function, so that a step that did something else, or nothing, would not meet them.
Beside it stands the code in its own form, classes and methods with loops, and
every method is proved to have the effect of its step: the classes carry a ghost
`model`, and `Valid` ties each mutable field to it.

| file | module | part of the system |
|---|---|---|
| `messages.dfy` | Messages | wire messages, the Redis whitelist, personalisation |
| `hub_machine.dfy` | HubMachine | one hub with its clients, send queues and log |
| `hub_effects.dfy` | HubEffects | what each action of a hub does, field by field |
| `hub_presence.dfy` | HubPresence | PRESENCE events and the online set over several tabs |
| `hub_runtime.dfy` | HubRuntime | the hub's code |
| `cluster.dfy` | Cluster | several servers sharing a room through Redis |
| `frames.dfy` | Frames | what readPump makes of one frame |
| `pipeline.dfy` | Pipeline | readers, insert queue, workers, InsertManyChat |
| `broker.dfy` | Broker | subscriptions through failure and recovery |
| `presence.dfy` | Presence | the SET and the expiring keys in Redis |
| `room_manager.dfy` | RoomManager | which hub serves a room, and how hubs end |
| `rooms.dfy` | Rooms | membership, capacity, ownership |
| `room_order.dfy`, `room_races.dfy` | RoomOrder, RoomRaces | join order over runs; ownership under interleaving |
| `chat_docs.dfy`, `chat_lifecycle.dfy`, `paging.dfy` | ChatDocs, ChatLifecycle, Paging | stored messages: edit, delete, scroll back |
| `rate_limit.dfy`, `conn_limit.dfy` | RateLimit, ConnLimit | token buckets; connections per address |
| `offline_queue.dfy` | OfflineQueue | the browser's queue while the socket is down |
| `seqs.dfy` | Seqs | filtering, flattening and bags of sequences |

## Where a hoped-for property fails

In each case the code is modelled as it is, and a theorem gives the exact condition
under which the property holds.

- Warnings go straight from a reader into Send. The process panics if and only if a
  warning comes after Send was closed (`HubMachine.PanicsExactlyOnLateWarning`); a hub
  that stops before its client's reader warns is enough (`LateWarningPanics`).
- Redis-online is not "connected": a connected user is missing if and only if a tab of
  theirs was evicted, or their entry expired, since they last registered
  (`HubPresence.OnlineExactly`, `EvictionHidesOtherTabs`).
- An ANNOUNCE is outside the whitelist, so it is seen if and only if it could not be
  published (`Cluster.UnlistedSeenExactlyWhenUnpublished`).
- A run of the broker leaks a duplicate PubSub if and only if the recovery loop
  overwrites a subscription made in the meantime (`Broker.NoLeakExactly`).
- A hub hears Redis if and only if the last Subscribe or Unsubscribe for its room was its
  own Subscribe at a moment outside fallback (`Broker.HearsExactly`): a hub that started
  in fallback, whose Subscribe came just too late, or whose predecessor unsubscribes
  late, stays deaf through every recovery.
- GetOnlineUsers is three round trips. Its sweep hides a live user if and only if a user
  it found stale has come online in between (`Presence.SweepSafeExactly`), and that user
  stays hidden (`SweptUserStaysHidden`).
- The idle branch does not check whose hub it removes; the map and the stop channels stay
  right if and only if it removes its own (`RoomManager.KeptExactlyWhenGuarded`).
- LeaveRoom decides on an old snapshot. Rooms stay owned by a member, and none is removed
  with somebody in it, if and only if no step of the run is one of three stale ones
  (`RoomRaces.OwnershipExactly`); each of the three happens (`HeirLeavesMeanwhile`,
  `LeaverBecomesOwner`, `JoinerLosesRoom`).
- A page boundary that splits messages of one timestamp loses the rest of them for good,
  and scrolling is complete if and only if there is none
  (`Paging.CompleteExactlyWithoutSplitTies`). InsertManyChat stamps a batch with
  consecutive clock readings, which MongoDB keeps to the millisecond.
- The first page of a room is its oldest, so a user can reach the whole room if and only
  if it has at most 100 undeleted messages (`Paging.WholeRoomExactlyUpTo100`).
- readPump asks its limiter before it waits for the insert queue and the hub. Its
  broadcasts stay within 15 plus one per second, whatever the schedule, if and only if no
  call is held up for a whole second (`RateLimit.FifteenExactly`); 16 plus one per second
  always holds (`BroadcastWindow`).
- A cleanup between looking an entry up and adding to it splits an address into two
  counters (`ConnLimit.MappedExactlyWhenSpared`).
- A payload for another room than the socket's overtakes queued ones unless only copies
  of it are queued (`OfflineQueue.ForeignSendOvertakes`).

Comments that disagree with the code they stand beside, where the model follows
the code: `server/middleware/ratelimit.go:84` says 100 requests a minute, the limiter
allows 300; `server/handler/ws_client.go:253` says 30 messages a minute, the limiter
allows 60 with a burst of 15; `pkg/mongoDB/chat.go:210` says the latest 100 messages,
the query returns the oldest 100, so the trimming to 256 in
`server/handler/ws_handler.go:35` never acts.

## Premises

Channel operations and sections under a mutex are atomic. Redis delivers a room's
published messages to every subscription in one order, and a Publish that reports an
error published nothing. In `cluster.dfy` every running hub is subscribed since its
start; `broker.dfy` says when that is so. A conditional update of one MongoDB document is atomic, and
separate calls are separate steps unless a member says otherwise. Time is an integer
clock. Serialising a message and reading it back gives the message. Room ids contain
no colon (they are hexadecimal).

## Model

| member | source | states |
|---|---|---|
| HubMachine.NoSilentGap | server/handler/hub.go:122-181 | in every run, what the hub wrote into a client's Send is the personalised projection of one contiguous stretch of the log, which begins with the client's own PRESENCE event and reaches the message being fanned out for as long as the client is in Clients; Clients holds exactly the registered clients whose Send is open; no queue exceeds 256 |
| HubMachine.CopiesAreFaithful | server/handler/hub.go:272-296 | in every run a client's messages from the hub are, in order and field by field, copies of the messages of its stretch: same event, user, room, extras and origin, owned if and only if its user is the sender, the text unchanged except for the sentences of OPEN and CLOSE; a message is left out if and only if it is that user's own typing event |
| HubMachine.HistoryIsFaithful | server/handler/ws_handler.go:30-56 | a new client's Send holds the latest 256 stored messages in their order, each marked as history and as owned by its sender only |
| HubMachine.InvKept | server/handler/hub.go:86-219 | every branch of the hub, every single send of a fan-out, every reader and writer action keeps the invariant behind NoSilentGap |
| HubMachine.StartsAtRegistration | server/handler/hub.go:122-149 | the first log entry a client is owed is the PRESENCE online event of its own registration |
| HubMachine.WireSeesPrefix | server/handler/ws_handler.go:30-62 | what writePump has taken is a prefix of that projection, and all history precedes all live messages |
| HubMachine.NothingAfterClose | server/handler/ws_client.go:116-118 | once Send is closed, no later action of the run puts anything into it, reopens it or returns the client to Clients |
| HubMachine.PanicsExactlyOnLateWarning | server/handler/ws_client.go:261-264 | the runtime panics in a step if and only if a reader warns a client whose Send is closed; the hub itself never sends on a closed channel |
| HubMachine.LateWarningPanics | server/handler/ws_client.go:307-316 | from any reachable state whose hub is at its select with a connected client a panic is reachable |
| HubMachine.AnyOrderSameFanout | server/handler/hub.go:262-296 | a fan-out has the same effect, evictions included, in whatever order the snapshot of the Clients map lists its clients |
| HubMachine.FanoutKeeps | server/handler/hub.go:244-315 | a whole broadcastLocal keeps the invariant and returns the hub to its select |
| HubEffects.WhatFanoutDoes | server/handler/hub.go:244-315 | after a fan-out each client has its copy at the end of its queue, or is skipped for its own typing event, or, with 256 unread, is closed and gone from Clients; no other connection changes |
| HubEffects.WhoFanoutHides | server/handler/hub.go:298-314 | exactly the users with a client that refused the message leave the online set |
| HubEffects.WhatRegisterDoes | server/handler/hub.go:132-149 | the client is in Clients, its user online, and the PRESENCE online message is what the log and the fan-out get |
| HubEffects.WhatUnregisterDoes | server/handler/hub.go:151-181 | the client is closed and out of Clients; if and only if no other tab of the user remains, the user leaves the online set and PRESENCE offline goes out |
| HubEffects.WhatOfferDoes | server/handler/hub.go:272-296 | one send of a fan-out changes one connection and the list of the slow only |
| HubEffects.WhatEvictDoes | server/handler/hub.go:298-314 | exactly the slow clients are closed and removed and their users leave the online set |
| HubEffects.WhatPumpsDo | server/handler/ws_client.go:120-136 | the writer takes the oldest item of Send; a warning joins an open queue with room, is dropped by a full one and panics on a closed one |
| HubEffects.WhatEndsDo | server/handler/hub.go:88-120 | a stop closes every client; an idle exit has none; the online set is left alone |
| HubEffects.WhatIncomingDoes | server/handler/hub.go:183-200 | the message joins the log and is to be offered to every client; nothing else changes |
| HubEffects.WhenActionsCan | server/handler/hub.go:86-219 | the hub takes one thing at a time, at its select; an idle exit needs no clients; the pumps never wait for the hub |
| HubMachine.BroadcastReaches | server/handler/hub.go:244-315 | a broadcastLocal run in one go from a reachable state ends where some run of single sends ends, so the theorems about runs hold of the code's states |
| HubMachine.RegisterReaches | server/handler/hub.go:122-149 | the same for the register branch with its fan-out |
| HubMachine.UnregisterReaches | server/handler/hub.go:151-181 | the same for the unregister branch, with or without the offline event |
| HubPresence.MultiTabPresence | server/handler/hub.go:122-181 | while a user has a connection in Clients, the last PRESENCE event logged for them is online; once all their registered connections were unregistered, it is offline |
| HubPresence.OnlineExactly | server/handler/hub.go:298-314 | on one server without forced stops a user is in the Redis-online set if and only if they have a connection in the hub and, among the steps that evicted a tab of theirs, let their entry expire or registered a tab, the last was a registration |
| HubPresence.EvictionHidesOtherTabs | server/handler/hub.go:305-310 | a user who stays connected is missing from Redis after an eviction if and only if they were before or one of their tabs was evicted |
| HubRuntime.Client.constructor | server/handler/ws_handler.go:30-56 | the loop fills Send with the last 256 past messages, marked as CHATLOG and owned, before the client is known to any hub |
| HubRuntime.HubObject.NewClient | server/handler/ws_client.go:330-339 | creating a client is the Connect action |
| HubRuntime.HubObject.BroadcastLocal | server/handler/hub.go:244-315 | sends to the snapshot, then evicts: the new state of clients, queues and online set is that of the machine's whole fan-out |
| HubRuntime.HubObject.SendToAll | server/handler/hub.go:262-296 | the send loop leaves every queue as FanAfter says, and `evict` holds exactly the clients whose full queue refused a message they should see |
| HubRuntime.HubObject.OfferTo | server/handler/hub.go:272-295 | one turn of the loop: skip, deliver the personalised copy, or report the client slow |
| HubRuntime.Client.Offer | server/handler/hub.go:272-295 | refuses exactly when 256 items wait and the message is not the reader's own typing event, and otherwise appends the reader's copy |
| HubRuntime.HubObject.TakeNext | server/handler/ws_client.go:127-144 | receives the oldest item of Send |
| HubRuntime.HubObject.WarnClient | server/handler/ws_client.go:255-265 | appends the warning unless 256 items wait, and panics if and only if Send is closed |
| HubRuntime.HubObject.EvictAll | server/handler/hub.go:298-314 | exactly the slow clients are closed, forgotten and set offline |
| HubRuntime.HubObject.HandleRegister | server/handler/hub.go:122-149 | admits the client, sets the user online and fans out PRESENCE online |
| HubRuntime.HubObject.HandleUnregister | server/handler/hub.go:151-181 | removes and closes the client once, and announces offline only when no connection of the user remains |
| HubRuntime.HubObject.CountConnections | server/handler/hub.go:161-167 | the count is the number of the user's clients, zero exactly when the user has no connection |
| HubRuntime.HubObject.HandleBroadcast | server/handler/hub.go:183-200 | the message is handed to Redis when the broker is healthy, it can be encoded and Publish succeeds, and is fanned out here in every other case, never both and never neither |
| HubRuntime.HubObject.HandleRedis | server/handler/hub.go:202-239 | a message from Redis is fanned out if and only if its event is one of the eleven listed ones, written out |
| HubRuntime.HubObject.HandleStop | server/handler/hub.go:88-93 | stopping closes every client's Send and empties Clients |
| HubRuntime.HubObject.GetMemberNames | server/handler/hub.go:341-353 | returns each connected user's name exactly once |
| Cluster.RedisStreamIsPublishedOrder | server/handler/hub.go:62-81 | what a hub fans out from Redis is the published order thinned to the positions its channel accepted and filtered by the whitelist, and all of it when nothing was dropped |
| Cluster.InvHolds | server/handler/hub.go:183-216 | the invariant of N servers and one published order in every interleaving of publishing, delivery, consumption, fallback and hub actions |
| Cluster.ClientsAgreeOnOrder | pkg/redis/pubsub.go:82-93 | no two clients on any servers see two shared messages in opposite order |
| Cluster.ClientsSeeThePublished | pkg/redis/pubsub.go:46-56 | two clients that see one shared message see the published one, each in its own adaptation |
| Cluster.LocalOrSharedNotBoth | server/handler/hub.go:183-200 | a message fanned out locally because publishing failed is never fanned out again by any server |
| Cluster.OnlyWhitelistedThroughRedis | server/handler/hub.go:222-239 | nothing outside the whitelist enters a hub's log from Redis |
| Cluster.WhitelistExactly | server/handler/hub.go:202-239 | a published message that a hub has taken from its channel is in its log if and only if it is MSG, MSG_FILE, MSG_EDIT, MSG_DELETE, OPEN, CLOSE, CHATLOG, PRESENCE, TYPING_START, TYPING_STOP or WARN |
| Cluster.WhatSubmitDoes | server/handler/hub.go:183-200 | a healthy submission joins the published order unchanged but for its number and reaches no hub yet; an unhealthy one is fanned out at home only |
| Cluster.WhatDeliverDoes | server/handler/hub.go:64-74 | the handler drops a message if and only if 256 wait in the hub's channel |
| Cluster.WhatConsumeDoes | server/handler/hub.go:202-216 | the hub takes the oldest waiting message and fans it out unless its event is not listed |
| Cluster.WhatMovingDoes | server/handler/hub.go:62-81 | a hub that ends loses what waits in its channel; one that starts hears what is published from then on |
| Cluster.UnlistedSeenExactlyWhenUnpublished | server/handler/admin.go:183-193 | an ANNOUNCE is ever fanned out by some hub if and only if it could not be published |
| Frames.HandleFrame | server/handler/ws_client.go:224-289 | forwards if and only if the frame is a typing event, or a text that is not blank, allowed and of at most 2000 characters; warns if and only if it is a text that is not blank and not allowed or too long; rejects everything else; unescaping the forwarded text gives the text that was sent, which stays as it is without special characters |
| Frames.JudgedExactly | server/handler/ws_client.go:224-289 | the same of the value the branches compute, with the connection's own user and room, the server's id and time, and the client's other extras and owner mark |
| Frames.EscapedHasNoMarkup | server/handler/ws_client.go:283-284 | escaped text holds no angle bracket and no quote |
| Frames.EscapeUndone | server/handler/ws_client.go:283-284 | nothing of a text is lost by escaping it |
| Pipeline.RunInsertWorker | server/handler/ws_client.go:69-102 | a worker hands over what it received, all of it and in order, in batches of 1 to 50 |
| Pipeline.HandsOverWhenDue | server/handler/ws_client.go:87-101 | it does so at the 50th message and at every tick, after which nothing received is held back |
| Pipeline.NothingHeldBack | server/handler/ws_client.go:69-102 | at all times what was received is, in order, what was handed over and what is held |
| Pipeline.FlushBatch | server/handler/ws_client.go:74-85 | a flush hands over the batch unless it is empty, and empties it |
| Pipeline.InsertConservation | server/handler/ws_client.go:43-102 | in every interleaving of readers, four workers, ticks and close the queue holds at most 1024, each call gets 1 to 50 messages in queue order, and what left the queue is in exactly one batch or call |
| Pipeline.WhatWorkersDo | server/handler/ws_client.go:87-101 | receiving takes the oldest queued message, a tick and the end hand over what is held, and nothing else changes |
| Pipeline.WhatStoringDoes | server/handler/ws_client.go:291-318 | the message joins the queue with its user, text and room, or is dropped without a broadcast |
| Pipeline.WhatReadingDoes | server/handler/ws_client.go:224-325 | a forwarded MSG is to be stored first, any other forwarded message is to be broadcast, and after anything else the reader reads on |
| Pipeline.WhenQueueLets | server/handler/ws_client.go:297-318 | a reader may store if and only if the queue is open and holds fewer than 1024, and may always give up; a worker leaves if and only if the queue is closed and empty |
| Pipeline.WhatBroadcastingDoes | server/handler/ws_client.go:321-325 | the reader hands its message to the hub and reads on, or ends with the hub |
| Pipeline.PersistBeforeBroadcast | server/handler/ws_client.go:291-325 | every broadcast MSG was enqueued before with the same user, room and text, and no two broadcasts share an entry |
| Pipeline.DrainedExactlyOnce | server/handler/ws_client.go:62-65 | when the queue is closed and the workers are done, every enqueued message was handed to InsertManyChat in exactly one call |
| Pipeline.BroadcastIsPersisted | server/handler/ws_client.go:291-325 | end to end: after shutdown every MSG anyone broadcast went to InsertManyChat, once |
| Broker.InvKept | pkg/redis/pubsub.go:146-202 | each locked section of Subscribe, Unsubscribe and monitorConnection keeps: no subscriptions in fallback, otherwise each handled room subscribed or pending |
| Broker.WhatSubscribeDoes | pkg/redis/pubsub.go:59-79 | the handler is replaced; a new PubSub is opened if and only if the broker is healthy and the room not subscribed; every other room is as before |
| Broker.WhatUnsubscribeDoes | pkg/redis/pubsub.go:96-113 | the room is in neither map, its PubSub is closed, and every other room, handler and PubSub is as before |
| Broker.WhatTheMonitorDoes | pkg/redis/pubsub.go:146-202 | a failed ping closes every recorded PubSub and keeps every handler, a good one in fallback hands all handled rooms to the loop, and each turn opens one PubSub |
| Broker.NeverDeaf | pkg/redis/pubsub.go:146-202 | in every interleaving, whenever the recovery loop is not running, fallback means no subscription and otherwise every handled room is subscribed |
| Broker.RecoveryRestores | pkg/redis/pubsub.go:179-197 | a recovery leaves all handled rooms subscribed, and no others except rooms unsubscribed while it ran |
| Broker.OrphansWereDropped | pkg/redis/pubsub.go:96-113 | in every run a room is subscribed, or waits in the loop, without a handler only if the last call for it was an Unsubscribe made while it waited in the loop |
| Broker.SubscribedExactlyHandled | pkg/redis/pubsub.go:59-113 | in runs without such overlaps a settled, healthy broker has exactly the handled rooms subscribed, and the open PubSubs are exactly theirs |
| Broker.OverlappedUnsubscribeLeavesOrphan | pkg/redis/pubsub.go:96-113 | an Unsubscribe of a pending room leaves a subscription nobody handles |
| Broker.LeaksExactlyOnOverwrite | pkg/redis/pubsub.go:189-194 | a PubSub becomes unreachable while open if and only if the recovery loop re-subscribes a room subscribed in the meantime |
| Broker.OverlappedSubscribeLeaks | pkg/redis/pubsub.go:189-194 | that happens to every pending room that is subscribed before its turn: two PubSubs then serve one handler |
| Broker.NoLeakExactly | pkg/redis/pubsub.go:59-113 | over every run the open PubSubs are exactly the recorded ones if and only if the loop never overwrote a subscription |
| Broker.HandledExactly | pkg/redis/pubsub.go:59-113 | a room has a handler if and only if the last Subscribe or Unsubscribe for it was a Subscribe; the handler is that caller's, and the caller got an error if and only if the broker was in fallback then |
| Broker.HearsExactly | server/handler/hub.go:62-81 | in a settled, healthy broker a hub hears its room (open subscription, own handler, a channel it reads) if and only if the last of those calls was its own Subscribe outside fallback, through all failures and recoveries |
| Broker.StartedInFallbackStaysDeaf | server/handler/hub.go:62-81 | a hub that found the broker in fallback, whether it never subscribed or its Subscribe returned the error, hears nothing after any recovery |
| Broker.FailedSubscribeLooksServed | server/handler/hub.go:64-79 | when the ping fails between the hub's look and its Subscribe, the recovery gives the room a handler and a subscription and the hub still hears nothing |
| Broker.LateUnsubscribeDeafens | server/handler/hub.go:79-79 | an Unsubscribe by a leaving hub after its successor's Subscribe makes the room deaf until somebody subscribes again |
| Broker.BrokerObject.Subscribe | pkg/redis/pubsub.go:59-79 | with a client: subscribes, replaces the handler or stores it for later, and reports the last as not active |
| Broker.BrokerObject.Unsubscribe | pkg/redis/pubsub.go:96-113 | removes the room from both maps, closes its PubSub, and touches nothing else |
| Broker.BrokerObject.MayPublish | pkg/redis/pubsub.go:46-56 | Publish refuses exactly in fallback |
| Broker.BrokerObject.OnPingFailed | pkg/redis/pubsub.go:167-178 | the loop closes every recorded PubSub and keeps the handlers |
| Broker.BrokerObject.OnPingOk | pkg/redis/pubsub.go:179-187 | leaves fallback and returns the handled rooms the loop will walk |
| Broker.BrokerObject.RestoreRoom | pkg/redis/pubsub.go:189-196 | one turn of the recovery loop |
| Broker.BrokerObject.MonitorRecovers | pkg/redis/pubsub.go:179-198 | an undisturbed recovery ends with the handled rooms subscribed and no other |
| Presence.PresenceRefines | pkg/redis/presence.go:42-172 | for every sequence of calls, expiries and passing time, SET and keys answer exactly the users whose deadline has not passed; live keys lie inside the SET; cleanup is invisible |
| Presence.StepRefines | pkg/redis/presence.go:42-134 | each command is simulated by the plain user-to-deadline map, GetOnlineUsers by a stuttering step |
| Presence.ExpiresExactly | pkg/redis/presence.go:66-75 | left alone, a user is reported for exactly the lifetime of the key (5 s for typing, 300 s for presence) whatever else happens |
| Presence.PingsKeepOnlineExactly | server/handler/ws_client.go:144-156 | whatever others do and ask, a user who is not set offline is reported at every moment if and only if no silence between announcements and refreshes reaches the lifetime of the key |
| Presence.KeysDoNotCollide | pkg/redis/presence.go:25-38 | the per-user keys of two rooms or users are equal only if rooms and users are |
| Presence.PingsKeepOnline | server/handler/ws_client.go:21-25 | with pings every 54 seconds and a lifetime of 300, a user stays reported even if four refreshes in a row are lost |
| Presence.SweepSafeExactly | pkg/redis/presence.go:104-133 | for all calls between EXISTS and SREM, within the lifetime of a key, the SREM keeps live keys inside the SET if and only if no user found stale has come online (last SetOnline or SetOffline a SetOnline) |
| Presence.LiveAgainExactly | pkg/redis/presence.go:104-133 | over all calls, a user without a live key gets one only by coming online, and within a lifetime exactly then |
| Presence.SweptUserStaysHidden | pkg/redis/presence.go:89-133 | a user who came online anywhere between EXISTS and SREM has a live key and yet stays out of every answer, refreshes included, until set online once more |
| Presence.RoomPresence.GoOnline | pkg/redis/presence.go:42-51 | adds to the SET and sets the key's deadline |
| Presence.RoomPresence.GoOffline | pkg/redis/presence.go:54-63 | removes from the SET and deletes the key |
| Presence.RoomPresence.RefreshOnline | pkg/redis/presence.go:91-96 | extends an existing key and never creates one |
| Presence.RoomPresence.GetActiveUsers | pkg/redis/presence.go:100-134 | lists each live member once and removes exactly the stale ones |
| RoomManager.KeptExactlyWhenGuarded | server/handler/hub.go:103-116 | the lifecycle invariant survives a step if and only if it is not the idle exit of a hub that is no longer its room's hub |
| RoomManager.UnguardedBreaks | server/handler/hub.go:108-115 | such an exit commits `stop` to a second close and throws a successor hub out of the map |
| RoomManager.InvHolds | server/handler/room_manager.go:29-72 | otherwise each room maps to its own hub, whose stop is open, and every other hub is closed exactly once |
| RoomManager.IdleOnly | server/handler/hub.go:95-120 | when hubs end only by idle timeout, every hub in its loop is its room's hub |
| RoomManager.HubLifecycle | server/handler/hub.go:95-120 | then each room keeps one hub with stop open, a hub leaves the map only without clients, and each stop is closed at most once |
| RoomManager.OverlapClosesTwice | server/handler/room_manager.go:48-59 | RemoveHub overlapping the idle timer of any empty hub closes its stop twice |
| RoomManager.ExitIsFinal | server/handler/ws_handler.go:60-62 | a hub that has exited never accepts a registration again, so a handler that still holds it waits for ever |
| RoomManager.WhatGetOrCreateDoes | server/handler/room_manager.go:29-39 | an existing hub is kept; otherwise one new hub without clients is mapped and every other room keeps its own |
| RoomManager.WhatHubsDo | server/handler/hub.go:95-181 | clients come and go, an idle exit unmaps the room and owes one close, a stop ends the hub without clients; other hubs and rooms are as before |
| RoomManager.WhatRemovalsDo | server/handler/room_manager.go:48-72 | RemoveHub unmaps one room and owes its hub one close; ShutdownAll unmaps all rooms and closes every mapped hub once |
| RoomManager.RoomManagerObject.GetOrCreateHub | server/handler/room_manager.go:29-39 | returns the mapped hub, or maps a new one with stop open |
| RoomManager.RoomManagerObject.GetHub | server/handler/room_manager.go:41-45 | null exactly when the room is not mapped |
| RoomManager.RoomManagerObject.TakeOutHub | server/handler/room_manager.go:48-54 | unmaps the room's hub and leaves it to be closed by the caller |
| RoomManager.RoomManagerObject.TryIdle | server/handler/hub.go:103-118 | leaves only when empty, and keeps the map valid if and only if the hub is still its room's hub |
| RoomManager.RoomManagerObject.ShutdownAll | server/handler/room_manager.go:61-68 | closes every mapped hub once and empties the map |
| Rooms.Ownership | pkg/mongoDB/room.go:295-348 | in every run of atomic calls each room but the default one is non-empty, owned by a member, free of duplicates and within its limit, and exactly one default room exists |
| Rooms.InvKept | pkg/mongoDB/room.go:193-348 | each single operation keeps that |
| Rooms.WhatJoinDoes | pkg/mongoDB/room.go:226-271 | a join succeeds if and only if the room exists and has the user or space; a newcomer then stands last and nothing else changes; otherwise nothing changes |
| Rooms.WhatCreateDoes | server/handler/room.go:88-97 | a creation succeeds if and only if the name is free, and adds one room with its creator as owner and only member and the limit asked for, or 100 |
| Rooms.WhatLeaveDoes | pkg/mongoDB/room.go:295-348 | a leave takes the user and nobody else out, and changes no other field but the owner |
| Rooms.VanishesExactly | pkg/mongoDB/room.go:193-203 | a room vanishes if and only if it is not the default one and an administrator deletes it, its owner deletes it, or its owner leaves it as the last member |
| Rooms.WhatDeletionsDo | pkg/mongoDB/room.go:392-419 | what a deletion reports, and that an operation touches the room it names only |
| Rooms.JoinOrderKept | pkg/mongoDB/room.go:226-271 | one operation leaves the members as they are, appends a newcomer or takes the leaver out |
| RoomOrder.JoinOrder | pkg/mongoDB/room.go:226-271 | after every run of atomic operations the members of a room stand in the order in which they last entered it |
| RoomOrder.MemberExactly | pkg/mongoDB/room.go:226-348 | over every run a user is a member of a room if and only if some operation let them in (a join with space, or the creation) and since then they have not left and the room has not vanished |
| RoomOrder.EnteredByJoining | pkg/mongoDB/room.go:226-271 | the entry of a member is their own join or creation of the room, and they stayed since |
| RoomOrder.HeirEnteredFirst | pkg/mongoDB/room.go:318-345 | after every run, when an owner leaves, the new owner is the remaining member who entered first |
| Rooms.OwnerHandsOver | pkg/mongoDB/room.go:318-345 | when the owner leaves, the first other member in the list becomes owner, or the room vanishes exactly when there is none; another member's leaving changes nothing |
| Rooms.CapacityUnderConcurrency | pkg/mongoDB/room.go:226-271 | however the round trips of joins, leaves, deletes and creates interleave, no room exceeds its limit or lists a member twice, and one default room exists |
| Rooms.UninterruptedLeaveIsAtomic | pkg/mongoDB/room.go:295-348 | the three round trips of a leave in a row are the atomic leave |
| Rooms.UninterruptedJoinIsAtomic | pkg/mongoDB/room.go:235-270 | the two round trips of a join in a row are the atomic join |
| Rooms.UninterruptedDeleteIsAtomic | pkg/mongoDB/room.go:392-419 | the two round trips of a deletion in a row are the atomic one |
| RoomRaces.StepKeepsExactly | pkg/mongoDB/room.go:295-348 | a step keeps every non-default room owned by a member, or by somebody whose pending leave read them as owner, and removes no room with somebody in it, if and only if it is not stale: no pull of an owner whose leaves all read another one, no handover to an heir who has left, no removal after a join |
| RoomRaces.OwnershipExactly | pkg/mongoDB/room.go:295-348 | a whole interleaved run does so at all its steps if and only if none of them is stale |
| RoomRaces.OwnedWhenQuiet | pkg/mongoDB/room.go:318-345 | in a run without stale steps a room whose owner has no leave pending has its owner among its members |
| RoomRaces.HeirLeavesMeanwhile | pkg/mongoDB/room.go:304-344 | from every reachable state a room of several can end, with nothing pending, owned by its heir who left it |
| RoomRaces.LeaverBecomesOwner | pkg/mongoDB/room.go:304-319 | likewise by a member who became owner after their own leave had read the room |
| RoomRaces.JoinerLosesRoom | pkg/mongoDB/room.go:328-336 | from every reachable state a room left by its last member can be removed with a joiner in it |
| RoomRaces.OwnerlessRoomHappens | pkg/mongoDB/room.go:337-344 | a run from the empty database makes a room of a, b and c and ends with b its owner and c its only member |
| Rooms.WithoutFirst | pkg/mongoDB/room.go:321-339 | the first remaining member is the earliest member other than the leaver |
| Rooms.RoomCollection.constructor | pkg/mongoDB/room.go:84-103 | an empty collection gets the default room |
| Rooms.RoomCollection.EnsureDefaultRoom | pkg/mongoDB/room.go:84-103 | inserts the default room only when there is none (and its name is free) |
| Rooms.RoomCollection.CreateRoom | server/handler/room.go:88-97 | a new room has its creator as owner and sole member and a limit of 100 unless one was given; a taken name changes nothing |
| Rooms.RoomCollection.JoinRoom | pkg/mongoDB/room.go:226-271 | success for a member, append when there is space, the full-room error otherwise, also for a missing room |
| Rooms.RoomCollection.LeaveRoom | pkg/mongoDB/room.go:295-348 | the loop and updates have the effect of the atomic leave |
| Rooms.RoomCollection.DeleteRoom | pkg/mongoDB/room.go:193-224 | only the owner deletes, never the default room |
| Rooms.RoomCollection.AdminDeleteRoom | pkg/mongoDB/room.go:392-419 | deletes any room but the default one |
| ChatLifecycle.DeletionIsPermanent | pkg/mongoDB/chat.go:417-448 | over any stretch of any interleaving a message keeps room, author and time, and once deleted stays deleted with an empty text |
| ChatLifecycle.OnlyTheAuthorChangesText | pkg/mongoDB/chat.go:388-412 | a stored message changes only by its author's delete or by its author's edit in its room, while undeleted, with the cutoff clock less than five minutes after its creation |
| ChatLifecycle.ClockWasRead | pkg/mongoDB/chat.go:388-388 | that clock was really read in the run, after the call's check had passed |
| ChatLifecycle.EditCameFromCheck | pkg/mongoDB/chat.go:369-386 | a pending edit carries the text of one call of the run, whose check found the message in its room, its author's, undeleted and at most five minutes old |
| ChatLifecycle.WhatEditsDo | pkg/mongoDB/chat.go:388-408 | an update is applied, with that text, if and only if the message is still there, in the room, the caller's, undeleted and newer than the cutoff |
| ChatLifecycle.WhatOthersDo | pkg/mongoDB/chat.go:417-448 | a delete empties and marks the caller's own undeleted message and touches nothing else; a new message is stored undeleted |
| ChatLifecycle.DeleteBeatsPendingEdit | pkg/mongoDB/chat.go:404-408 | a delete between check and update makes the edit a no-op |
| ChatLifecycle.ChatCollection.EditChat | pkg/mongoDB/chat.go:360-413 | undisturbed, it has the effect of the machine's check, cutoff and update in a row, and reports the first condition that failed |
| ChatLifecycle.ChatCollection.DeleteChat | pkg/mongoDB/chat.go:417-448 | deletes an own undeleted message, tells missing from forbidden, and leaves the rest |
| Paging.FindChatByRoomBefore | pkg/mongoDB/chat.go:243-276 | the page is the reversed result of filter, sort and limit |
| Paging.ReverseInPlace | pkg/mongoDB/chat.go:271-273 | the swapping loop reverses the array |
| Paging.PageIsNewest | pkg/mongoDB/chat.go:249-254 | the page is in order of time, as long as it can be, and together with the messages left out, none of them newer, makes up all matching messages |
| Paging.QueryIsSuffix | pkg/mongoDB/chat.go:249-254 | filtering by time before sorting is cutting the sorted history |
| Paging.LoadPage | view/chat.html:1019-1059 | one request moves the cursor strictly back and adds its page to what is shown without losing the rest |
| Paging.LoadOlderMessages | view/chat.html:1019-1059 | scrolling until HasMore is false ends and shows exactly the pages that Shown describes |
| Paging.ShownAtMostOnce | server/handler/room.go:257-271 | no message is shown more often than it is stored |
| Paging.CompleteExactlyWithoutSplitTies | server/handler/room.go:257-271 | scrolling back shows every older message if and only if no page boundary falls between two messages of one time |
| Paging.PagingComplete | server/handler/room.go:257-271 | with distinct times every older undeleted message is shown exactly once, newest page first |
| Paging.FindChatByRoom | pkg/mongoDB/chat.go:211-240 | the first page is the front of the ascending history, up to 100 messages |
| Paging.OpenAndScroll | view/chat.html:658-681 | opening a room and scrolling back to its beginning shows the first page and nothing more |
| Paging.WholeRoomExactlyUpTo100 | server/handler/room.go:273-281 | that is the whole room if and only if it has at most 100 undeleted messages, and otherwise 100 messages none newer than the rest |
| RateLimit.InvisibleExactly | server/middleware/ratelimit.go:36-73 | forgetting visitors idle over ten minutes never changes a verdict, for every schedule, if and only if burst times interval is at most the first idle time that is forgotten, ten minutes and one clock tick |
| RateLimit.ConfiguredLimitersForgetSafely | server/middleware/ratelimit.go:75-82 | the three configured limiters satisfy that |
| RateLimit.AlikeKept | server/middleware/ratelimit.go:36-73 | the forgetting limiter simulates the one that remembers, a missing visitor standing for a full bucket |
| RateLimit.ProbeTells | server/middleware/ratelimit.go:64-66 | a slower bucket has a schedule that tells the two apart |
| RateLimit.WindowBound | server/middleware/ratelimit.go:134-136 | in any window of a bucket's calls at most burst plus elapsed time over interval are granted |
| RateLimit.OwnBucket | server/middleware/ratelimit.go:36-48 | what the limiter allows an address is what one bucket of its own grants at the times of its own requests, whatever others request |
| RateLimit.AddressWindowBound | server/middleware/ratelimit.go:85-98 | in every schedule of requests, time and cleanups the requests of one address allowed from one moment to another number at most the burst plus one per interval |
| RateLimit.OthersKeepTheirBuckets | server/middleware/ratelimit.go:36-73 | a request leaves every other visitor alone, and a cleanup all but those unseen for over ten minutes |
| RateLimit.BroadcastWindow | server/handler/ws_client.go:253-325 | after a broadcast, the later ones in a window of T seconds number at most 15 + T |
| RateLimit.FifteenExactly | server/handler/ws_client.go:253-325 | for every hold-up: all sequential schedules held up no longer broadcast at most 15 + T in every window of T seconds, its first call included, if and only if the hold-up is below one second |
| RateLimit.SixteenAtOnce | server/handler/ws_client.go:253-325 | the schedule behind the other half: held up for a second, sixteen broadcasts leave in one instant |
| RateLimit.VisitorRef.Allow | server/middleware/ratelimit.go:89-89 | refills by elapsed time up to the burst and takes one token if there is one |
| RateLimit.IpRateLimiter.GetLimiter | server/middleware/ratelimit.go:36-48 | finds or creates the visitor and stamps it, touching no other |
| RateLimit.IpRateLimiter.Serve | server/middleware/ratelimit.go:85-98 | a request has the effect and verdict of the specification |
| RateLimit.IpRateLimiter.CleanupTick | server/middleware/ratelimit.go:56-73 | the loop deletes exactly the visitors idle for more than ten minutes |
| ConnLimit.CountIsActive | server/middleware/ws_conn_limit.go:80-96 | in every interleaving each entry's count is the number of its handlers between add and release, never negative, and cleanup removes no entry that has one |
| ConnLimit.WhatEnterDoes | server/middleware/ws_conn_limit.go:58-68 | finds the mapped entry or maps a new one with count zero; other addresses keep theirs |
| ConnLimit.WhatCheckDoes | server/middleware/ws_conn_limit.go:84-88 | a handler is turned away if and only if its entry's count has reached the limit |
| ConnLimit.WhatHandlersDo | server/middleware/ws_conn_limit.go:82-94 | stamping, adding and releasing change the time and the count, by one, of the handler's own entry only |
| ConnLimit.WhatCleanupDoes | server/middleware/ws_conn_limit.go:47-56 | unmaps exactly the entries without connections last seen before the cutoff |
| ConnLimit.OvershootBound | server/middleware/ws_conn_limit.go:84-90 | with at most K handlers between check and add, admitted plus checked connections of an entry never exceed the limit minus one plus K |
| ConnLimit.MappedExactlyWhenSpared | server/middleware/ws_conn_limit.go:47-56 | all handlers of an address keep sharing its mapped entry if and only if the step is not a cleanup of an entry some handler holds |
| ConnLimit.OneEntryPerAddress | server/middleware/ws_conn_limit.go:58-68 | in runs without such a cleanup all handlers of an address share one entry |
| ConnLimit.AddressBound | server/middleware/ws_conn_limit.go:80-96 | in such runs, with at most K handlers between check and add, admitted plus checked connections of one address never exceed the limit minus one plus K |
| ConnLimit.RemovalSplitsAddress | server/middleware/ws_conn_limit.go:47-68 | after such a cleanup the next handler of the address counts on a different entry |
| ConnLimit.StampedIsSpared | server/middleware/ws_conn_limit.go:82-82 | an entry stamped within ten minutes is not removed |
| ConnLimit.WsConnLimiter.LookUp | server/middleware/ws_conn_limit.go:58-68 | returns the address's entry or maps a new one with count zero |
| ConnLimit.WsConnLimiter.StampEntry | server/middleware/ws_conn_limit.go:82-82 | records the time on the handler's entry |
| ConnLimit.WsConnLimiter.CheckLimit | server/middleware/ws_conn_limit.go:84-88 | turns the handler away exactly at the limit |
| ConnLimit.WsConnLimiter.AddOne | server/middleware/ws_conn_limit.go:90-90 | counts the handler |
| ConnLimit.WsConnLimiter.ReleaseOne | server/middleware/ws_conn_limit.go:91-94 | uncounts the handler and records the time |
| ConnLimit.WsConnLimiter.CleanUp | server/middleware/ws_conn_limit.go:47-56 | removes exactly the entries with count zero last seen before the cutoff |
| OfflineQueue.NothingLost | frontend/src/hooks/useWebSocket.ts:25-53 | over any sequence of sends, openings, closings and room switches every payload is in exactly one of sent and queued |
| OfflineQueue.NothingReordered | frontend/src/hooks/useWebSocket.ts:25-158 | when callers send to the socket's room, each room's sent payloads followed by its queued ones are those submitted, in order |
| OfflineQueue.FlushPartitions | frontend/src/hooks/useWebSocket.ts:25-38 | a flush splits the queue without losing or repeating a payload |
| OfflineQueue.FlushOrder | frontend/src/hooks/useWebSocket.ts:25-38 | a flush keeps, for every room, the order of what was sent followed by what waits |
| OfflineQueue.ForeignSendOvertakes | frontend/src/hooks/useWebSocket.ts:147-158 | a send for another room keeps that room's order if and only if nothing but copies of the payload waits for it |
| OfflineQueue.ChatSocket.FlushOfflineQueue | frontend/src/hooks/useWebSocket.ts:25-38 | the loop sends the room's payloads in order and rewrites the queue with the others in order, or keeps all when the socket is not open |
| OfflineQueue.ChatSocket.OnOpen | frontend/src/hooks/useWebSocket.ts:50-53 | opening flushes |
| OfflineQueue.ChatSocket.OnClose | frontend/src/hooks/useWebSocket.ts:121-128 | closing leaves the queue |
| OfflineQueue.ChatSocket.ChangeRoom | frontend/src/hooks/useWebSocket.ts:135-145 | changing room closes the socket and leaves the queue |
| OfflineQueue.ChatSocket.SendMessage | frontend/src/hooks/useWebSocket.ts:147-158 | sends on an open socket and queues otherwise |

## Left out

- KickUser: nothing calls it; it would be one more eviction between two select branches.
- The typing entries that broadcastLocal, Unregister and eviction write to Redis: best-effort calls beside the hub's state; the typing store itself is the Presence structure with a lifetime of 5 seconds.
- HubRuntime.HubObject.BroadcastLocal: as one method it does not show writers draining queues during the fan-out; the machine's separate Offer, Drain and Evict actions do, and NoSilentGap is about those.
- Pings and write errors of writePump, gorilla close frames and deadlines: a broken connection appears as a client that no longer drains or that unregisters.
- Broker.BrokerObject.Subscribe: a nil client, Close and the manual SetFallback are not modelled, and go-redis's own channel buffer is taken never to drop.
- Handlers are identified by the number of the hub they belong to and PubSubs by their order of creation.
- A send to the insert queue after ShutdownInsertQueue, which panics in Go: the shutdown theorems are about runs without later senders.
- InsertManyChat's own failure: the worker logs it and drops the batch, so the pipeline's theorems end at the call.
- RoomManager.RoomManagerObject.ShutdownAll: closing the broker as well.
- Rooms.RoomCollection.DeleteRoom: purging the room's messages and files, which no membership depends on.
- Rooms.RoomCollection.AdminDeleteRoom: the same purge.
- Rooms.RoomCollection.LeaveRoom: the same purge when the last member leaves.
- Paging.LoadOlderMessages: the stored messages are taken not to change while the user scrolls, and the AJAX call not to fail.
- FindChatByRoomAfter: a single query without a cursor protocol. Live messages that arrive while a room is open are outside the paging theorems.
- ChatLifecycle.ChatCollection.EditChat: nobody else acts between its three times; the machine's separate steps cover interference.
- The owner check of a delete in the interleaved room machine: leaving it out only allows more runs.
- RateLimit.VisitorRef.Allow: exact integer credit instead of the library's floating-point tokens.
- Goroutine scheduling inside channels and mutexes, JSON, HTTP routing, authentication, bcrypt, file upload, metrics and logging.
- MongoDB and Redis errors and timeouts, which end a call between two of its steps.
- Reconnection delays and the message store of the browser.
