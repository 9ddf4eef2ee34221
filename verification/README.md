# discord-go-connect, modelled in Dafny

discord-go-connect relays a Discord bot to browser viewers. The bot is the
*agent*. The agent and the viewers connect over websockets to a *hub*:

- The hub keeps a set of viewers, an id-to-viewer lookup and one agent slot.
  One loop serialises registration, unregistration, broadcast, unicast and
  sending to the agent.
- Each connection's read loop routes its frames. While an agent is registered,
  a viewer's frame goes to the agent, stamped with the viewer's id as its
  `receiver`. The agent's replies carry that receiver back and are unicast.
- The agent keeps a subscription table (viewer id to guild id). It answers the
  six client actions, fans each new Discord message out to the subscribers of
  its guild, and buffers messages for batch persistence: a flush at 100
  messages, or 300 seconds after the last one.
- Persistence inserts authors, members and messages in one transaction per
  batch. It upserts guilds and channels without a transaction.
- An HTTP endpoint pages a channel's stored messages twenty at a time, with a
  cursor to the next page.

The model is a set of pure state machines, one Dafny module per concern:

| module | file | models |
|---|---|---|
| `Optional` | optional.dfy | option type used throughout |
| `Actions` | actions.dfy | the action vocabulary and its wire strings |
| `Entities` | entities.dfy | the Discord records the agent handles |
| `Hub` | hub.dfy | the hub's registry and its loop, one step per event |
| `Session` | session.dfy | one connection: registration, frame routing, the deferred leave and unregister |
| `Store` | store.dfy | the persistence calls over an abstract keyed store |
| `Writer` | writer.dfy | the write-behind buffer with its lock flag |
| `Agent` | agent.dfy | dispatch, subscription table, fan-out, the ready event |
| `Link` | link.dfy | the agent's reconnect loop |
| `Paging` | paging.dfy | the `/api/channel` handler's parsing and cursor arithmetic |
| `Relay` | relay.dfy | end-to-end paths composed from Session, Hub and Agent |

Conventions used throughout:

- Go map iteration order is unspecified, so the hub's effects for one event
  are a set.
- Which client writes fail is a parameter (`broken`).
- Which database statements fail is a parameter (`faults`, positions in the
  statement stream). The one failure the store derives itself is a duplicate
  message id under a plain INSERT.
- JSON marshalling is a parameter (`Agent.Codec`).
- The SQL query behind the HTTP endpoint is a parameter.
- Discord calls are recorded as requests, since their results are only logged.
- Go `int` arithmetic on the page number wraps at 64 bits, and so does the
  model.

Behaviour the model keeps as the code has it, where a reader might expect
otherwise:

- Unregistering the agent closes its connection but never clears the agent
  slot (internal/wshub/hub.go:93-98).
- The guild snapshot answering a join has an empty receiver, so the hub
  broadcasts it to every viewer (internal/discord/bot.go:216-218).
- `leave` deletes the subscription keyed by the payload's `message`
  (internal/discord/bot.go:231-232). The hub's disconnect notice puts the
  viewer's id there.
- The wire string for subscribing is `get_messages` and for joining is
  `get_guilds` (internal/wshub/enum.go:12-15).

## Model

| member | source | states |
|---|---|---|
| Actions.ParseClient | internal/wshub/enum.go:11-16 | recognising a client action: a recognised string is that action's wire name, and an unrecognised one is no action's |
| Actions.ClientWireInjective | internal/wshub/enum.go:11-16 | the six client action strings are pairwise distinct |
| Actions.ParseClientWire | internal/wshub/enum.go:11-16 | every client action's wire string parses back to that action |
| Actions.ParseClientRecognises | internal/wshub/enum.go:11-16 | a string is recognised exactly when some client action has it as its wire string |
| Actions.ServerWireInjective | internal/wshub/enum.go:17-19 | the three server action strings are pairwise distinct |
| Actions.VocabulariesDisjoint | internal/wshub/enum.go:11-19 | no server action string, and not "messages", equals a client action string, so the agent ignores them |
| Actions.WireNames | internal/wshub/enum.go:12-18 | subscribing travels as "get_messages", joining as "get_guilds", the guild snapshot as "guilds" |
| Hub.RegisterClient | internal/wshub/hub.go:56-65 | type "D-BOT" takes the agent slot and leaves viewers and lookup alone; any other type joins the viewers and is found under its id, other entries unchanged |
| Hub.UnregisterClient | internal/wshub/hub.go:86-99 | the agent slot never changes; the client is not a viewer afterwards; it is closed exactly when it was a viewer or an agent is set |
| Hub.BroadcastEffects | internal/wshub/hub.go:101-106 | every viewer is written the payload without its receiver, and a failed write asks to unregister that viewer |
| Hub.UnicastEffects | internal/wshub/hub.go:108-116 | only the viewer looked up under the receiver is written; an unknown receiver is a silent no-op |
| Hub.AgentEffects | internal/wshub/hub.go:118-129 | without an agent the payload is dropped; a failed write asks to unregister the agent |
| Hub.Step | internal/wshub/hub.go:36-54 | every register is answered by exactly one handshake ("handshake", "0", {"status":200}), agent included; routing events leave the registry unchanged; only a register changes the agent |
| Hub.StepPreservesValid | internal/wshub/hub.go:36-99 | with distinct ids, every step keeps the viewer set and the lookup in agreement and only an agent in the agent slot |
| Hub.RegisterAgent | internal/wshub/hub.go:57-59 | registering a "D-BOT" client replaces the agent and adds it to neither the viewers nor the lookup |
| Hub.RegisterViewer | internal/wshub/hub.go:60-63 | registering any other client adds it under its id and keeps every existing viewer and the agent |
| Hub.UnregisterViewer | internal/wshub/hub.go:87-91 | unregistering a viewer removes it from set and lookup and closes it; other viewers are untouched |
| Hub.UnregisterAgentKeepsSlot | internal/wshub/hub.go:93-98 | unregistering the agent closes its connection but leaves it in the slot; the next agent-bound write hits the closed connection, fails, and stalls the as-written loop, and even the intended loop keeps the dead agent in the slot |
| Hub.RegisterSendsHandshake | internal/wshub/hub.go:67-84 | registering a client writes it the handshake ("handshake", "0", {"status":200}), or asks to unregister it when that write fails |
| Hub.BroadcastNeverReachesAgent | internal/wshub/hub.go:101-106 | a broadcast reaches every working viewer and never the agent |
| Hub.UnicastReachesOnlyReceiver | internal/wshub/hub.go:108-116 | a unicast reaches the viewer whose id is the receiver and no one else |
| Hub.Send | internal/wshub/client.go:121-128 | a write delivers the response to the client when its connection works, and otherwise turns into a request to unregister that client |
| Hub.RequestedAreFailedWrites | internal/wshub/client.go:121-128 | the unregistrations a step asks for are exactly the clients it writes to (the new client, every viewer, the unicast receiver, or the agent) whose connection fails |
| Hub.LoopStepAsWritten | internal/wshub/hub.go:26-54 | a running loop stalls exactly when the step writes to a client whose connection fails, otherwise the registry changes as in the plain step; a stalled loop stays stalled |
| Hub.RunAsWritten | internal/wshub/hub.go:36-54 | a loop still running after a run of events was running when it started |
| Hub.RunningAgreesWithIntended | internal/wshub/hub.go:36-54 | while no write has failed, the as-written loop holds the same registry as the intended loop |
| Hub.StalledForever | internal/wshub/hub.go:29-44 | once a step has asked the loop to unregister a client, no later event is handled |
| Hub.BrokenViewerStallsLoop | internal/wshub/client.go:121-128 | a broadcast with a viewer whose connection is gone stalls the loop as written |
| Hub.FailedHandshakeStallsLoop | internal/wshub/hub.go:39-41 | on any hub, a client whose handshake cannot be written stalls the loop as written |
| Hub.UnregisterAll | internal/wshub/hub.go:86-99 | unregistering a set of clients removes exactly those viewers and closes each as a single unregistration would |
| Hub.UnregisterAllSingleton | internal/wshub/hub.go:86-99 | unregistering a one-element set is the single unregistration |
| Hub.UnregisterAllPreservesValid | internal/wshub/hub.go:86-99 | unregistering any set keeps the registry consistent |
| Hub.LoopStep | internal/wshub/hub.go:36-54 | the corrected loop removes every client whose write failed, and equals the plain step when none failed |
| Hub.LoopStepPreservesValid | internal/wshub/hub.go:36-54 | the corrected loop keeps the registry consistent |
| Hub.BroadcastDropsBrokenViewers | internal/wshub/hub.go:101-106 | after a broadcast the corrected loop's viewers are the previous viewers minus those whose write failed |
| Session.Accept | internal/wshub/client.go:49-59 | a connection becomes a client with its id, an agent exactly when its type is "D-BOT", and is queued for registration |
| Session.RouteFrame | internal/wshub/client.go:100-117 | heartbeat is answered with a ping and never routed; a viewer's frame with an agent present goes to the agent stamped with the viewer's id; any other frame is unicast when it names a receiver and broadcast otherwise |
| Session.ReadLoop | internal/wshub/client.go:89-118 | each frame read is routed in order; the loop stops early only when a ping cannot be written |
| Session.Leaving | internal/wshub/client.go:72 | the disconnect notice is a "leave" whose message is the client's id, with no receiver |
| Session.RunSession | internal/wshub/client.go:65-118 | however the read loop ends, it is followed by exactly one leave notice to the agent and then one unregistration, and nothing earlier unregisters |
| Session.ViewerCannotAddressPeers | internal/wshub/client.go:108-110 | while an agent is registered a viewer's receiver is always replaced by its own id, so the receiver it wrote has no effect |
| Session.AgentRoutesByReceiver | internal/wshub/client.go:111-117 | the agent's frames are unicast when they name a receiver and broadcast otherwise |
| Store.Apply | internal/discord/controller.go:9-39 | a single statement fails by itself exactly when it inserts an already stored message id |
| Store.UpsertLastWins | internal/discord/controller.go:10-27 | guild and channel upserts replace the stored row |
| Store.InsertIgnoreFirstWins | internal/discord/controller.go:28-35 | author and member inserts leave an existing row unchanged and add a missing one |
| Store.DuplicateMessageFails | internal/discord/controller.go:36-39 | the message insert fails exactly when the id is already stored |
| Store.RunWrites | internal/discord/controller.go:142-167 | a failing run fails at a position inside the statements it was given |
| Store.RunKeeps | internal/discord/controller.go:28-39 | no sequence of statements changes an author, member or message row already stored |
| Store.UpsertsSucceed | internal/discord/controller.go:98-111 | upserts and insert-ignores with no fault never fail |
| Store.RunAppend | internal/discord/controller.go:142-167 | running two statement lists in a row is running the first, then the second only if the first went through |
| Store.FailureKeepsPrefix | internal/discord/controller.go:98-111 | a run that fails at a statement has written exactly the statements before it |
| Store.MessageWrites | internal/discord/controller.go:142-167 | per message: author, then member, then message; member id, message author and message member all equal the author's id, and the member and message carry the message's guild |
| Store.BatchWrites | internal/discord/controller.go:142-168 | a batch issues three statements per message and never touches guilds or channels |
| Store.BatchWritesOrder | internal/discord/controller.go:142-167 | the i-th message's three statements sit at positions 3i to 3i+2 of the batch |
| Store.CreateMessage | internal/discord/controller.go:117-175 | a failed batch leaves the store untouched; a committed one changes no stored author, member or message |
| Store.OneMessage | internal/discord/controller.go:142-167 | one message's statements succeed exactly when none faults and its id is new, adding the message and, if missing, its author and member (member row as in the corrected binding) |
| Store.FreshIdsCons | internal/discord/controller.go:159-166 | a batch has distinct, new ids exactly when its first id is new and the rest are distinct and new after storing it |
| Store.BatchRun | internal/discord/controller.go:142-168 | a batch's statements all succeed exactly when no fault hits them and its ids are distinct and new, and then every message is stored (member row as in the corrected binding) |
| Store.CreateMessageOutcome | internal/discord/controller.go:117-175 | the batch commits exactly when the transaction opens and commits, no statement faults and its ids are distinct and new; committed, every message is stored with its author and member (member row as in the corrected binding); otherwise nothing changes |
| Store.RepeatedIdDiscardsBatch | internal/discord/controller.go:159-172 | any batch in which two messages share an id stores nothing |
| Store.MemberColumnsExchanged | internal/discord/controller.go:32-35 | as bound, the member row names the author as its guild and the guild as its author whenever the two ids differ |
| Store.ChannelWrites | internal/discord/controller.go:104-111 | one channel upsert per channel, in order, tagged with the guild's id |
| Store.GuildWrites | internal/discord/controller.go:98-111 | a guild's upsert comes before its channels' upserts |
| Store.SyncWrites | internal/discord/controller.go:98-112 | the sync issues only guild and channel upserts |
| Store.SyncGuildsAndChannels | internal/discord/controller.go:84-115 | a statement that cannot be prepared fails the sync with nothing written; with no fault the sync succeeds |
| Store.SyncFailureKeepsWrittenRows | internal/discord/controller.go:84-115 | a failed sync keeps every row written before the failing statement |
| Store.SyncGuilds | internal/discord/controller.go:46-61 | the guild-only sync fails without writing when the statement cannot be prepared, succeeds when no statement faults, and never touches channels |
| Store.SyncGuildsStoresSnapshot | internal/discord/controller.go:46-61 | a fault-free guild sync stores every guild row of the snapshot |
| Store.SyncGuildsFailureKeepsWrittenRows | internal/discord/controller.go:46-61 | a failed guild sync keeps every guild row written before the failing statement |
| Store.UpsertGuildsKeepChannels | internal/discord/controller.go:53-58 | guild upserts leave the channel table as it was |
| Store.UpsertsStored | internal/discord/controller.go:10-27 | fault-free upserts that hold one version per id store that version under every id they name |
| Store.UntouchedGuild | internal/discord/controller.go:98-111 | a run that never writes a guild id leaves that guild row alone |
| Store.UntouchedChannel | internal/discord/controller.go:98-111 | a run that never writes a channel id leaves that channel row alone |
| Store.SyncWritesCover | internal/discord/controller.go:98-111 | every guild of the snapshot, and every channel of it, has its upsert in the sync |
| Store.SyncStoresSnapshot | internal/discord/controller.go:84-115 | a fault-free sync stores every guild and every channel, each channel tagged with its guild |
| Writer.FlushHeld | internal/discord/message_writer.go:58-73 | with the lock held, an empty buffer is left alone, and a non-empty one is persisted whole and emptied with the counter zeroed |
| Writer.Flush | internal/discord/message_writer.go:58-73 | flushing an empty buffer changes nothing and calls no store; a non-empty buffer goes whole, in order, to one store call and both buffer and counter are reset |
| Writer.WriteToDatabaseAsWritten | internal/discord/message_writer.go:58-60 | taking the lock deadlocks exactly when it is already held |
| Writer.ThresholdPathDeadlocks | internal/discord/message_writer.go:31-39 | the 100th message reaches the flush while `AddMessage` still holds the lock, and the writer deadlocks |
| Writer.BelowThresholdAgrees | internal/discord/message_writer.go:31-44 | below the threshold the written and the corrected `AddMessage` agree |
| Writer.AddMessageAsWritten | internal/discord/message_writer.go:31-44 | from a consistent writer the call deadlocks exactly on the message that brings the buffer to 100, holding the lock with that message appended; every call that returns agrees with the intended `AddMessage` |
| Writer.AddMessage | internal/discord/message_writer.go:31-44 | appends one message; reaching 100 persists the whole buffer plus the message and empties it, otherwise re-arms the 300 s timer; the buffer stays under 100 and equal to the counter |
| Writer.ThresholdTestsAgree | internal/discord/message_writer.go:35-38 | as counter equals buffer length, the two tests on the threshold line agree |
| Writer.ApplyAccounts | internal/discord/message_writer.go:35-72 | one add or timer flush persists and keeps exactly the old buffer followed by the added message |
| Writer.NoLossNoDuplication | internal/discord/message_writer.go:35-71 | the flushed batches, concatenated, followed by the current buffer are the buffer at the start followed by every added message |
| Writer.RunKeepsValid | internal/discord/message_writer.go:35-72 | over any run the buffer stays under 100 and equal to the counter, and every batch holds between 1 and 100 messages |
| Writer.ThresholdFlushesOnce | internal/discord/message_writer.go:38-41 | adding up to exactly 100 messages without a timer yields one batch of all of them and an empty buffer |
| Writer.FailedBatchIsDropped | internal/discord/message_writer.go:66-72 | after a flush the buffer is empty whether or not the store call succeeded, so a rejected batch is kept nowhere |
| Agent.Backlog | internal/discord/bot.go:221-228 | the selected messages are exactly the buffered ones of the requested guild |
| Agent.BacklogAppend | internal/discord/bot.go:224-228 | selection commutes with appending, so buffer order is kept |
| Agent.BacklogReply | internal/discord/bot.go:221-229 | the subscribe reply is a "messages" payload addressed to the requester that carries the requested guild's buffered messages |
| Agent.Dispatch | internal/discord/bot.go:213-235 | dispatch leaves the buffer and caches alone, sends or requests at most one thing, replies only to the requester or unaddressed, changes subscriptions only on subscribe and leave, and ignores heartbeat and unknown actions |
| Agent.SubscribeRecordsAndReplies | internal/discord/bot.go:221-230 | subscribing answers the requester with the guild's backlog and sets its subscription, replacing any earlier one and keeping the others |
| Agent.LeaveDeletesByMessage | internal/discord/bot.go:231-232 | leave removes the subscription named by `message`, and keeps the requester's own unless it names it |
| Agent.JoinRepliesUnaddressed | internal/discord/bot.go:216-218 | join sends the guild snapshot as "guilds" with an empty receiver and changes nothing |
| Agent.MessagesRequestCalls | internal/discord/bot.go:219-234 | guild_message requests a post to the channel in `message_id`; dm_message requests a DM to the user in `message_id` |
| Agent.HandleSessionAppend | internal/discord/bot.go:191-237 | reading frames in two stretches emits the first stretch's sends and calls, then everything the second emits from the bot the first left, so a session's emits are each frame's dispatch in turn |
| Agent.OneFrameSession | internal/discord/bot.go:194-235 | one decoded frame emits exactly what its dispatch sends and calls, then the close and the signal |
| Agent.HandleSession | internal/discord/bot.go:191-237 | a session emits only sends and calls until the read fails, then closes the connection and signals the reconnect loop, and never touches the buffer or caches |
| Agent.IgnoredFrames | internal/discord/bot.go:205-209 | an undecodable frame or an unrecognised action changes nothing and the loop goes on |
| Agent.HandshakeIgnored | internal/wshub/hub.go:67-84 | the handshake the hub sends the agent is ignored by it |
| Agent.OnMessage | internal/discord/bot.go:110-123 | an empty message is neither buffered nor forwarded; a non-empty one goes through `AddMessage` and yields one notice, keyed by channel id, for exactly the subscribers of its guild |
| Agent.Notice | internal/discord/bot.go:117-121 | a new-message notice is a "messages" payload addressed to one subscriber, keyed by the message's channel id and carrying the message |
| Agent.FanOutOnePerSubscriber | internal/discord/bot.go:117-122 | no subscriber gets two notices for one message, and only subscribers of its guild get one |
| Agent.CacheGuilds | internal/discord/bot.go:86-92 | every listed guild is cached as fetched, and others are kept |
| Agent.CacheDms | internal/discord/bot.go:102-104 | each listed private channel is cached under its id as the last listing of that id gives it, and other entries are kept |
| Agent.CacheDmsHoldsListed | internal/discord/bot.go:102-104 | every listed private channel's id maps to one of the listed channels |
| Agent.CacheReady | internal/discord/bot.go:85-105 | a list is cached only when longer than the threshold, then with every guild as fetched and every private channel as last listed; unlisted entries are kept; the sync starts exactly when the guilds are cached |
| Agent.OnReadyAsWritten | internal/discord/bot.go:85-105 | as written: the sync starts only with two or more guilds; a list of fewer than two is not cached; longer lists are cached as the intended handler caches them |
| Agent.SingleGuildNotCached | internal/discord/bot.go:85-101 | a ready event listing one guild and one DM caches nothing and starts no sync |
| Agent.OnReady | internal/discord/bot.go:85-105 | with the corrected threshold every listed guild is cached as fetched and every listed private channel as last listed, unlisted entries and the subscriptions and buffer are kept, and any guild starts the sync |
| Link.Iteration | internal/discord/bot.go:154-174 | each pass dials once, starts the reader and heartbeat only after a successful dial, and ends with the 5 s wait |
| Link.Loop | internal/discord/bot.go:153-175 | a run of dial outcomes takes at least two actions per pass, starts with a dial and ends with the 5 s wait |
| Link.LoopExtends | internal/discord/bot.go:153-175 | the loop never exits: after any run the next action is another dial |
| Link.WaitThenRedial | internal/discord/bot.go:154-174 | every wait lasts 5 s and is followed directly by a redial |
| Link.IterationCounts | internal/discord/bot.go:154-174 | one dial and one wait per pass; reader, heartbeat and close wait once per successful dial |
| Link.LoopCounts | internal/discord/bot.go:153-175 | over a run, dials and waits equal the passes, and readers, heartbeats and close waits equal the successful dials |
| Paging.Wrap64 | cmd/discord/main.go:77 | Go int arithmetic: the result is in range, congruent modulo 2^64, and exact when no overflow |
| Paging.Atoi | cmd/discord/main.go:70 | a page parses to n exactly when n is a 64-bit int and the page spells it: an optional sign and digits which, leading zeros dropped, are the digits Itoa renders for n, with a minus only before a non-positive value |
| Paging.Digits | cmd/discord/main.go:70 | decimal rendering yields a non-empty string of digits |
| Paging.DigitsValue | cmd/discord/main.go:70 | a rendered natural number reads back as itself |
| Paging.SignificantDigits | cmd/discord/main.go:70 | a digit string with its leading zeros dropped is the rendering of its value |
| Paging.NumeralSpells | cmd/discord/main.go:70 | a sign-and-digits string spells its signed value and no other number |
| Paging.Itoa | cmd/discord/main.go:132-135 | the rendering of any int spells it, and a non-negative int renders as its plain digits |
| Paging.AtoiItoa | cmd/discord/main.go:70 | every 64-bit int renders and parses back to itself |
| Paging.AtoiRejects | cmd/discord/main.go:70-75 | empty, a bare sign, spaces, a decimal point and underscores are refused |
| Paging.AtoiAccepts | cmd/discord/main.go:70 | leading zeros and a plus sign are accepted |
| Paging.AtoiOverflow | cmd/discord/main.go:70-75 | one past the largest int is refused |
| Paging.Offset | cmd/discord/main.go:77 | the offset is a 64-bit int congruent to (page - 1) * 20 modulo 2^64, and equal to it when nothing overflows |
| Paging.NextPage | cmd/discord/main.go:132 | the next cursor is page + 1, except that the largest int wraps to the smallest |
| Paging.Respond | cmd/discord/main.go:129-135 | exactly 21 rows become 20 and the next page as cursor; any other count is returned whole with cursor 0; at most 21 rows give at most 20 |
| Paging.Handle | cmd/discord/main.go:64-157 | not a GET: headers only; a bad page: 400 "Invalid page number"; a failed query: 500 "Failed to fetch messages"; a failed scan or row iteration: 500 "Failed to fetch channels"; fetched rows: the page `Respond` builds from them at that page number, so a reply holds a prefix of the fetched rows, at most 20 of them when at most 21 came, with a non-zero cursor only after a full look-ahead |
| Paging.BadPageNeverQueries | cmd/discord/main.go:70-75 | a page that does not parse gets the same 400 whatever the database holds, so no query is issued |
| Paging.PositiveOffset | cmd/discord/main.go:69-78 | pages from 1 up ask for offset (page - 1) * 20 |
| Paging.NonPositivePageNegativeOffset | cmd/discord/main.go:70-77 | page 0 or a negative page is accepted and gives a negative offset |
| Paging.LargestPageWraps | cmd/discord/main.go:77-132 | the largest page wraps to offset -40 and its next cursor to the smallest int |
| Paging.HonestPage | cmd/discord/main.go:77-135 | against a database that honours LIMIT and OFFSET, page p holds rows 20(p-1) to 20p and a cursor to p+1 exactly when more rows follow |
| Paging.CollectFrom | cmd/discord/main.go:77-135 | following the cursor from page p, against a server that answers every page as the handler does over an honest database, returns every row from 20(p-1) on, each once, in order |
| Paging.CollectAll | cmd/discord/main.go:77-135 | following the cursor from page 1 through the handler over an honest database returns the whole channel, for any channel of at most 2^62 rows |
| Relay.NothingBrokenNothingRequested | internal/wshub/client.go:121-128 | a step in which no write fails asks for no unregistration, so the corrected loop acts as the plain step |
| Relay.SubscribeRoundTrip | internal/wshub/client.go:108-113 | a viewer's subscribe reaches the agent stamped with the viewer's id, is recorded, and the backlog reply is unicast to that viewer alone |
| Relay.JoinReplyReachesEveryViewer | internal/discord/bot.go:216-218 | the reply to a join is broadcast and reaches every viewer |
| Relay.DisconnectDropsSubscription | internal/wshub/client.go:67-74 | when a viewer's session ends, its leave notice reaches the agent and removes its subscription |
| Relay.NewMessageReachesSubscriber | internal/discord/bot.go:117-122 | a new message is delivered to each connected subscriber of its guild, addressed to it alone |
| Relay.NoAgentBroadcastsRequests | internal/wshub/client.go:111-117 | without an agent, a decoded payload with no receiver is broadcast to every viewer, the sender included |
| Relay.ClosedAgentStallsHub | internal/wshub/hub.go:93-98 | after the agent is unregistered its slot is unchanged, a viewer's next frame is still routed to it, and the failed write stalls the as-written loop |

## Left out

- Websocket upgrade, dial, read deadlines, the pong handler and JSON
  encoding: I/O and library behaviour. A frame is a decoded payload or
  `Undecodable`, and marshalling is the `Codec` parameter. A marshalling error
  in `sendJSONReponse` (the reply is then not sent) is not modelled.
- Timers and tickers: the 30 s agent heartbeat and the writer's timer are
  wall-clock behaviour. A fired timer is the abstract event
  `Writer.TimerFired`. The writer's timer is re-armed only by `AddMessage`, and
  a panic stops the periodic flush for good because the recover wraps the whole
  loop; neither is modelled.
- Goroutine interleavings and data races: each step is atomic. This covers the
  read loop consulting the registry outside the hub loop, and the unlocked
  access to `subscribers` and the write buffer. The routing decision takes the
  registry it observes as a parameter.
- Discord SDK calls are foreign and are recorded as requests: starting and
  stopping the session, the ready event's per-guild fetches (a function
  parameter), posting to a channel and sending a DM. A failed lookup in
  `sendMessageToChannel` or `sendDM` dereferences a nil channel in Go; the
  model does not follow that.
- Each ready event starts another reconnect loop (internal/discord/bot.go:107).
  The model has a single loop.
- SQL text, internal/db/db.go, row scanning and timestamp parsing are replaced
  by an abstract keyed store and a query function. What the database does with
  a negative OFFSET is left to that function.
- `CreateOrUpdateChannels` (internal/discord/controller.go:63-82) is never
  called, and it passes eight arguments to a five-placeholder statement.
- internal/logger/logger.go, the health handler and the server setup only log
  and wire things together.
- internal/ws-manager.go, internal/websocket/manager.go,
  internal/websocket/enum.go and internal/discord-bot.go are earlier revisions
  not reached from cmd/discord/main.go.
- The hub's queues carry values, but client.go sends pointers; the bot's
  database type name differs from the one db.go defines. The model uses value
  semantics throughout.
- `unicastMessage` writes to a copy of the client. A failed write there sends
  the copy to the `unregister` queue, which stalls the as-written loop just as
  any failed write does. Were the send to complete, the copy would not be
  found in the viewer set, so `unregisterClient` would close it only while an
  agent is registered and would leave the viewer in the registry either way.
  The intended loop in the model unregisters the viewer itself.
- Guild iteration in the sync follows Go map order. The model takes the guilds
  as a sequence in any order.
- Session.ReadLoop: only a failed ping write is modelled as ending the loop
  early; a read error or close is the end of the frame sequence.
- Session.ReadLoop: `Read.p` stands for the payload after decoding into the
  one `WSPayload` variable the loop reuses (internal/wshub/client.go:87-90),
  so a field a frame leaves out keeps the previous frame's value; the model
  does not derive that merge from the raw frames. Relay.NoAgentBroadcastsRequests
  speaks of that decoded payload: a frame without `receiver` after a unicast
  frame is unicast again.
- Agent.OnMessage: composes the intended `Writer.AddMessage`. As written, the
  message that brings the buffer to 100 blocks inside `AddMessage`
  (internal/discord/bot.go:115, internal/discord/message_writer.go:32-39), is
  never forwarded, and every later `onMessage` blocks on the writer's lock.
- Relay.NewMessageReachesSubscriber: relies on the intended `Writer.AddMessage`;
  as written, delivery stops at the message that fills the buffer to 100.
- Agent.CacheGuilds: it does not model a failed fetch, which leaves a nil guild
  in the cache and then panics on assigning its channels.
- Paging.Handle: the marshalling error branch (500 "Failed to fetch channels")
  is not modelled, and `http.Error` appends a newline to the text, which the
  model leaves out.
- Store.CreateMessage: a message without member data (a nil `Member`, as a
  webhook post has) makes the member insert dereference a nil pointer
  (internal/discord/controller.go:151-153) and panic, which on the timer path
  ends the periodic flush; every modelled message carries its member.
- Store.OneMessage, Store.BatchRun, Store.CreateMessageOutcome: the member row
  they store is the corrected binding of the internal/discord/controller.go:151-153
  finding (`MemberRowOf`), not the exchanged columns the source binds
  (`MemberRowAsWritten`).
- Paging.CollectAll: stated only for channels of at most 2^62 rows, so that page numbers and offsets stay clear of the int64 wrap-around the handler performs; the termination bound of Collect (the table length) is a modelling device, not a limit of the source.

## Findings

| source | as written | input that shows it | evidently intended | confidence | as-written member | corrected member |
|---|---|---|---|---|---|---|
| internal/discord/message_writer.go:32-39 | `AddMessage` holds `writeMu` and, at the threshold, calls `writeToDatabase`, which locks the same non-reentrant mutex | a buffer of 99 messages and one more message | flush under the lock already held, then return | high; not executed | Writer.ThresholdPathDeadlocks | Writer.AddMessage |
| internal/wshub/client.go:121-128 | a failed write inside the hub loop sends the client on the unbuffered `unregister` queue, whose only reader is that same loop (also hub.go:127) | one registered viewer whose connection is gone, then any broadcast | the loop unregisters the failed client itself | high; not executed | Hub.BrokenViewerStallsLoop | Hub.LoopStep |
| internal/discord/controller.go:151-153 | the member insert binds (author id, author id, guild id) to the columns (id, guild_id, author_id) | a message whose guild id and author id differ | guild_id gets the message's guild, author_id the author | high; not executed | Store.MemberColumnsExchanged | Store.MessageWrites |
| internal/discord/bot.go:85 | guilds and private channels are cached only when the ready event lists more than one | a bot in exactly one guild with one DM channel | any non-empty list is cached and synced | medium; not executed | Agent.SingleGuildNotCached | Agent.OnReady |
