/**
 * The agent's side (internal/discord/bot.go): the subscription table, the
 * dispatch of payloads arriving from the hub, the fan-out of new Discord
 * messages to subscribers, and the caching rule of the ready event.
 *
 * JSON marshalling of replies is the `Codec` parameter; Discord calls are
 * recorded as requests, since their results are only logged.
 */
module Agent {
  import opened Optional
  import opened Actions
  import opened Entities
  import Hub
  import Writer

  /** How replies are serialised into a payload's `message` (json.Marshal in the source). */
  datatype Codec = Codec(
    guilds: map<string, Guild> -> string,
    messages: seq<Message> -> string,
    message: Message -> string)

  /** The Discord actions the agent asks for on a viewer's behalf. */
  datatype PlatformCall = PostToChannel(channelId: string, text: string) | SendDm(userId: string, text: string)

  /**
   * The agent's state: viewer id to subscribed guild id, the write buffer, and
   * the cached guild and DM snapshots.
   */
  datatype Bot = Bot(
    subscribers: map<string, string>,
    writer: Writer.State,
    guilds: map<string, Guild>,
    dms: map<string, Channel>)

  /** The state after one payload, the payloads written to the hub, and the Discord calls requested. */
  datatype Reaction = Reaction(bot: Bot, out: seq<Hub.Payload>, calls: seq<PlatformCall>)

  /** The buffered messages of one guild, in buffer order. */
  function Backlog(buffer: seq<Message>, guildId: string): (r: seq<Message>)
    ensures |r| <= |buffer|
    ensures forall m :: m in r ==> m in buffer && m.guildId == guildId
    ensures forall i :: 0 <= i < |buffer| && buffer[i].guildId == guildId ==> buffer[i] in r
    decreases |buffer|
  {
    if |buffer| == 0 then []
    else (if buffer[0].guildId == guildId then [buffer[0]] else []) + Backlog(buffer[1..], guildId)
  }

  /** Selecting a guild's messages commutes with appending, so buffer order is kept. */
  lemma {:induction false} BacklogAppend(a: seq<Message>, b: seq<Message>, guildId: string)
    ensures Backlog(a + b, guildId) == Backlog(a, guildId) + Backlog(b, guildId)
    decreases |a|
  {
    if |a| == 0 {
      assert a + b == b;
    } else {
      assert (a + b)[0] == a[0];
      assert (a + b)[1..] == a[1..] + b;
      BacklogAppend(a[1..], b, guildId);
    }
  }

  /** The "messages" reply that carries a guild's backlog to a subscriber. */
  function BacklogReply(b: Bot, guildId: string, receiver: string, codec: Codec): (p: Hub.Payload)
    ensures p.action == MessagesWire && p.action != ClientWire(Heartbeat)
    ensures p.receiver == receiver
    ensures p.message == codec.messages(Backlog(b.writer.buffer, guildId))
  {
    Hub.Payload(MessagesWire, "", codec.messages(Backlog(b.writer.buffer, guildId)), receiver)
  }

  /** The guild snapshot reply; its receiver is empty. */
  function GuildsReply(b: Bot, codec: Codec): Hub.Payload
  {
    Hub.Payload(ServerWire(ListGuilds), "", codec.guilds(b.guilds), "")
  }

  /** The switch of `handleWebSocketMessages` for one decoded payload. */
  function Dispatch(b: Bot, p: Hub.Payload, codec: Codec): (r: Reaction)
    ensures r.bot.writer == b.writer && r.bot.guilds == b.guilds && r.bot.dms == b.dms
    ensures |r.out| + |r.calls| <= 1
    ensures forall x :: x in r.out ==> x.receiver == "" || x.receiver == p.receiver
    ensures r.bot.subscribers != b.subscribers ==>
      ParseClient(p.action) == Some(SubscribeToGuild) || ParseClient(p.action) == Some(Leave)
    ensures ParseClient(p.action).None? || ParseClient(p.action) == Some(Heartbeat) ==> r == Reaction(b, [], [])
  {
    match ParseClient(p.action)
    case Some(Join) => Reaction(b, [GuildsReply(b, codec)], [])
    case Some(GuildMessage) => Reaction(b, [], [PostToChannel(p.messageId, p.message)])
    case Some(SubscribeToGuild) =>
      Reaction(b.(subscribers := b.subscribers[p.receiver := p.message]), [BacklogReply(b, p.message, p.receiver, codec)], [])
    case Some(Leave) => Reaction(b.(subscribers := b.subscribers - {p.message}), [], [])
    case Some(DmMessage) => Reaction(b, [], [SendDm(p.messageId, p.message)])
    case Some(Heartbeat) => Reaction(b, [], [])
    case None => Reaction(b, [], [])
  }

  /**
   * Subscribing answers the requester with the guild's buffered messages, then
   * records the subscription; a second subscription replaces the first.
   */
  lemma SubscribeRecordsAndReplies(b: Bot, p: Hub.Payload, codec: Codec)
    requires p.action == ClientWire(SubscribeToGuild)
    ensures var r := Dispatch(b, p, codec);
      && r.out == [BacklogReply(b, p.message, p.receiver, codec)]
      && r.bot.subscribers[p.receiver] == p.message
      && r.bot.subscribers.Keys == b.subscribers.Keys + {p.receiver}
      && (forall v :: v in b.subscribers && v != p.receiver ==> r.bot.subscribers[v] == b.subscribers[v])
  {
    ParseClientWire(SubscribeToGuild);
  }

  /**
   * Leaving deletes the subscription named by the payload's `message`, not the
   * one of its `receiver`: the requester's own subscription survives unless
   * it names itself.
   */
  lemma LeaveDeletesByMessage(b: Bot, p: Hub.Payload, codec: Codec)
    requires p.action == ClientWire(Leave)
    ensures var r := Dispatch(b, p, codec);
      && p.message !in r.bot.subscribers
      && r.bot.subscribers.Keys == b.subscribers.Keys - {p.message}
      && (p.receiver != p.message && p.receiver in b.subscribers ==>
            r.bot.subscribers[p.receiver] == b.subscribers[p.receiver])
      && r.out == [] && r.calls == []
  {
    ParseClientWire(Leave);
  }

  /** Joining sends the guild snapshot with an empty receiver, so it is not addressed to the requester. */
  lemma JoinRepliesUnaddressed(b: Bot, p: Hub.Payload, codec: Codec)
    requires p.action == ClientWire(Join)
    ensures var r := Dispatch(b, p, codec);
      && r.out == [GuildsReply(b, codec)]
      && r.out[0].action == "guilds" && r.out[0].receiver == ""
      && r.bot == b
  {
    ParseClientWire(Join);
  }

  /** Posting to a channel and sending a DM only request the Discord call. */
  lemma MessagesRequestCalls(b: Bot, p: Hub.Payload, codec: Codec)
    ensures p.action == ClientWire(GuildMessage) ==>
      Dispatch(b, p, codec) == Reaction(b, [], [PostToChannel(p.messageId, p.message)])
    ensures p.action == ClientWire(DmMessage) ==>
      Dispatch(b, p, codec) == Reaction(b, [], [SendDm(p.messageId, p.message)])
  {
    ParseClientWire(GuildMessage);
    ParseClientWire(DmMessage);
  }

  // ---------------------------------------------------------------------
  // The read loop on the agent's connection.
  // ---------------------------------------------------------------------

  /** A message read from the hub: a decodable payload, or a frame that is not JSON of the payload shape. */
  datatype Frame = Received(p: Hub.Payload) | Undecodable

  datatype Emit = Send(p: Hub.Payload) | Call(c: PlatformCall) | CloseConnection | SignalDisconnect

  datatype SessionEnd = SessionEnd(bot: Bot, emitted: seq<Emit>)

  function Emits(r: Reaction): (e: seq<Emit>)
    ensures forall i :: 0 <= i < |e| ==> e[i].Send? || e[i].Call?
  {
    seq(|r.out|, i requires 0 <= i < |r.out| => Send(r.out[i])) + seq(|r.calls|, i requires 0 <= i < |r.calls| => Call(r.calls[i]))
  }

  /**
   * `handleWebSocketMessages` over the frames read before the read fails:
   * undecodable frames are skipped; the failed read closes the connection and
   * signals the reconnect loop.
   */
  function HandleSession(b: Bot, frames: seq<Frame>, codec: Codec): (r: SessionEnd)
    ensures |r.emitted| >= 2
    ensures r.emitted[|r.emitted| - 2..] == [CloseConnection, SignalDisconnect]
    ensures forall i :: 0 <= i < |r.emitted| - 2 ==> r.emitted[i].Send? || r.emitted[i].Call?
    ensures r.bot.writer == b.writer && r.bot.guilds == b.guilds && r.bot.dms == b.dms
    decreases |frames|
  {
    if |frames| == 0 then SessionEnd(b, [CloseConnection, SignalDisconnect])
    else match frames[0]
      case Undecodable => HandleSession(b, frames[1..], codec)
      case Received(p) =>
        var r := Dispatch(b, p, codec);
        var rest := HandleSession(r.bot, frames[1..], codec);
        EmitsBeforeClose(Emits(r), rest.emitted);
        SessionEnd(rest.bot, Emits(r) + rest.emitted)
  }

  /** Sends and calls put in front of a session's emits keep it ending in the close and the signal. */
  lemma EmitsBeforeClose(a: seq<Emit>, e: seq<Emit>)
    requires forall i :: 0 <= i < |a| ==> a[i].Send? || a[i].Call?
    requires |e| >= 2 && e[|e| - 2..] == [CloseConnection, SignalDisconnect]
    requires forall i :: 0 <= i < |e| - 2 ==> e[i].Send? || e[i].Call?
    ensures |a + e| >= 2 && (a + e)[|a + e| - 2..] == [CloseConnection, SignalDisconnect]
    ensures forall i :: 0 <= i < |a + e| - 2 ==> (a + e)[i].Send? || (a + e)[i].Call?
  {
    assert (a + e)[|a + e| - 2..] == e[|e| - 2..];
  }

  /** An undecodable frame changes nothing; an unrecognised action changes nothing. */
  lemma IgnoredFrames(b: Bot, p: Hub.Payload, frames: seq<Frame>, codec: Codec)
    requires ParseClient(p.action).None?
    ensures HandleSession(b, [Undecodable] + frames, codec) == HandleSession(b, frames, codec)
    ensures HandleSession(b, [Received(p)] + frames, codec) == HandleSession(b, frames, codec)
  {
    assert ([Undecodable] + frames)[1..] == frames;
    assert ([Received(p)] + frames)[1..] == frames;
    assert Emits(Reaction(b, [], [])) == [];
  }

  /** What a session emitted before the failed read closed it. */
  function BeforeClose(e: SessionEnd): seq<Emit>
  {
    if |e.emitted| >= 2 then e.emitted[..|e.emitted| - 2] else e.emitted
  }

  /**
   * Reading frames in two stretches is reading them in one: the emits of the
   * first stretch, up to its close, are followed by those of the second,
   * started from the bot the first left behind.
   */
  lemma {:induction false} HandleSessionAppend(b: Bot, f1: seq<Frame>, f2: seq<Frame>, codec: Codec)
    ensures HandleSession(b, f1 + f2, codec).bot == HandleSession(HandleSession(b, f1, codec).bot, f2, codec).bot
    ensures HandleSession(b, f1 + f2, codec).emitted
         == BeforeClose(HandleSession(b, f1, codec)) + HandleSession(HandleSession(b, f1, codec).bot, f2, codec).emitted
    decreases |f1|
  {
    if |f1| == 0 {
      assert f1 + f2 == f2;
    } else {
      var t := f1[1..];
      assert (f1 + f2)[0] == f1[0];
      assert (f1 + f2)[1..] == t + f2;
      match f1[0]
      case Undecodable =>
        HandleSessionAppend(b, t, f2, codec);
      case Received(p) =>
        var r := Dispatch(b, p, codec);
        HandleSessionAppend(r.bot, t, f2, codec);
        AppendAfterDispatch(b, p, f1, f2, codec);
    }
  }

  /** The step of `HandleSessionAppend` past a decoded first frame, given the claim for the frames after it. */
  lemma AppendAfterDispatch(b: Bot, p: Hub.Payload, f1: seq<Frame>, f2: seq<Frame>, codec: Codec)
    requires |f1| > 0 && f1[0] == Received(p)
    requires (f1 + f2)[1..] == f1[1..] + f2
    requires var r := Dispatch(b, p, codec); var first := HandleSession(r.bot, f1[1..], codec);
      && HandleSession(r.bot, f1[1..] + f2, codec).bot == HandleSession(first.bot, f2, codec).bot
      && HandleSession(r.bot, f1[1..] + f2, codec).emitted == BeforeClose(first) + HandleSession(first.bot, f2, codec).emitted
    ensures HandleSession(b, f1 + f2, codec).bot == HandleSession(HandleSession(b, f1, codec).bot, f2, codec).bot
    ensures HandleSession(b, f1 + f2, codec).emitted
         == BeforeClose(HandleSession(b, f1, codec)) + HandleSession(HandleSession(b, f1, codec).bot, f2, codec).emitted
  {
    var r := Dispatch(b, p, codec);
    var rest := HandleSession(r.bot, f1[1..], codec);
    var whole := HandleSession(r.bot, f1[1..] + f2, codec);
    assert (f1 + f2)[0] == Received(p);
    SessionAfterDispatch(b, p, f1, codec);
    SessionAfterDispatch(b, p, f1 + f2, codec);
    JoinSessions(Emits(r), rest, whole, HandleSession(rest.bot, f2, codec));
  }

  /** Sequence bookkeeping of `AppendAfterDispatch`, apart from the sessions themselves. */
  lemma JoinSessions(e: seq<Emit>, rest: SessionEnd, whole: SessionEnd, second: SessionEnd)
    requires |rest.emitted| >= 2
    requires whole.emitted == BeforeClose(rest) + second.emitted
    ensures e + whole.emitted == BeforeClose(SessionEnd(rest.bot, e + rest.emitted)) + second.emitted
  {
    PrefixBeforeClose(e, rest.emitted);
  }

  /** A session whose first frame decodes: that frame's emits, then the rest of the session from the bot it left. */
  lemma SessionAfterDispatch(b: Bot, p: Hub.Payload, frames: seq<Frame>, codec: Codec)
    requires |frames| > 0 && frames[0] == Received(p)
    ensures HandleSession(b, frames, codec).bot == HandleSession(Dispatch(b, p, codec).bot, frames[1..], codec).bot
    ensures HandleSession(b, frames, codec).emitted == Emits(Dispatch(b, p, codec)) + HandleSession(Dispatch(b, p, codec).bot, frames[1..], codec).emitted
  {
  }

  /** Dropping the last two entries of `a + e` drops them from `e`. */
  lemma PrefixBeforeClose(a: seq<Emit>, e: seq<Emit>)
    requires |e| >= 2
    ensures (a + e)[..|a + e| - 2] == a + e[..|e| - 2]
  {
  }

  /** One decoded frame emits what its dispatch sends and calls, then the close. */
  lemma OneFrameSession(b: Bot, p: Hub.Payload, codec: Codec)
    ensures HandleSession(b, [Received(p)], codec).emitted == Emits(Dispatch(b, p, codec)) + [CloseConnection, SignalDisconnect]
    ensures HandleSession(b, [Received(p)], codec).bot == Dispatch(b, p, codec).bot
  {
    assert [Received(p)][1..] == [];
  }

  /** A response decoded as a payload: the missing receiver field reads as empty. */
  function Decoded(r: Hub.Response): Hub.Payload
  {
    Hub.Payload(r.action, r.messageId, r.message, "")
  }

  /** The handshake the hub sends every registered connection is ignored by the agent. */
  lemma HandshakeIgnored(b: Bot, codec: Codec)
    ensures Dispatch(b, Decoded(Hub.HandshakeResponse), codec) == Reaction(b, [], [])
  {
    VocabulariesDisjoint(Heartbeat, Handshake);
  }

  // ---------------------------------------------------------------------
  // New Discord messages.
  // ---------------------------------------------------------------------

  /** The notice one subscriber gets for a new message: addressed to it, keyed by the channel id. */
  function Notice(receiver: string, m: Message, codec: Codec): (p: Hub.Payload)
    ensures p.action == MessagesWire && p.action != ClientWire(Heartbeat)
    ensures p.receiver == receiver && p.messageId == m.channelId && p.message == codec.message(m)
  {
    Hub.Payload(MessagesWire, m.channelId, codec.message(m), receiver)
  }

  datatype Arrival = Arrival(bot: Bot, out: set<Hub.Payload>, persist: Writer.Effect)

  /**
   * `onMessage`: an empty message is dropped; otherwise it is added to the
   * write buffer and each subscriber of its guild gets one notice.
   */
  function OnMessage(b: Bot, m: Message, codec: Codec): (r: Arrival)
    requires !b.writer.locked
    ensures |m.content| == 0 ==> r == Arrival(b, {}, Writer.Nothing)
    ensures r.bot.subscribers == b.subscribers && r.bot.guilds == b.guilds && r.bot.dms == b.dms
    ensures |m.content| > 0 ==> r.bot.writer == Writer.AddMessage(b.writer, m).w && r.persist == Writer.AddMessage(b.writer, m).effect
    ensures forall x :: x in r.out ==> x == Notice(x.receiver, m, codec)
    ensures forall v :: Notice(v, m, codec) in r.out <==>
      |m.content| > 0 && v in b.subscribers && b.subscribers[v] == m.guildId
  {
    if |m.content| == 0 then Arrival(b, {}, Writer.Nothing)
    else
      var s := Writer.AddMessage(b.writer, m);
      Arrival(b.(writer := s.w), set v | v in b.subscribers && b.subscribers[v] == m.guildId :: Notice(v, m, codec), s.effect)
  }

  /** Each subscriber of the message's guild gets exactly one notice, and every other viewer none. */
  lemma FanOutOnePerSubscriber(b: Bot, m: Message, codec: Codec)
    requires !b.writer.locked
    ensures var out := OnMessage(b, m, codec).out;
      && (forall x, y :: x in out && y in out && x.receiver == y.receiver ==> x == y)
      && (forall x :: x in out ==> x.receiver in b.subscribers && b.subscribers[x.receiver] == m.guildId)
  {
  }

  // ---------------------------------------------------------------------
  // The ready event.
  // ---------------------------------------------------------------------

  /** The guilds `fetch` returns, one per listed id; a later entry for the same id wins. */
  function CacheGuilds(cache: map<string, Guild>, ids: seq<string>, fetch: string -> Guild): (r: map<string, Guild>)
    ensures r.Keys == cache.Keys + set id | id in ids
    ensures forall id :: id in ids ==> r[id] == fetch(id)
    ensures forall id :: id in cache && id !in ids ==> r[id] == cache[id]
    decreases |ids|
  {
    if |ids| == 0 then cache else CacheGuilds(cache[ids[0] := fetch(ids[0])], ids[1..], fetch)
  }

  /** No later entry of `cs` has the id of entry `i`. */
  predicate LastWithId(cs: seq<Channel>, i: int)
    requires 0 <= i < |cs|
  {
    forall j :: i < j < |cs| ==> cs[j].id != cs[i].id
  }

  /** The private channels listed, keyed by id; a later entry for the same id wins. */
  function CacheDms(cache: map<string, Channel>, cs: seq<Channel>): (r: map<string, Channel>)
    ensures r.Keys == cache.Keys + set c | c in cs :: c.id
    ensures forall i :: 0 <= i < |cs| && LastWithId(cs, i) ==> r[cs[i].id] == cs[i]
    ensures forall id :: id in cache && (forall c :: c in cs ==> c.id != id) ==> r[id] == cache[id]
    decreases |cs|
  {
    if |cs| == 0 then cache
    else
      LastWithIdTail(cs);
      CacheDms(cache[cs[0].id := cs[0]], cs[1..])
  }

  /** Dropping the first entry keeps every later entry last for its id, and the first is last when no later entry shares its id. */
  lemma LastWithIdTail(cs: seq<Channel>)
    requires |cs| > 0
    ensures forall i :: 0 < i < |cs| && LastWithId(cs, i) ==> LastWithId(cs[1..], i - 1)
    ensures LastWithId(cs, 0) ==> forall c :: c in cs[1..] ==> c.id != cs[0].id
  {
    forall i | 0 < i < |cs| && LastWithId(cs, i) ensures LastWithId(cs[1..], i - 1) {
      forall j | i - 1 < j < |cs[1..]| ensures cs[1..][j].id != cs[1..][i - 1].id {
        assert cs[1..][j] == cs[j + 1];
      }
    }
    if LastWithId(cs, 0) {
      forall c | c in cs[1..] ensures c.id != cs[0].id {
        var j :| 0 <= j < |cs[1..]| && cs[1..][j] == c;
        assert cs[j + 1] == c;
      }
    }
  }

  /** Every listed private channel is cached: the last entry for each id is the one kept. */
  lemma CacheDmsHoldsListed(cache: map<string, Channel>, cs: seq<Channel>)
    ensures forall c :: c in cs ==> c.id in CacheDms(cache, cs) && CacheDms(cache, cs)[c.id] in cs
  {
    var r := CacheDms(cache, cs);
    forall c | c in cs ensures c.id in r && r[c.id] in cs {
      var i :| 0 <= i < |cs| && cs[i] == c;
      var k := LastIndex(cs, i);
      assert r[cs[k].id] == cs[k];
    }
  }

  /** The last position holding the id of entry `i`. */
  function LastIndex(cs: seq<Channel>, i: int): (k: int)
    requires 0 <= i < |cs|
    ensures i <= k < |cs| && cs[k].id == cs[i].id && LastWithId(cs, k)
    decreases |cs| - i
  {
    if exists j :: i < j < |cs| && cs[j].id == cs[i].id then
      var j :| i < j < |cs| && cs[j].id == cs[i].id;
      LastIndex(cs, j)
    else i
  }

  /** The agent after a ready event, and whether it started a guild and channel sync. */
  datatype Ready = Ready(bot: Bot, syncStarted: bool)

  /** The caching rule with the minimum list length left open: a list is cached when it is longer than `atLeast`. */
  function CacheReady(b: Bot, guildIds: seq<string>, privateChannels: seq<Channel>, fetch: string -> Guild, atLeast: nat): (r: Ready)
    ensures r.bot.subscribers == b.subscribers && r.bot.writer == b.writer
    ensures r.syncStarted <==> |guildIds| > atLeast
    ensures |guildIds| > atLeast ==> forall id :: id in guildIds ==> id in r.bot.guilds && r.bot.guilds[id] == fetch(id)
    ensures |guildIds| <= atLeast ==> r.bot.guilds == b.guilds
    ensures |privateChannels| > atLeast ==> forall c :: c in privateChannels ==> c.id in r.bot.dms
    ensures |privateChannels| > atLeast ==> forall i :: 0 <= i < |privateChannels| && LastWithId(privateChannels, i) ==>
      r.bot.dms[privateChannels[i].id] == privateChannels[i]
    ensures forall id :: id in b.guilds && id !in guildIds ==> id in r.bot.guilds && r.bot.guilds[id] == b.guilds[id]
    ensures forall id :: id in b.dms && (forall c :: c in privateChannels ==> c.id != id) ==> id in r.bot.dms && r.bot.dms[id] == b.dms[id]
    ensures |privateChannels| <= atLeast ==> r.bot.dms == b.dms
  {
    var guilds := if |guildIds| > atLeast then CacheGuilds(b.guilds, guildIds, fetch) else b.guilds;
    var dms := if |privateChannels| > atLeast then CacheDms(b.dms, privateChannels) else b.dms;
    Ready(b.(guilds := guilds, dms := dms), |guildIds| > atLeast)
  }

  /** `onReady` as written: lists are cached only when they hold more than one entry. */
  function OnReadyAsWritten(b: Bot, guildIds: seq<string>, privateChannels: seq<Channel>, fetch: string -> Guild): (r: Ready)
    ensures r.syncStarted <==> |guildIds| >= 2
    ensures |guildIds| < 2 ==> r.bot.guilds == b.guilds
    ensures |privateChannels| < 2 ==> r.bot.dms == b.dms
    ensures |guildIds| >= 2 ==> r.bot.guilds == OnReady(b, guildIds, privateChannels, fetch).bot.guilds
    ensures |privateChannels| >= 2 ==> r.bot.dms == OnReady(b, guildIds, privateChannels, fetch).bot.dms
  {
    CacheReady(b, guildIds, privateChannels, fetch, 1)
  }

  /** A bot in exactly one guild caches nothing and never syncs it. */
  lemma SingleGuildNotCached(b: Bot, id: string, dm: Channel, fetch: string -> Guild)
    ensures var r := OnReadyAsWritten(b, [id], [dm], fetch);
      r.bot == b && !r.syncStarted
  {
  }

  /** `onReady` as evidently intended: any non-empty list is cached. */
  function OnReady(b: Bot, guildIds: seq<string>, privateChannels: seq<Channel>, fetch: string -> Guild): (r: Ready)
    ensures forall id :: id in guildIds ==> id in r.bot.guilds && r.bot.guilds[id] == fetch(id)
    ensures forall c :: c in privateChannels ==> c.id in r.bot.dms
    ensures forall i :: 0 <= i < |privateChannels| && LastWithId(privateChannels, i) ==>
      r.bot.dms[privateChannels[i].id] == privateChannels[i]
    ensures forall id :: id in b.guilds && id !in guildIds ==> id in r.bot.guilds && r.bot.guilds[id] == b.guilds[id]
    ensures forall id :: id in b.dms && (forall c :: c in privateChannels ==> c.id != id) ==> id in r.bot.dms && r.bot.dms[id] == b.dms[id]
    ensures r.bot.subscribers == b.subscribers && r.bot.writer == b.writer
    ensures r.syncStarted <==> |guildIds| > 0
  {
    CacheReady(b, guildIds, privateChannels, fetch, 0)
  }
}
