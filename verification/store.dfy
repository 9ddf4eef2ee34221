/**
 * The persistence calls of the agent (internal/discord/controller.go) over an
 * abstract keyed store: one map per table, keyed by Discord id.
 *
 * Statements can fail for reasons outside the model (a lost connection, a
 * constraint the schema adds); those are the `faults` parameter, the positions
 * in the statement stream that fail.  The one failure the model derives
 * itself is the plain INSERT of a message whose id is already stored.
 */
module Store {
  import opened Optional
  import opened Entities

  datatype GuildRow = GuildRow(id: string, name: string, icon: string, region: string, ownerId: string)
  datatype ChannelRow = ChannelRow(id: string, guildId: string, name: string, nsfw: bool, position: int)
  datatype AuthorRow = AuthorRow(id: string, email: string, username: string, avatar: string, bot: bool, system: bool)
  datatype MemberRow = MemberRow(id: string, guildId: string, authorId: string, nick: string, avatar: string)
  datatype MessageRow = MessageRow(
    id: string, channelId: string, guildId: string, authorId: string, memberId: string,
    pinned: bool, kind: int, content: string)

  datatype Db = Db(
    guilds: map<string, GuildRow>,
    channels: map<string, ChannelRow>,
    authors: map<string, AuthorRow>,
    members: map<string, MemberRow>,
    messages: map<string, MessageRow>)

  /** The five prepared statements. */
  datatype Write =
    | UpsertGuild(guild: GuildRow)
    | UpsertChannel(channel: ChannelRow)
    | InsertAuthor(author: AuthorRow)
    | InsertMember(member: MemberRow)
    | InsertMessage(message: MessageRow)

  /**
   * One statement.  Guilds and channels are upserts (ON DUPLICATE KEY UPDATE),
   * authors and members are INSERT IGNORE, messages a plain INSERT, which is
   * the only statement that can fail by itself.
   */
  function Apply(db: Db, w: Write): (r: Option<Db>)
    ensures r.None? <==> w.InsertMessage? && w.message.id in db.messages
  {
    match w
    case UpsertGuild(g) => Some(db.(guilds := db.guilds[g.id := g]))
    case UpsertChannel(c) => Some(db.(channels := db.channels[c.id := c]))
    case InsertAuthor(a) => Some(if a.id in db.authors then db else db.(authors := db.authors[a.id := a]))
    case InsertMember(m) => Some(if m.id in db.members then db else db.(members := db.members[m.id := m]))
    case InsertMessage(m) => if m.id in db.messages then None else Some(db.(messages := db.messages[m.id := m]))
  }

  /** Upserts replace every column of an existing row: the last write wins. */
  lemma UpsertLastWins(db: Db, g: GuildRow, c: ChannelRow)
    ensures Apply(db, UpsertGuild(g)).value.guilds[g.id] == g
    ensures Apply(db, UpsertChannel(c)).value.channels[c.id] == c
  {
  }

  /** INSERT IGNORE leaves an existing row alone: the first write wins. */
  lemma InsertIgnoreFirstWins(db: Db, a: AuthorRow, m: MemberRow)
    ensures a.id in db.authors ==> Apply(db, InsertAuthor(a)) == Some(db)
    ensures a.id !in db.authors ==> Apply(db, InsertAuthor(a)).value.authors[a.id] == a
    ensures m.id in db.members ==> Apply(db, InsertMember(m)) == Some(db)
    ensures m.id !in db.members ==> Apply(db, InsertMember(m)).value.members[m.id] == m
  {
  }

  /** A plain INSERT of an already stored message id fails. */
  lemma DuplicateMessageFails(db: Db, m: MessageRow)
    ensures Apply(db, InsertMessage(m)).None? <==> m.id in db.messages
  {
  }

  /** No statement changes an author, member or message row that is already stored. */
  predicate Keeps(db: Db, db': Db)
  {
    && (forall id :: id in db.authors ==> id in db'.authors && db'.authors[id] == db.authors[id])
    && (forall id :: id in db.members ==> id in db'.members && db'.members[id] == db.members[id])
    && (forall id :: id in db.messages ==> id in db'.messages && db'.messages[id] == db.messages[id])
  }

  datatype Run = Run(db: Db, failedAt: Option<nat>)

  /**
   * Executing statements in order, starting at stream position `pos`: the
   * first failure stops the run; `db` is the state after the statements that
   * succeeded.
   */
  function RunWrites(db: Db, ws: seq<Write>, faults: set<nat>, pos: nat): (r: Run)
    ensures r.failedAt.Some? ==> pos <= r.failedAt.value < pos + |ws|
    decreases |ws|
  {
    if |ws| == 0 then Run(db, None)
    else if pos in faults then Run(db, Some(pos))
    else match Apply(db, ws[0])
      case None => Run(db, Some(pos))
      case Some(db1) => RunWrites(db1, ws[1..], faults, pos + 1)
  }

  /** No statement changes an author, member or message row already stored, so no run does. */
  lemma {:induction false} RunKeeps(db: Db, ws: seq<Write>, faults: set<nat>, pos: nat)
    ensures Keeps(db, RunWrites(db, ws, faults, pos).db)
    decreases |ws|
  {
    if |ws| > 0 && pos !in faults && Apply(db, ws[0]).Some? {
      var db1 := Apply(db, ws[0]).value;
      RunKeeps(db1, ws[1..], faults, pos + 1);
      ApplyKeeps(db, ws[0]);
      KeepsTransitive(db, db1, RunWrites(db, ws, faults, pos).db);
    }
  }

  lemma ApplyKeeps(db: Db, w: Write)
    requires Apply(db, w).Some?
    ensures Keeps(db, Apply(db, w).value)
  {
  }

  lemma KeepsTransitive(a: Db, b: Db, c: Db)
    requires Keeps(a, b) && Keeps(b, c)
    ensures Keeps(a, c)
  {
  }

  /** Without faults, statements other than message inserts never fail. */
  lemma {:induction false} UpsertsSucceed(db: Db, ws: seq<Write>, faults: set<nat>, pos: nat)
    requires forall k :: pos <= k < pos + |ws| ==> k !in faults
    requires forall i :: 0 <= i < |ws| ==> !ws[i].InsertMessage?
    ensures RunWrites(db, ws, faults, pos).failedAt.None?
    decreases |ws|
  {
    if |ws| > 0 {
      assert pos !in faults && !ws[0].InsertMessage?;
      UpsertsSucceed(Apply(db, ws[0]).value, ws[1..], faults, pos + 1);
    }
  }

  /** Running `a + b` is running `a`, then `b` if `a` went through. */
  lemma {:induction false} RunAppend(db: Db, a: seq<Write>, b: seq<Write>, faults: set<nat>, pos: nat)
    ensures RunWrites(db, a + b, faults, pos) ==
      var ra := RunWrites(db, a, faults, pos);
      if ra.failedAt.Some? then ra else RunWrites(ra.db, b, faults, pos + |a|)
    decreases |a|
  {
    if |a| == 0 {
      assert a + b == b;
    } else {
      assert (a + b)[0] == a[0];
      if pos !in faults && Apply(db, a[0]).Some? {
        assert (a + b)[1..] == a[1..] + b;
        RunAppend(Apply(db, a[0]).value, a[1..], b, faults, pos + 1);
      }
    }
  }

  /** A run that fails at statement k has written exactly the statements before k. */
  lemma {:induction false} FailureKeepsPrefix(db: Db, ws: seq<Write>, faults: set<nat>, pos: nat)
    requires RunWrites(db, ws, faults, pos).failedAt.Some?
    ensures var r := RunWrites(db, ws, faults, pos);
      RunWrites(db, ws[..r.failedAt.value - pos], faults, pos) == Run(r.db, None)
    decreases |ws|
  {
    var r := RunWrites(db, ws, faults, pos);
    if pos !in faults && Apply(db, ws[0]).Some? {
      FailureKeepsPrefix(Apply(db, ws[0]).value, ws[1..], faults, pos + 1);
      assert ws[..r.failedAt.value - pos][1..] == ws[1..][..r.failedAt.value - (pos + 1)];
    }
  }

  // ---------------------------------------------------------------------
  // CreateMessage: one transaction per batch.
  // ---------------------------------------------------------------------

  function AuthorRowOf(m: Message): AuthorRow
  {
    AuthorRow(m.author.id, m.author.email, m.author.username, m.author.avatar, m.author.bot, m.author.system)
  }

  /** The member row is keyed by the author's id and scoped to the message's guild. */
  function MemberRowOf(m: Message): MemberRow
  {
    MemberRow(m.author.id, m.guildId, m.author.id, m.member.nick, m.member.avatar)
  }

  /**
   * The member row as the member statement binds it: its values are listed as
   * (author id, author id, guild id) against the columns (id, guild_id,
   * author_id), so the guild and author columns are exchanged.
   */
  function MemberRowAsWritten(m: Message): MemberRow
  {
    MemberRow(m.author.id, m.author.id, m.guildId, m.member.nick, m.member.avatar)
  }

  /**
   * Whenever a guild and an author have different ids, the bound row records
   * the author as the member's guild and the guild as the member's author.
   */
  lemma MemberColumnsExchanged(m: Message)
    requires m.guildId != m.author.id
    ensures MemberRowAsWritten(m).guildId != m.guildId && MemberRowAsWritten(m).authorId != m.author.id
    ensures MemberRowAsWritten(m).guildId == MemberRowOf(m).authorId
    ensures MemberRowAsWritten(m).authorId == MemberRowOf(m).guildId
  {
  }

  function MessageRowOf(m: Message): MessageRow
  {
    MessageRow(m.id, m.channelId, m.guildId, m.author.id, m.author.id, m.pinned, m.kind, m.content)
  }

  /** The statements for one message: author, then member, then the message, all naming the same author. */
  function MessageWrites(m: Message): (ws: seq<Write>)
    ensures |ws| == 3 && ws[0].InsertAuthor? && ws[1].InsertMember? && ws[2].InsertMessage?
    ensures ws[0].author.id == m.author.id && ws[1].member.id == m.author.id && ws[1].member.authorId == m.author.id
    ensures ws[1].member.guildId == m.guildId
    ensures ws[2].message.id == m.id && ws[2].message.guildId == m.guildId && ws[2].message.channelId == m.channelId
    ensures ws[2].message.authorId == m.author.id && ws[2].message.memberId == m.author.id
  {
    [InsertAuthor(AuthorRowOf(m)), InsertMember(MemberRowOf(m)), InsertMessage(MessageRowOf(m))]
  }

  /** The statements for a batch, message by message in batch order. */
  function BatchWrites(ms: seq<Message>): (ws: seq<Write>)
    ensures |ws| == 3 * |ms|
    ensures forall k :: 0 <= k < |ws| ==> !ws[k].UpsertGuild? && !ws[k].UpsertChannel?
    decreases |ms|
  {
    if |ms| == 0 then [] else MessageWrites(ms[0]) + BatchWrites(ms[1..])
  }

  lemma {:induction false} BatchWritesOrder(ms: seq<Message>, i: nat)
    requires i < |ms|
    ensures BatchWrites(ms)[3 * i..3 * i + 3] == MessageWrites(ms[i])
    decreases i
  {
    if i > 0 {
      BatchWritesOrder(ms[1..], i - 1);
      assert BatchWrites(ms)[3..] == BatchWrites(ms[1..]);
      assert BatchWrites(ms)[3 * i..3 * i + 3] == BatchWrites(ms)[3..][3 * (i - 1)..3 * (i - 1) + 3];
    }
  }

  /** Whether `begin` (and, for the sync, the statement preparation) worked, which statements fail, and whether commit works. */
  datatype Env = Env(ready: bool, faults: set<nat>, commitOk: bool)

  datatype Result = Result(db: Db, ok: bool)

  /**
   * `CreateMessage`: the whole batch inside one transaction.  Any failing
   * statement returns before commit and the deferred rollback discards
   * everything the batch wrote.
   */
  function CreateMessage(db: Db, ms: seq<Message>, env: Env): (r: Result)
    ensures !r.ok ==> r.db == db
    ensures r.ok ==> env.ready && env.commitOk && Keeps(db, r.db)
  {
    if !env.ready then Result(db, false)
    else
      var run := RunWrites(db, BatchWrites(ms), env.faults, 0);
      assert Keeps(db, run.db) by { RunKeeps(db, BatchWrites(ms), env.faults, 0); }
      if run.failedAt.Some? || !env.commitOk then Result(db, false) else Result(run.db, true)
  }

  /** The batch's message ids are pairwise distinct and none is stored yet. */
  predicate FreshIds(stored: map<string, MessageRow>, ms: seq<Message>)
  {
    && (forall i, j :: 0 <= i < j < |ms| ==> ms[i].id != ms[j].id)
    && (forall i :: 0 <= i < |ms| ==> ms[i].id !in stored)
  }

  /** The first message of the batch by the same author, if it is the first to mention that author. */
  predicate FirstByAuthor(ms: seq<Message>, i: int)
    requires 0 <= i < |ms|
  {
    forall j :: 0 <= j < i ==> ms[j].author.id != ms[i].author.id
  }

  /** What a successful batch leaves behind. */
  predicate Stored(db: Db, ms: seq<Message>, db': Db)
  {
    && Keeps(db, db')
    && (forall i :: 0 <= i < |ms| ==> ms[i].id in db'.messages && db'.messages[ms[i].id] == MessageRowOf(ms[i]))
    && (forall i :: 0 <= i < |ms| ==> ms[i].author.id in db'.authors && ms[i].author.id in db'.members)
    && (forall i :: 0 <= i < |ms| && ms[i].author.id !in db.authors && FirstByAuthor(ms, i) ==>
          db'.authors[ms[i].author.id] == AuthorRowOf(ms[i]))
    && (forall i :: 0 <= i < |ms| && ms[i].author.id !in db.members && FirstByAuthor(ms, i) ==>
          db'.members[ms[i].author.id] == MemberRowOf(ms[i]))
  }

  /** The three statements of one message, unrolled. */
  lemma OneMessage(db: Db, m: Message, faults: set<nat>, pos: nat)
    ensures var r := RunWrites(db, MessageWrites(m), faults, pos);
      && (r.failedAt.None? <==> pos !in faults && pos + 1 !in faults && pos + 2 !in faults && m.id !in db.messages)
      && (r.failedAt.None? ==>
            && r.db.messages == db.messages[m.id := MessageRowOf(m)]
            && r.db.authors == (if m.author.id in db.authors then db.authors else db.authors[m.author.id := AuthorRowOf(m)])
            && r.db.members == (if m.author.id in db.members then db.members else db.members[m.author.id := MemberRowOf(m)]))
  {
    var ws := MessageWrites(m);
    if pos !in faults {
      var d1 := Apply(db, ws[0]).value;
      assert ws[1..][1..] == [ws[2]];
      assert d1.messages == db.messages;
      if pos + 1 !in faults {
        var d2 := Apply(d1, ws[1]).value;
        assert d2.messages == db.messages;
        assert RunWrites(db, ws, faults, pos) == RunWrites(d2, [ws[2]], faults, pos + 2);
        if pos + 2 !in faults && m.id !in db.messages {
          var d3 := Apply(d2, ws[2]).value;
          assert RunWrites(d2, [ws[2]], faults, pos + 2) == RunWrites(d3, [], faults, pos + 3);
        }
      }
    }
  }

  lemma FreshIdsCons(stored: map<string, MessageRow>, ms: seq<Message>, stored1: map<string, MessageRow>)
    requires |ms| > 0 && stored1 == stored[ms[0].id := MessageRowOf(ms[0])]
    ensures FreshIds(stored, ms) <==> ms[0].id !in stored && FreshIds(stored1, ms[1..])
  {
    var rest := ms[1..];
    if FreshIds(stored, ms) {
      forall i | 0 <= i < |rest| ensures rest[i].id !in stored1 {
        assert ms[i + 1] == rest[i];
      }
    }
    if ms[0].id !in stored && FreshIds(stored1, rest) {
      forall i, j | 0 <= i < j < |ms| ensures ms[i].id != ms[j].id {
        assert ms[j] == rest[j - 1];
        if i > 0 { assert ms[i] == rest[i - 1]; }
      }
      forall i | 0 <= i < |ms| ensures ms[i].id !in stored {
        if i > 0 { assert ms[i] == rest[i - 1]; }
      }
    }
  }

  lemma FirstByAuthorTail(ms: seq<Message>, i: int)
    requires 0 < i < |ms| && FirstByAuthor(ms, i)
    ensures FirstByAuthor(ms[1..], i - 1) && ms[0].author.id != ms[i].author.id
  {
    forall j | 0 <= j < i - 1 ensures ms[1..][j].author.id != ms[1..][i - 1].author.id {
      assert ms[1..][j] == ms[j + 1];
    }
  }

  /** Storing the first message and then the rest stores the whole batch. */
  lemma StoredCons(db: Db, ms: seq<Message>, db1: Db, db2: Db)
    requires |ms| > 0
    requires var m := ms[0];
      && db1.messages == db.messages[m.id := MessageRowOf(m)]
      && m.id !in db.messages
      && db1.authors == (if m.author.id in db.authors then db.authors else db.authors[m.author.id := AuthorRowOf(m)])
      && db1.members == (if m.author.id in db.members then db.members else db.members[m.author.id := MemberRowOf(m)])
    requires Stored(db1, ms[1..], db2)
    ensures Stored(db, ms, db2)
  {
    var rest := ms[1..];
    assert Keeps(db, db1);
    forall i | 0 <= i < |ms|
      ensures ms[i].id in db2.messages && db2.messages[ms[i].id] == MessageRowOf(ms[i])
      ensures ms[i].author.id in db2.authors && ms[i].author.id in db2.members
    {
      if i > 0 { assert ms[i] == rest[i - 1]; }
    }
    forall i | 0 <= i < |ms| && ms[i].author.id !in db.authors && FirstByAuthor(ms, i)
      ensures db2.authors[ms[i].author.id] == AuthorRowOf(ms[i])
    {
      if i > 0 {
        FirstByAuthorTail(ms, i);
        assert ms[i] == rest[i - 1];
      }
    }
    forall i | 0 <= i < |ms| && ms[i].author.id !in db.members && FirstByAuthor(ms, i)
      ensures db2.members[ms[i].author.id] == MemberRowOf(ms[i])
    {
      if i > 0 {
        FirstByAuthorTail(ms, i);
        assert ms[i] == rest[i - 1];
      }
    }
  }

  /** A batch's statements all go through exactly when no fault hits them and its ids are fresh. */
  lemma {:induction false} BatchRun(db: Db, ms: seq<Message>, faults: set<nat>, pos: nat)
    ensures var r := RunWrites(db, BatchWrites(ms), faults, pos);
      && (r.failedAt.None? <==> (forall k :: pos <= k < pos + 3 * |ms| ==> k !in faults) && FreshIds(db.messages, ms))
      && (r.failedAt.None? ==> Stored(db, ms, r.db))
    decreases |ms|
  {
    if |ms| > 0 {
      var m := ms[0];
      var rest := ms[1..];
      RunAppend(db, MessageWrites(m), BatchWrites(rest), faults, pos);
      OneMessage(db, m, faults, pos);
      var r0 := RunWrites(db, MessageWrites(m), faults, pos);
      var r := RunWrites(db, BatchWrites(ms), faults, pos);
      if r0.failedAt.None? {
        BatchRun(r0.db, rest, faults, pos + 3);
        FreshIdsCons(db.messages, ms, r0.db.messages);
        if r.failedAt.None? {
          StoredCons(db, ms, r0.db, r.db);
        }
      } else {
        assert r == r0;
      }
    }
  }

  /**
   * The batch commits exactly when the transaction opens and commits, no
   * statement of it faults, and its message ids are distinct and new; a
   * committed batch stores every message, author and member it names.
   */
  lemma CreateMessageOutcome(db: Db, ms: seq<Message>, env: Env)
    ensures var r := CreateMessage(db, ms, env);
      && (r.ok <==> env.ready && env.commitOk
                    && (forall k :: 0 <= k < 3 * |ms| ==> k !in env.faults)
                    && FreshIds(db.messages, ms))
      && (r.ok ==> Stored(db, ms, r.db))
      && (!r.ok ==> r.db == db)
  {
    BatchRun(db, ms, env.faults, 0);
  }

  /** A batch in which two messages share an id stores nothing at all. */
  lemma RepeatedIdDiscardsBatch(db: Db, ms: seq<Message>, i: int, j: int, env: Env)
    requires 0 <= i < j < |ms| && ms[i].id == ms[j].id
    ensures CreateMessage(db, ms, env) == Result(db, false)
  {
    CreateMessageOutcome(db, ms, env);
  }

  // ---------------------------------------------------------------------
  // Guild and channel sync: no transaction.
  // ---------------------------------------------------------------------

  function GuildRowOf(g: Guild): GuildRow
  {
    GuildRow(g.id, g.name, g.icon, g.region, g.ownerId)
  }

  function ChannelRowOf(guildId: string, c: Channel): ChannelRow
  {
    ChannelRow(c.id, guildId, c.name, c.nsfw, c.position)
  }

  function ChannelWrites(guildId: string, cs: seq<Channel>): (ws: seq<Write>)
    ensures |ws| == |cs|
    ensures forall k :: 0 <= k < |cs| ==> ws[k] == UpsertChannel(ChannelRowOf(guildId, cs[k]))
  {
    seq(|cs|, k requires 0 <= k < |cs| => UpsertChannel(ChannelRowOf(guildId, cs[k])))
  }

  /** One guild's statements: the guild first, then each of its channels tagged with the guild's id. */
  function GuildWrites(g: Guild): (ws: seq<Write>)
    ensures |ws| == 1 + |g.channels|
    ensures ws[0] == UpsertGuild(GuildRowOf(g))
    ensures forall k :: 0 <= k < |g.channels| ==> ws[k + 1] == UpsertChannel(ChannelRowOf(g.id, g.channels[k]))
  {
    [UpsertGuild(GuildRowOf(g))] + ChannelWrites(g.id, g.channels)
  }

  /** The statements of `CreateOrUpdateGuildsAndChannels`, guild by guild in iteration order. */
  function SyncWrites(gs: seq<Guild>): (ws: seq<Write>)
    ensures forall i :: 0 <= i < |ws| ==> ws[i].UpsertGuild? || ws[i].UpsertChannel?
    decreases |gs|
  {
    if |gs| == 0 then [] else GuildWrites(gs[0]) + SyncWrites(gs[1..])
  }

  /**
   * `CreateOrUpdateGuildsAndChannels`: upserts outside any transaction.  The
   * first failure stops the loop and the rows written before it stay.
   */
  function SyncGuildsAndChannels(db: Db, gs: seq<Guild>, env: Env): (r: Result)
    ensures !env.ready ==> r == Result(db, false)
    ensures env.ready && (forall k :: 0 <= k < |SyncWrites(gs)| ==> k !in env.faults) ==> r.ok
  {
    if !env.ready then Result(db, false)
    else
      var run := RunWrites(db, SyncWrites(gs), env.faults, 0);
      assert (forall k :: 0 <= k < |SyncWrites(gs)| ==> k !in env.faults) ==> run.failedAt.None? by {
        if forall k :: 0 <= k < |SyncWrites(gs)| ==> k !in env.faults {
          UpsertsSucceed(db, SyncWrites(gs), env.faults, 0);
        }
      }
      Result(run.db, run.failedAt.None?)
  }

  /** A failed sync keeps every row it wrote before the failing statement. */
  lemma SyncFailureKeepsWrittenRows(db: Db, gs: seq<Guild>, env: Env)
    requires env.ready && !SyncGuildsAndChannels(db, gs, env).ok
    ensures var run := RunWrites(db, SyncWrites(gs), env.faults, 0);
      && run.failedAt.Some?
      && SyncGuildsAndChannels(db, gs, env).db == RunWrites(db, SyncWrites(gs)[..run.failedAt.value], env.faults, 0).db
  {
    FailureKeepsPrefix(db, SyncWrites(gs), env.faults, 0);
  }

  /** The statements of `CreateOrUpdateGuilds`: one guild upsert per guild, in iteration order. */
  function GuildUpserts(gs: seq<Guild>): (ws: seq<Write>)
    ensures |ws| == |gs| && forall i :: 0 <= i < |gs| ==> ws[i] == UpsertGuild(GuildRowOf(gs[i]))
  {
    seq(|gs|, i requires 0 <= i < |gs| => UpsertGuild(GuildRowOf(gs[i])))
  }

  /** `CreateOrUpdateGuilds`: the guild rows only, same failure rule. */
  function SyncGuilds(db: Db, gs: seq<Guild>, env: Env): (r: Result)
    ensures !env.ready ==> r == Result(db, false)
    ensures env.ready && (forall k :: 0 <= k < |gs| ==> k !in env.faults) ==> r.ok
    ensures r.db.channels == db.channels
  {
    if !env.ready then Result(db, false)
    else
      var ws := GuildUpserts(gs);
      var run := RunWrites(db, ws, env.faults, 0);
      assert run.db.channels == db.channels by { UpsertGuildsKeepChannels(db, ws, env.faults, 0); }
      assert (forall k :: 0 <= k < |gs| ==> k !in env.faults) ==> run.failedAt.None? by {
        if forall k :: 0 <= k < |gs| ==> k !in env.faults {
          UpsertsSucceed(db, ws, env.faults, 0);
        }
      }
      Result(run.db, run.failedAt.None?)
  }

  /**
   * A fault-free guild sync of a snapshot holding one version of each guild
   * stores every guild row.
   */
  lemma SyncGuildsStoresSnapshot(db: Db, gs: seq<Guild>, env: Env)
    requires env.ready
    requires forall k :: 0 <= k < |gs| ==> k !in env.faults
    requires ConsistentUpserts(GuildUpserts(gs))
    ensures var r := SyncGuilds(db, gs, env);
      && r.ok
      && (forall i :: 0 <= i < |gs| ==> gs[i].id in r.db.guilds && r.db.guilds[gs[i].id] == GuildRowOf(gs[i]))
  {
    var ws := GuildUpserts(gs);
    UpsertsStored(db, ws, env.faults, 0);
    var r := SyncGuilds(db, gs, env);
    forall i | 0 <= i < |gs|
      ensures gs[i].id in r.db.guilds && r.db.guilds[gs[i].id] == GuildRowOf(gs[i])
    {
      assert ws[i].guild == GuildRowOf(gs[i]);
    }
  }

  /** A failed guild sync keeps every guild row written before the failing statement. */
  lemma SyncGuildsFailureKeepsWrittenRows(db: Db, gs: seq<Guild>, env: Env)
    requires env.ready && !SyncGuilds(db, gs, env).ok
    ensures var run := RunWrites(db, GuildUpserts(gs), env.faults, 0);
      && run.failedAt.Some?
      && SyncGuilds(db, gs, env).db == RunWrites(db, GuildUpserts(gs)[..run.failedAt.value], env.faults, 0).db
  {
    FailureKeepsPrefix(db, GuildUpserts(gs), env.faults, 0);
  }

  lemma {:induction false} UpsertGuildsKeepChannels(db: Db, ws: seq<Write>, faults: set<nat>, pos: nat)
    requires forall i :: 0 <= i < |ws| ==> ws[i].UpsertGuild?
    ensures RunWrites(db, ws, faults, pos).db.channels == db.channels
    decreases |ws|
  {
    if |ws| > 0 && pos !in faults {
      UpsertGuildsKeepChannels(Apply(db, ws[0]).value, ws[1..], faults, pos + 1);
    }
  }

  /** Two statements for the same guild or channel id write the same row. */
  predicate SameKeySameRow(a: Write, b: Write)
  {
    && (a.UpsertGuild? && b.UpsertGuild? && a.guild.id == b.guild.id ==> a == b)
    && (a.UpsertChannel? && b.UpsertChannel? && a.channel.id == b.channel.id ==> a == b)
  }

  /** A write list that holds one version of every guild and channel. */
  predicate ConsistentUpserts(ws: seq<Write>)
  {
    forall i, j :: 0 <= i < |ws| && 0 <= j < |ws| ==> SameKeySameRow(ws[i], ws[j])
  }

  /** Fault-free upserts store, for every id they name, the one row written under it. */
  lemma {:induction false} UpsertsStored(db: Db, ws: seq<Write>, faults: set<nat>, pos: nat)
    requires forall k :: pos <= k < pos + |ws| ==> k !in faults
    requires forall i :: 0 <= i < |ws| ==> ws[i].UpsertGuild? || ws[i].UpsertChannel?
    requires ConsistentUpserts(ws)
    ensures var db' := RunWrites(db, ws, faults, pos).db;
      && (forall i :: 0 <= i < |ws| && ws[i].UpsertGuild? ==>
            ws[i].guild.id in db'.guilds && db'.guilds[ws[i].guild.id] == ws[i].guild)
      && (forall i :: 0 <= i < |ws| && ws[i].UpsertChannel? ==>
            ws[i].channel.id in db'.channels && db'.channels[ws[i].channel.id] == ws[i].channel)
    decreases |ws|
  {
    if |ws| > 0 {
      var db1 := Apply(db, ws[0]).value;
      var tail := ws[1..];
      assert ConsistentUpserts(tail) by {
        forall i, j | 0 <= i < |tail| && 0 <= j < |tail| ensures SameKeySameRow(tail[i], tail[j]) {
          assert tail[i] == ws[i + 1] && tail[j] == ws[j + 1];
        }
      }
      UpsertsStored(db1, tail, faults, pos + 1);
      var db' := RunWrites(db, ws, faults, pos).db;
      assert db' == RunWrites(db1, tail, faults, pos + 1).db;
      forall i | 0 <= i < |ws|
        ensures ws[i].UpsertGuild? ==> ws[i].guild.id in db'.guilds && db'.guilds[ws[i].guild.id] == ws[i].guild
        ensures ws[i].UpsertChannel? ==> ws[i].channel.id in db'.channels && db'.channels[ws[i].channel.id] == ws[i].channel
      {
        if i > 0 {
          assert ws[i] == tail[i - 1];
        } else {
          var id := if ws[0].UpsertGuild? then ws[0].guild.id else ws[0].channel.id;
          if j :| 0 <= j < |tail| && ((tail[j].UpsertGuild? && ws[0].UpsertGuild? && tail[j].guild.id == id)
                                      || (tail[j].UpsertChannel? && ws[0].UpsertChannel? && tail[j].channel.id == id)) {
            assert SameKeySameRow(ws[0], ws[j + 1]);
            assert tail[j] == ws[0];
          } else if ws[0].UpsertGuild? {
            UntouchedGuild(db1, tail, faults, pos + 1, id);
          } else {
            UntouchedChannel(db1, tail, faults, pos + 1, id);
          }
        }
      }
    }
  }

  /** A run that never writes guild `id` leaves that guild row as it was. */
  lemma {:induction false} UntouchedGuild(db: Db, ws: seq<Write>, faults: set<nat>, pos: nat, id: string)
    requires forall i :: 0 <= i < |ws| ==> !(ws[i].UpsertGuild? && ws[i].guild.id == id)
    ensures var db' := RunWrites(db, ws, faults, pos).db;
      (id in db'.guilds <==> id in db.guilds) && (id in db.guilds ==> db'.guilds[id] == db.guilds[id])
    decreases |ws|
  {
    if |ws| > 0 && pos !in faults && Apply(db, ws[0]).Some? {
      UntouchedGuild(Apply(db, ws[0]).value, ws[1..], faults, pos + 1, id);
    }
  }

  /** A run that never writes channel `id` leaves that channel row as it was. */
  lemma {:induction false} UntouchedChannel(db: Db, ws: seq<Write>, faults: set<nat>, pos: nat, id: string)
    requires forall i :: 0 <= i < |ws| ==> !(ws[i].UpsertChannel? && ws[i].channel.id == id)
    ensures var db' := RunWrites(db, ws, faults, pos).db;
      (id in db'.channels <==> id in db.channels) && (id in db.channels ==> db'.channels[id] == db.channels[id])
    decreases |ws|
  {
    if |ws| > 0 && pos !in faults && Apply(db, ws[0]).Some? {
      UntouchedChannel(Apply(db, ws[0]).value, ws[1..], faults, pos + 1, id);
    }
  }

  /** Every guild of the snapshot, and every channel of it, has a statement in the sync. */
  lemma {:induction false} SyncWritesCover(gs: seq<Guild>, i: nat)
    requires i < |gs|
    ensures UpsertGuild(GuildRowOf(gs[i])) in SyncWrites(gs)
    ensures forall k :: 0 <= k < |gs[i].channels| ==> UpsertChannel(ChannelRowOf(gs[i].id, gs[i].channels[k])) in SyncWrites(gs)
    decreases i
  {
    var head := GuildWrites(gs[0]);
    assert SyncWrites(gs) == head + SyncWrites(gs[1..]);
    if i == 0 {
      assert head[0] in SyncWrites(gs);
      forall k | 0 <= k < |gs[0].channels|
        ensures UpsertChannel(ChannelRowOf(gs[0].id, gs[0].channels[k])) in SyncWrites(gs)
      {
        assert head[k + 1] in SyncWrites(gs);
      }
    } else {
      SyncWritesCover(gs[1..], i - 1);
      assert gs[1..][i - 1] == gs[i];
    }
  }

  /**
   * A fault-free sync of a snapshot that holds one version of each guild and
   * channel stores every guild row and every channel row, each channel
   * tagged with its guild's id.
   */
  lemma SyncStoresSnapshot(db: Db, gs: seq<Guild>, env: Env)
    requires env.ready
    requires forall k :: 0 <= k < |SyncWrites(gs)| ==> k !in env.faults
    requires ConsistentUpserts(SyncWrites(gs))
    ensures var r := SyncGuildsAndChannels(db, gs, env);
      && r.ok
      && (forall i :: 0 <= i < |gs| ==> gs[i].id in r.db.guilds && r.db.guilds[gs[i].id] == GuildRowOf(gs[i]))
      && (forall i, k :: 0 <= i < |gs| && 0 <= k < |gs[i].channels| ==>
            var c := gs[i].channels[k];
            c.id in r.db.channels && r.db.channels[c.id] == ChannelRowOf(gs[i].id, c))
  {
    var ws := SyncWrites(gs);
    UpsertsStored(db, ws, env.faults, 0);
    var db' := SyncGuildsAndChannels(db, gs, env).db;
    forall i | 0 <= i < |gs|
      ensures gs[i].id in db'.guilds && db'.guilds[gs[i].id] == GuildRowOf(gs[i])
      ensures forall k :: 0 <= k < |gs[i].channels| ==>
                gs[i].channels[k].id in db'.channels && db'.channels[gs[i].channels[k].id] == ChannelRowOf(gs[i].id, gs[i].channels[k])
    {
      SyncWritesCover(gs, i);
      var x :| 0 <= x < |ws| && ws[x] == UpsertGuild(GuildRowOf(gs[i]));
      forall k | 0 <= k < |gs[i].channels|
        ensures gs[i].channels[k].id in db'.channels && db'.channels[gs[i].channels[k].id] == ChannelRowOf(gs[i].id, gs[i].channels[k])
      {
        var y :| 0 <= y < |ws| && ws[y] == UpsertChannel(ChannelRowOf(gs[i].id, gs[i].channels[k]));
      }
    }
  }
}
