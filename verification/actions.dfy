/**
 * The action vocabulary of the relay (internal/wshub/enum.go).
 *
 * In the Go source both `Action[ClientAction]` and `Action[ServerAction]` are
 * plain strings, and converting between them keeps the string.  The model
 * therefore carries the wire string on every payload and gives each
 * vocabulary a datatype with a mapping to and from its wire strings.
 */
module Actions {
  import opened Optional

  /** What a viewer (or the hub on a viewer's behalf) asks of the agent. */
  datatype ClientAction = Heartbeat | Join | Leave | GuildMessage | SubscribeToGuild | DmMessage

  /** What the hub or the agent announces to viewers. */
  datatype ServerAction = Handshake | ListGuilds | ListDms

  function ClientWire(a: ClientAction): string
  {
    match a
    case Heartbeat => "heartbeat"
    case Join => "get_guilds"
    case Leave => "leave"
    case GuildMessage => "guild_message"
    case SubscribeToGuild => "get_messages"
    case DmMessage => "dm_message"
  }

  function ServerWire(a: ServerAction): string
  {
    match a
    case Handshake => "handshake"
    case ListGuilds => "guilds"
    case ListDms => "list_dms"
  }

  /** The untyped action the agent puts on message lists; it belongs to neither vocabulary. */
  const MessagesWire: string := "messages"

  /**
   * The agent's `switch` on an inbound action string: the client action whose
   * wire string it is, or nothing when no case matches.
   */
  function ParseClient(s: string): (r: Option<ClientAction>)
    ensures r.Some? ==> ClientWire(r.value) == s
    ensures r.None? ==> forall a: ClientAction :: ClientWire(a) != s
  {
    if s == "heartbeat" then Some(Heartbeat)
    else if s == "get_guilds" then Some(Join)
    else if s == "leave" then Some(Leave)
    else if s == "guild_message" then Some(GuildMessage)
    else if s == "get_messages" then Some(SubscribeToGuild)
    else if s == "dm_message" then Some(DmMessage)
    else None
  }

  /** The six client wire strings are pairwise distinct. */
  lemma ClientWireInjective(a: ClientAction, b: ClientAction)
    ensures ClientWire(a) == ClientWire(b) ==> a == b
  {
  }

  /** Parsing inverts the wire mapping, so the dispatch on client actions is deterministic. */
  lemma ParseClientWire(a: ClientAction)
    ensures ParseClient(ClientWire(a)) == Some(a)
  {
    var r := ParseClient(ClientWire(a));
    ClientWireInjective(r.value, a);
  }

  /** A string is recognised exactly when it is some client action's wire string. */
  lemma ParseClientRecognises(s: string)
    ensures ParseClient(s).Some? <==> exists a: ClientAction :: ClientWire(a) == s
  {
    if !ParseClient(s).Some? {
      assert forall a: ClientAction :: ClientWire(a) != s;
    }
  }

  /** The three server wire strings are pairwise distinct. */
  lemma ServerWireInjective(a: ServerAction, b: ServerAction)
    ensures ServerWire(a) == ServerWire(b) ==> a == b
  {
  }

  /** No server action shares a wire string with a client action, nor with "messages". */
  lemma VocabulariesDisjoint(a: ClientAction, b: ServerAction)
    ensures ClientWire(a) != ServerWire(b)
    ensures ClientWire(a) != MessagesWire
    ensures ParseClient(ServerWire(b)) == None
    ensures ParseClient(MessagesWire) == None
  {
  }

  /** Subscribing travels as "get_messages" and joining as "get_guilds". */
  lemma WireNames()
    ensures ClientWire(SubscribeToGuild) == "get_messages"
    ensures ClientWire(Join) == "get_guilds"
    ensures ServerWire(ListGuilds) == "guilds"
  {
  }
}
