/**
 * One connection's side of the hub (internal/wshub/client.go): how a new
 * connection becomes a client, where each frame it sends is routed, and what
 * happens when its read loop ends.
 *
 * The read loop consults the hub's registry without going through the hub
 * loop; the model takes the registry it observes as the parameter `h`.
 */
module Session {
  import opened Actions
  import opened Hub

  /**
   * `WSHandler`: the connection gets a freshly generated id and the role named
   * by its `type` query parameter, and is queued for registration.
   */
  function Accept(id: string, typeParam: string): (ev: Event)
    ensures ev.Register? && ev.c.id == id
    ensures ev.c.IsAgent() <==> typeParam == AgentKind
  {
    Register(Client(id, typeParam))
  }

  /** Where the read loop sends a frame: a ping back on the socket, or one of the hub's queues. */
  datatype Route = PingFrame | Enqueue(ev: Event)

  /**
   * The routing decision of `ReadWS` for one decoded payload from client `c`.
   * Heartbeats are answered with a ping; a viewer's payload goes to the agent
   * stamped with the viewer's id while an agent is registered; everything else
   * is unicast when it names a receiver and broadcast when it does not.
   */
  function RouteFrame(h: HubState, c: Client, p: Payload): (r: Route)
    ensures r == PingFrame <==> p.action == ClientWire(Heartbeat)
    ensures r.Enqueue? ==> r.ev.ToAgent? || r.ev.Unicast? || r.ev.Broadcast?
    ensures r.Enqueue? ==>
      r.ev.p.action == p.action && r.ev.p.messageId == p.messageId && r.ev.p.message == p.message
    ensures r.Enqueue? && r.ev.ToAgent? <==> r != PingFrame && c in h.viewers && h.agent.Some?
    ensures r.Enqueue? && r.ev.ToAgent? ==> r.ev.p.receiver == c.id
    ensures r.Enqueue? && !r.ev.ToAgent? ==> r.ev.p == p && (r.ev.Unicast? <==> |p.receiver| > 0)
  {
    if p.action == ClientWire(Heartbeat) then PingFrame
    else if c in h.viewers && h.agent.Some? then Enqueue(ToAgent(p.(receiver := c.id)))
    else if |p.receiver| > 0 then Enqueue(Unicast(p))
    else Enqueue(Broadcast(p))
  }

  /**
   * One frame read from the socket.  `pingOk` says whether writing a ping on
   * the socket succeeds; it matters only when the frame is a heartbeat.
   */
  datatype Read = Read(p: Payload, pingOk: bool)

  /**
   * The read loop over the frames a connection delivers before its read
   * fails: it routes each one and stops early only when a heartbeat's ping
   * cannot be written.
   */
  function ReadLoop(h: HubState, c: Client, frames: seq<Read>): (out: seq<Route>)
    ensures |out| <= |frames|
    ensures forall i :: 0 <= i < |out| ==> out[i] == RouteFrame(h, c, frames[i].p)
    ensures forall i :: 0 <= i < |out| - 1 ==> out[i] == PingFrame ==> frames[i].pingOk
    ensures |out| < |frames| ==> |out| > 0 && out[|out| - 1] == PingFrame && !frames[|out| - 1].pingOk
    decreases |frames|
  {
    if |frames| == 0 then []
    else
      var r := RouteFrame(h, c, frames[0].p);
      if r == PingFrame && !frames[0].pingOk then [r]
      else [r] + ReadLoop(h, c, frames[1..])
  }

  /** The notice the hub queues for the agent when a connection goes away: a leave carrying the client's id. */
  function Leaving(c: Client): (p: Payload)
    ensures p.action == ClientWire(Leave) && p.message == c.id && p.receiver == ""
  {
    Payload(ClientWire(Leave), "", c.id, "")
  }

  /**
   * A whole session: the read loop, then the deferred leave notice to the
   * agent and the unregistration of the client, whatever ended the loop.
   */
  function RunSession(h: HubState, c: Client, frames: seq<Read>): (out: seq<Route>)
    ensures 2 <= |out| <= |frames| + 2
    ensures out[|out| - 2] == Enqueue(ToAgent(Leaving(c)))
    ensures out[|out| - 1] == Enqueue(Unregister(c))
    ensures forall i :: 0 <= i < |out| - 1 ==> !(out[i].Enqueue? && out[i].ev.Unregister?)
    ensures forall i :: 0 <= i < |out| - 2 ==> out[i] == RouteFrame(h, c, frames[i].p)
  {
    ReadLoop(h, c, frames) + [Enqueue(ToAgent(Leaving(c))), Enqueue(Unregister(c))]
  }

  /**
   * While an agent is registered a viewer cannot address another viewer: its
   * receiver is always replaced by its own id and the payload goes to the agent.
   */
  lemma ViewerCannotAddressPeers(h: HubState, c: Client, p: Payload)
    requires c in h.viewers && h.agent.Some? && p.action != ClientWire(Heartbeat)
    ensures RouteFrame(h, c, p) == Enqueue(ToAgent(p.(receiver := c.id)))
    ensures forall r :: RouteFrame(h, c, p.(receiver := r)) == RouteFrame(h, c, p)
  {
  }

  /** The agent's own payloads are routed by their receiver: unicast when set, broadcast when empty. */
  lemma AgentRoutesByReceiver(h: HubState, a: Client, p: Payload)
    requires Valid(h) && a.IsAgent() && p.action != ClientWire(Heartbeat)
    ensures |p.receiver| > 0 ==> RouteFrame(h, a, p) == Enqueue(Unicast(p))
    ensures p.receiver == "" ==> RouteFrame(h, a, p) == Enqueue(Broadcast(p))
  {
  }
}
