/**
 * End-to-end paths through the hub: a viewer's frame routed by its session,
 * carried by the hub loop to the agent, answered by the agent, and carried
 * back. Each lemma composes the Session, Hub and Agent models. Every write in
 * these paths succeeds, so the corrected hub loop `LoopStep` handles each
 * event as the plain step would; the last lemma is the exception, a write to
 * the agent's closed connection.
 */
module Relay {
  import opened Optional
  import opened Actions
  import opened Entities
  import opened Hub
  import Session
  import Agent

  /** With no failed write, no step asks for an unregistration. */
  lemma NothingBrokenNothingRequested(h: HubState, ev: Event)
    ensures Requested(Step(h, ev, {}).effects) == {}
    ensures LoopStep(h, ev, {}) == Step(h, ev, {})
  {
    var e := Step(h, ev, {}).effects;
    assert forall x :: x in e ==> !x.UnregisterRequest?;
  }

  /** A hub with a viewer and an agent registered. */
  predicate Connected(h: HubState, v: Client, a: Client)
  {
    Valid(h) && v in h.viewers && h.agent == Some(a) && |v.id| > 0
  }

  /**
   * A viewer's subscription request reaches the agent tagged with the
   * viewer's id, whatever receiver the viewer wrote; the agent records the
   * subscription and its backlog reply is delivered to that viewer alone.
   */
  lemma SubscribeRoundTrip(h: HubState, v: Client, a: Client, p: Payload, b: Agent.Bot, codec: Agent.Codec)
    requires Connected(h, v, a)
    requires p.action == ClientWire(SubscribeToGuild)
    ensures var tagged := p.(receiver := v.id);
      && Session.RouteFrame(h, v, p) == Session.Enqueue(ToAgent(tagged))
      && LoopStep(h, ToAgent(tagged), {}).effects == {AgentWrite(a, tagged)}
      && var r := Agent.Dispatch(b, tagged, codec);
      && r.bot.subscribers[v.id] == p.message
      && |r.out| == 1
      && r.out[0] == Agent.BacklogReply(b, p.message, v.id, codec)
      && Session.RouteFrame(h, a, r.out[0]) == Session.Enqueue(Unicast(r.out[0]))
      && LoopStep(h, Unicast(r.out[0]), {}).effects == {Deliver(v, ResponseOf(r.out[0]))}
  {
    VocabulariesDisjoint(SubscribeToGuild, Handshake);
    Session.ViewerCannotAddressPeers(h, v, p);
    var tagged := p.(receiver := v.id);
    Agent.SubscribeRecordsAndReplies(b, tagged, codec);
    var reply := Agent.BacklogReply(b, p.message, v.id, codec);
    assert reply.action != ClientWire(Heartbeat) by {
      ClientWireInjective(Heartbeat, SubscribeToGuild);
      assert reply.action == MessagesWire;
    }
    Session.AgentRoutesByReceiver(h, a, reply);
    NothingBrokenNothingRequested(h, ToAgent(tagged));
    NothingBrokenNothingRequested(h, Unicast(reply));
  }

  /**
   * The guild snapshot answering a viewer's join carries no receiver, so the
   * hub broadcasts it to every viewer, not only the one that asked.
   */
  lemma JoinReplyReachesEveryViewer(h: HubState, v: Client, a: Client, p: Payload, b: Agent.Bot, codec: Agent.Codec)
    requires Connected(h, v, a)
    requires p.action == ClientWire(Join)
    ensures var r := Agent.Dispatch(b, p.(receiver := v.id), codec);
      && |r.out| == 1
      && Session.RouteFrame(h, a, r.out[0]) == Session.Enqueue(Broadcast(r.out[0]))
      && forall w :: w in h.viewers ==> Deliver(w, ResponseOf(r.out[0])) in LoopStep(h, Broadcast(r.out[0]), {}).effects
  {
    var tagged := p.(receiver := v.id);
    Agent.JoinRepliesUnaddressed(b, tagged, codec);
    var reply := Agent.GuildsReply(b, codec);
    assert reply.action != ClientWire(Heartbeat) by {
      assert reply.action == ServerWire(ListGuilds);
      VocabulariesDisjoint(Heartbeat, ListGuilds);
    }
    Session.AgentRoutesByReceiver(h, a, reply);
    NothingBrokenNothingRequested(h, Broadcast(reply));
  }

  /** When a viewer's session ends, the leave notice reaches the agent and drops the viewer's subscription. */
  lemma DisconnectDropsSubscription(h: HubState, v: Client, a: Client, frames: seq<Session.Read>, b: Agent.Bot, codec: Agent.Codec)
    requires Connected(h, v, a)
    ensures var out := Session.RunSession(h, v, frames);
      && out[|out| - 2] == Session.Enqueue(ToAgent(Session.Leaving(v)))
      && LoopStep(h, ToAgent(Session.Leaving(v)), {}).effects == {AgentWrite(a, Session.Leaving(v))}
      && v.id !in Agent.Dispatch(b, Session.Leaving(v), codec).bot.subscribers
  {
    Agent.LeaveDeletesByMessage(b, Session.Leaving(v), codec);
    NothingBrokenNothingRequested(h, ToAgent(Session.Leaving(v)));
  }

  /**
   * A new message in a guild is delivered to every connected viewer
   * subscribed to that guild, addressed to it alone.
   */
  lemma NewMessageReachesSubscriber(h: HubState, v: Client, a: Client, b: Agent.Bot, m: Message, codec: Agent.Codec)
    requires Connected(h, v, a)
    requires !b.writer.locked && |m.content| > 0
    requires v.id in b.subscribers && b.subscribers[v.id] == m.guildId
    ensures var n := Agent.Notice(v.id, m, codec);
      && n in Agent.OnMessage(b, m, codec).out
      && Session.RouteFrame(h, a, n) == Session.Enqueue(Unicast(n))
      && LoopStep(h, Unicast(n), {}).effects == {Deliver(v, ResponseOf(n))}
  {
    var n := Agent.Notice(v.id, m, codec);
    assert n.action != ClientWire(Heartbeat) by {
      assert n.action == MessagesWire;
    }
    Session.AgentRoutesByReceiver(h, a, n);
    NothingBrokenNothingRequested(h, Unicast(n));
  }

  /**
   * Without an agent a viewer's frame keeps the receiver it was written with:
   * an empty one is broadcast to every viewer, the sender included.
   */
  lemma NoAgentBroadcastsRequests(h: HubState, v: Client, p: Payload)
    requires Valid(h) && v in h.viewers && h.agent.None?
    requires p.action != ClientWire(Heartbeat) && p.receiver == ""
    ensures Session.RouteFrame(h, v, p) == Session.Enqueue(Broadcast(p))
    ensures forall w :: w in h.viewers ==> Deliver(w, ResponseOf(p)) in LoopStep(h, Broadcast(p), {}).effects
  {
    NothingBrokenNothingRequested(h, Broadcast(p));
  }

  /**
   * After the agent's connection has been unregistered (closed, but still in
   * the slot), the next frame from a viewer is still routed to the agent;
   * the write to the closed connection fails and the as-written loop stalls.
   */
  lemma ClosedAgentStallsHub(h: HubState, v: Client, a: Client, p: Payload)
    requires Valid(h) && h.agent == Some(a) && v in h.viewers
    requires p.action != ClientWire(Heartbeat)
    ensures Step(h, Unregister(a), {a}).hub == h
    ensures Session.RouteFrame(h, v, p) == Session.Enqueue(ToAgent(p.(receiver := v.id)))
    ensures LoopStepAsWritten(Running(h), ToAgent(p.(receiver := v.id)), {a}).Stalled?
  {
    UnregisterAgentKeepsSlot(h, a, p.(receiver := v.id), {a});
  }
}
