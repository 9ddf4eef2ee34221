/**
 * The hub (internal/wshub/hub.go): the registry of viewers, the single agent
 * slot and the five kinds of work its loop serialises.
 *
 * `ListenToWSChannel` takes one item at a time from its queues, so one pure
 * step per event is faithful.  A write to a connection can fail; which
 * connections fail is the `broken` parameter.  Go iterates maps in random
 * order, so the writes one event causes are a set.
 */
module Hub {
  import opened Optional
  import opened Actions

  /** The `type` query value that marks the agent's connection. */
  const AgentKind: string := "D-BOT"

  /** A connection: its generated id and the role it declared. */
  datatype Client = Client(id: string, kind: string) {
    predicate IsAgent()
    {
      kind == AgentKind
    }
  }

  /** `WSPayload`: what travels on the hub's queues and to the agent. */
  datatype Payload = Payload(action: string, messageId: string, message: string, receiver: string)

  /** `WSJSONResponse`: what is written to a viewer; it has no receiver. */
  datatype Response = Response(action: string, messageId: string, message: string)

  function ResponseOf(p: Payload): Response
  {
    Response(p.action, p.messageId, p.message)
  }

  /** The handshake every registered connection is sent: status 200, message id "0". */
  const HandshakeResponse: Response := Response(ServerWire(Handshake), "0", "{\"status\":200}")

  /** The viewer set, the id-to-viewer lookup and the agent slot. */
  datatype HubState = HubState(viewers: set<Client>, lookup: map<string, Client>, agent: Option<Client>)

  const Empty: HubState := HubState({}, map[], None)

  /**
   * The registry is consistent: the set and the lookup hold the same viewers,
   * each under its own id, and only an agent sits in the agent slot.
   */
  predicate Valid(h: HubState)
  {
    && (forall c :: c in h.viewers ==> !c.IsAgent() && c.id in h.lookup && h.lookup[c.id] == c)
    && (forall id :: id in h.lookup ==> h.lookup[id].id == id && h.lookup[id] in h.viewers)
    && (h.agent.Some? ==> h.agent.value.IsAgent())
  }

  /** The `register`, `unregister`, `broadcast`, `unicast` and `server` queues. */
  datatype Event =
    | Register(c: Client)
    | Unregister(c: Client)
    | Broadcast(p: Payload)
    | Unicast(p: Payload)
    | ToAgent(p: Payload)

  /** What the loop does to the outside world while handling one event. */
  datatype Effect =
    | Deliver(to: Client, r: Response)
    | AgentWrite(to: Client, p: Payload)
    | Close(c: Client)
    | UnregisterRequest(c: Client)

  datatype Outcome = Outcome(hub: HubState, effects: set<Effect>)

  /** `SendMessage`: a write that fails asks for the client's unregistration instead. */
  function Send(c: Client, r: Response, broken: set<Client>): (e: Effect)
    ensures e.UnregisterRequest? <==> c in broken
    ensures e.Deliver? ==> e == Deliver(c, r)
    ensures e.UnregisterRequest? ==> e.c == c
  {
    if c in broken then UnregisterRequest(c) else Deliver(c, r)
  }

  /** `registerClient`: an agent takes the slot, anything else joins the viewers. */
  function RegisterClient(h: HubState, c: Client): (h': HubState)
    ensures c.IsAgent() ==> h'.agent == Some(c) && h'.viewers == h.viewers && h'.lookup == h.lookup
    ensures !c.IsAgent() ==>
      && h'.agent == h.agent
      && h'.viewers == h.viewers + {c}
      && h'.lookup.Keys == h.lookup.Keys + {c.id}
      && h'.lookup[c.id] == c
      && (forall id :: id in h.lookup && id != c.id ==> h'.lookup[id] == h.lookup[id])
  {
    if c.IsAgent() then h.(agent := Some(c))
    else h.(viewers := h.viewers + {c}, lookup := h.lookup[c.id := c])
  }

  /**
   * `unregisterClient`: a viewer leaves the set and the lookup and is closed;
   * any other client is closed only when some agent is registered.  The agent
   * slot is never cleared.
   */
  function UnregisterClient(h: HubState, c: Client): (o: Outcome)
    ensures o.hub.agent == h.agent
    ensures c !in o.hub.viewers && o.hub.viewers <= h.viewers
    ensures Close(c) in o.effects <==> c in h.viewers || h.agent.Some?
    ensures o.effects <= {Close(c)}
    ensures c !in h.viewers ==> o.hub == h
  {
    if c in h.viewers then
      Outcome(HubState(h.viewers - {c}, h.lookup - {c.id}, h.agent), {Close(c)})
    else if h.agent.Some? then
      Outcome(h, {Close(c)})
    else
      Outcome(h, {})
  }

  /** `broadcastMessage`: every viewer is written the payload without its receiver. */
  function BroadcastEffects(h: HubState, p: Payload, broken: set<Client>): (e: set<Effect>)
    ensures forall v :: v in h.viewers && v !in broken ==> Deliver(v, ResponseOf(p)) in e
    ensures forall v :: v in h.viewers && v in broken ==> UnregisterRequest(v) in e
    ensures forall x :: x in e ==>
      || (x.Deliver? && x.to in h.viewers && x.to !in broken && x.r == ResponseOf(p))
      || (x.UnregisterRequest? && x.c in h.viewers && x.c in broken)
  {
    set v | v in h.viewers :: Send(v, ResponseOf(p), broken)
  }

  /** `unicastMessage`: only the viewer looked up under `receiver`; an unknown receiver is a no-op. */
  function UnicastEffects(h: HubState, p: Payload, broken: set<Client>): (e: set<Effect>)
    ensures p.receiver !in h.lookup ==> e == {}
    ensures p.receiver in h.lookup ==> |e| == 1
    ensures forall x :: x in e ==>
      || (x.Deliver? && x.to == h.lookup[p.receiver] && x.r == ResponseOf(p))
      || (x.UnregisterRequest? && x.c == h.lookup[p.receiver])
  {
    if p.receiver in h.lookup then {Send(h.lookup[p.receiver], ResponseOf(p), broken)} else {}
  }

  /** `sendPayloadToBot`: dropped without an agent; a failed write asks to unregister the agent. */
  function AgentEffects(h: HubState, p: Payload, broken: set<Client>): (e: set<Effect>)
    ensures h.agent.None? ==> e == {}
    ensures h.agent.Some? && h.agent.value !in broken ==> e == {AgentWrite(h.agent.value, p)}
    ensures h.agent.Some? && h.agent.value in broken ==> e == {UnregisterRequest(h.agent.value)}
  {
    match h.agent
    case None => {}
    case Some(a) => if a in broken then {UnregisterRequest(a)} else {AgentWrite(a, p)}
  }

  /** One iteration of `ListenToWSChannel`. */
  function Step(h: HubState, ev: Event, broken: set<Client>): (o: Outcome)
    ensures ev.Register? ==> o.effects == {Send(ev.c, HandshakeResponse, broken)}
    ensures !ev.Register? && !ev.Unregister? ==> o.hub == h
    ensures o.hub.agent != h.agent ==> ev.Register? && o.hub.agent == Some(ev.c)
  {
    match ev
    case Register(c) => Outcome(RegisterClient(h, c), {Send(c, HandshakeResponse, broken)})
    case Unregister(c) => UnregisterClient(h, c)
    case Broadcast(p) => Outcome(h, BroadcastEffects(h, p, broken))
    case Unicast(p) => Outcome(h, UnicastEffects(h, p, broken))
    case ToAgent(p) => Outcome(h, AgentEffects(h, p, broken))
  }

  /** The generated ids are pairwise distinct, so a new client's id is not yet in use. */
  predicate Admissible(h: HubState, ev: Event)
  {
    ev.Register? ==> ev.c.id !in h.lookup
  }

  lemma StepPreservesValid(h: HubState, ev: Event, broken: set<Client>)
    requires Valid(h) && Admissible(h, ev)
    ensures Valid(Step(h, ev, broken).hub)
  {
    match ev
    case Register(c) =>
      var h' := RegisterClient(h, c);
      if !c.IsAgent() {
        forall v | v in h'.viewers
          ensures !v.IsAgent() && v.id in h'.lookup && h'.lookup[v.id] == v
        {
          if v != c {
            assert v in h.viewers;
          }
        }
      }
    case Unregister(c) =>
    case Broadcast(_) =>
    case Unicast(_) =>
    case ToAgent(_) =>
  }

  /** Registering an agent replaces the slot and touches neither the viewers nor the lookup. */
  lemma RegisterAgent(h: HubState, c: Client, broken: set<Client>)
    requires Valid(h) && c.IsAgent()
    ensures var o := Step(h, Register(c), broken);
      && o.hub.agent == Some(c)
      && o.hub.viewers == h.viewers && o.hub.lookup == h.lookup
      && c !in o.hub.viewers
  {
  }

  /** Registering any other client makes it a viewer found under its id; the agent slot stays. */
  lemma RegisterViewer(h: HubState, c: Client, broken: set<Client>)
    requires Valid(h) && !c.IsAgent() && c.id !in h.lookup
    ensures var o := Step(h, Register(c), broken);
      && o.hub.agent == h.agent
      && c in o.hub.viewers && c !in h.viewers
      && o.hub.lookup[c.id] == c
      && (forall v :: v in h.viewers ==> v in o.hub.viewers && o.hub.lookup[v.id] == v)
  {
  }

  /** Unregistering a viewer removes it from the set and the lookup; other viewers stay where they were. */
  lemma UnregisterViewer(h: HubState, c: Client, broken: set<Client>)
    requires Valid(h) && c in h.viewers
    ensures var o := Step(h, Unregister(c), broken);
      && c !in o.hub.viewers && c.id !in o.hub.lookup
      && o.effects == {Close(c)}
      && o.hub.agent == h.agent
      && (forall v :: v in h.viewers && v != c ==> v in o.hub.viewers && o.hub.lookup[v.id] == v)
  {
    forall v | v in h.viewers && v != c
      ensures v.id != c.id
    {
      assert h.lookup[v.id] == v && h.lookup[c.id] == c;
    }
  }

  /**
   * Unregistering the agent closes its connection but leaves it in the slot,
   * so every later agent-bound payload is aimed at the closed connection.
   * Writing to a closed connection fails, which is why the agent is taken to
   * be in `broken`: the write becomes an unregister request, the as-written
   * loop stalls on it, and even the intended loop keeps the dead agent.
   */
  lemma UnregisterAgentKeepsSlot(h: HubState, a: Client, p: Payload, broken: set<Client>)
    requires Valid(h) && h.agent == Some(a) && a in broken
    ensures var o := Step(h, Unregister(a), broken);
      && o.hub == h
      && o.effects == {Close(a)}
      && Step(o.hub, ToAgent(p), broken).effects == {UnregisterRequest(a)}
      && LoopStepAsWritten(Running(o.hub), ToAgent(p), broken).Stalled?
      && LoopStep(o.hub, ToAgent(p), broken).hub.agent == Some(a)
  {
    assert UnregisterRequest(a) in Step(h, ToAgent(p), broken).effects;
  }

  /** The registration step writes the handshake: status 200 under message id "0". */
  lemma RegisterSendsHandshake(h: HubState, c: Client, broken: set<Client>)
    ensures c !in broken ==>
      Step(h, Register(c), broken).effects == {Deliver(c, Response("handshake", "0", "{\"status\":200}"))}
    ensures c in broken ==> Step(h, Register(c), broken).effects == {UnregisterRequest(c)}
  {
  }

  /** A broadcast reaches every working viewer and never the agent. */
  lemma BroadcastNeverReachesAgent(h: HubState, p: Payload, broken: set<Client>)
    requires Valid(h)
    ensures var e := Step(h, Broadcast(p), broken).effects;
      && (forall v :: v in h.viewers && v !in broken ==> Deliver(v, ResponseOf(p)) in e)
      && (forall x :: x in e && x.Deliver? ==> !x.to.IsAgent() && x.to in h.viewers)
      && (forall x :: x in e ==> !x.AgentWrite?)
  {
  }

  /** A unicast reaches the viewer whose id is the receiver and nobody else. */
  lemma UnicastReachesOnlyReceiver(h: HubState, p: Payload, broken: set<Client>)
    requires Valid(h)
    ensures var e := Step(h, Unicast(p), broken).effects;
      && (forall x :: x in e && x.Deliver? ==> x.to.id == p.receiver && x.to in h.viewers)
      && (forall v :: v in h.viewers && v.id == p.receiver && v !in broken ==> e == {Deliver(v, ResponseOf(p))})
  {
  }

  // ---------------------------------------------------------------------
  // Failed writes inside the loop.
  //
  // Every write the loop makes (handshake, broadcast, unicast, the agent)
  // reports failure by sending the client on the unbuffered `unregister`
  // queue, whose only reader is the loop itself.  The send can never
  // complete, so the loop stops for good.  `LoopStepAsWritten` models that;
  // `LoopStep` is the evidently intended loop, which unregisters the failed
  // clients itself, and it is the one the rest of the model uses.
  // ---------------------------------------------------------------------

  /** The clients whose writes failed during one step. */
  function Requested(effects: set<Effect>): (cs: set<Client>)
    ensures forall c :: c in cs <==> UnregisterRequest(c) in effects
  {
    set x | x in effects && x.UnregisterRequest? :: x.c
  }

  /** The clients one step writes to: the new client, every viewer, the receiver, or the agent. */
  function Written(h: HubState, ev: Event): set<Client>
  {
    match ev
    case Register(c) => {c}
    case Unregister(_) => {}
    case Broadcast(_) => h.viewers
    case Unicast(p) => if p.receiver in h.lookup then {h.lookup[p.receiver]} else {}
    case ToAgent(_) => if h.agent.Some? then {h.agent.value} else {}
  }

  /** A step asks to unregister exactly the clients it writes to whose connection fails. */
  lemma RequestedAreFailedWrites(h: HubState, ev: Event, broken: set<Client>)
    ensures Requested(Step(h, ev, broken).effects) == Written(h, ev) * broken
  {
    var e := Step(h, ev, broken).effects;
    forall c | c in Written(h, ev) * broken
      ensures UnregisterRequest(c) in e
    {
    }
    forall c | UnregisterRequest(c) in e
      ensures c in Written(h, ev) * broken
    {
    }
  }

  datatype Loop = Running(hub: HubState) | Stalled(hub: HubState)

  /**
   * As written: a step whose write fails blocks the loop forever; a step
   * whose writes all succeed changes the registry as the plain step does.
   */
  function LoopStepAsWritten(l: Loop, ev: Event, broken: set<Client>): (l': Loop)
    ensures l.Stalled? ==> l' == l
    ensures l.Running? ==> l'.hub == Step(l.hub, ev, broken).hub
    ensures l.Running? ==> (l'.Stalled? <==> Written(l.hub, ev) * broken != {})
  {
    match l
    case Stalled(_) => l
    case Running(h) =>
      var o := Step(h, ev, broken);
      RequestedAreFailedWrites(h, ev, broken);
      if Requested(o.effects) == {} then Running(o.hub) else Stalled(o.hub)
  }

  /** The as-written loop over a sequence of events; a loop that ends up running was running throughout. */
  function RunAsWritten(l: Loop, evs: seq<Event>, broken: set<Client>): (r: Loop)
    ensures r.Running? ==> l.Running?
    decreases |evs|
  {
    if |evs| == 0 then l else RunAsWritten(LoopStepAsWritten(l, evs[0], broken), evs[1..], broken)
  }

  /** Once stalled, the loop handles nothing more: no register, no routing, no unregister. */
  lemma {:induction false} StalledForever(l: Loop, evs: seq<Event>, broken: set<Client>)
    requires l.Stalled?
    ensures RunAsWritten(l, evs, broken) == l
    decreases |evs|
  {
    if |evs| > 0 {
      StalledForever(LoopStepAsWritten(l, evs[0], broken), evs[1..], broken);
    }
  }

  /** A viewer whose connection is gone stalls the as-written loop at the next broadcast. */
  lemma BrokenViewerStallsLoop(h: HubState, v: Client, p: Payload, broken: set<Client>)
    requires Valid(h) && v in h.viewers && v in broken
    ensures LoopStepAsWritten(Running(h), Broadcast(p), broken).Stalled?
  {
    assert UnregisterRequest(v) in Step(h, Broadcast(p), broken).effects;
  }

  /** A client whose handshake cannot be written stalls the as-written loop as it registers. */
  lemma FailedHandshakeStallsLoop(h: HubState, c: Client, broken: set<Client>)
    requires c in broken
    ensures LoopStepAsWritten(Running(h), Register(c), broken).Stalled?
  {
    assert c in Written(h, Register(c)) * broken;
  }

  /** Unregistering a whole set of clients at once; the order does not matter. */
  function UnregisterAll(h: HubState, cs: set<Client>): (o: Outcome)
    ensures o.hub.agent == h.agent
    ensures o.hub.viewers == h.viewers - cs
    ensures forall c :: Close(c) in o.effects <==> c in cs && (c in h.viewers || h.agent.Some?)
    ensures forall x :: x in o.effects ==> x.Close?
  {
    var gone := cs * h.viewers;
    Outcome(
      HubState(h.viewers - gone, h.lookup - (set c | c in gone :: c.id), h.agent),
      set c | c in cs && (c in h.viewers || h.agent.Some?) :: Close(c))
  }

  /** For one client, unregistering the set is exactly `unregisterClient`. */
  lemma UnregisterAllSingleton(h: HubState, c: Client)
    ensures UnregisterAll(h, {c}) == UnregisterClient(h, c)
  {
    var o := UnregisterAll(h, {c});
    if c in h.viewers {
      assert (set x | x in {c} * h.viewers :: x.id) == {c.id};
    } else {
      assert (set x | x in {c} * h.viewers :: x.id) == {};
      assert o.hub.lookup == h.lookup;
    }
    assert o.effects == UnregisterClient(h, c).effects;
  }

  lemma UnregisterAllPreservesValid(h: HubState, cs: set<Client>)
    requires Valid(h)
    ensures Valid(UnregisterAll(h, cs).hub)
  {
    var gone := cs * h.viewers;
    var ids := set c | c in gone :: c.id;
    var h' := UnregisterAll(h, cs).hub;
    assert h'.lookup == h.lookup - ids;
  }

  /** The intended loop: the clients whose writes failed are unregistered within the same step. */
  function LoopStep(h: HubState, ev: Event, broken: set<Client>): (o: Outcome)
    ensures forall c :: UnregisterRequest(c) in Step(h, ev, broken).effects ==> c !in o.hub.viewers
    ensures Requested(Step(h, ev, broken).effects) == {} ==> o == Step(h, ev, broken)
  {
    var o := Step(h, ev, broken);
    var u := UnregisterAll(o.hub, Requested(o.effects));
    if Requested(o.effects) == {} then o else Outcome(u.hub, o.effects + u.effects)
  }

  /** The intended loop over a sequence of events. */
  function RunIntended(h: HubState, evs: seq<Event>, broken: set<Client>): HubState
    decreases |evs|
  {
    if |evs| == 0 then h else RunIntended(LoopStep(h, evs[0], broken).hub, evs[1..], broken)
  }

  /**
   * As long as every write succeeds the as-written loop and the intended one
   * keep the same registry: the two differ only once a write has failed.
   */
  lemma {:induction false} RunningAgreesWithIntended(h: HubState, evs: seq<Event>, broken: set<Client>)
    ensures RunAsWritten(Running(h), evs, broken).Running? ==>
      RunAsWritten(Running(h), evs, broken) == Running(RunIntended(h, evs, broken))
    decreases |evs|
  {
    if |evs| > 0 {
      var l := LoopStepAsWritten(Running(h), evs[0], broken);
      if l.Running? {
        RequestedAreFailedWrites(h, evs[0], broken);
        assert LoopStep(h, evs[0], broken) == Step(h, evs[0], broken);
        RunningAgreesWithIntended(l.hub, evs[1..], broken);
      }
    }
  }

  lemma LoopStepPreservesValid(h: HubState, ev: Event, broken: set<Client>)
    requires Valid(h) && Admissible(h, ev)
    ensures Valid(LoopStep(h, ev, broken).hub)
  {
    var o := Step(h, ev, broken);
    StepPreservesValid(h, ev, broken);
    UnregisterAllPreservesValid(o.hub, Requested(o.effects));
  }

  /** With the intended loop a broadcast drops exactly the viewers it could not write to. */
  lemma BroadcastDropsBrokenViewers(h: HubState, p: Payload, broken: set<Client>)
    requires Valid(h)
    ensures LoopStep(h, Broadcast(p), broken).hub.viewers == h.viewers - broken
  {
    var o := Step(h, Broadcast(p), broken);
    assert Requested(o.effects) == h.viewers * broken;
  }
}
