/**
 * The agent's reconnect loop (`subscribeToWebSocket` in
 * internal/discord/bot.go): dial the hub as an agent, and after a refused
 * dial or a lost connection wait five seconds and dial again, forever.
 *
 * The outcome of each dial is the input; the blocking wait for the reader's
 * close signal is an action of its own.
 */
module Link {
  /** Seconds slept before every redial. */
  const ReconnectDelay: nat := 5

  /** Seconds between the agent's heartbeat frames. */
  const HeartbeatPeriod: nat := 30

  /** The hub address the agent dials, with its connection type. */
  const AgentUrl: string := "ws://127.0.0.1/ws?type=D-BOT"

  /** What one dial produced: a refusal, or a connection that is later lost. */
  datatype Attempt = Refused | Connected

  datatype Action = Dial(url: string) | StartReader | StartHeartbeat | AwaitClose | Sleep(seconds: nat)

  /** One pass through the loop body. */
  function Iteration(a: Attempt): (r: seq<Action>)
    ensures |r| >= 2 && r[0] == Dial(AgentUrl) && r[|r| - 1] == Sleep(ReconnectDelay)
    ensures forall i :: 0 < i < |r| ==> !r[i].Dial?
    ensures forall i :: 0 <= i < |r| - 1 ==> !r[i].Sleep?
    ensures StartReader in r <==> a == Connected
  {
    match a
    case Refused => [Dial(AgentUrl), Sleep(ReconnectDelay)]
    case Connected => [Dial(AgentUrl), StartReader, StartHeartbeat, AwaitClose, Sleep(ReconnectDelay)]
  }

  /** The actions taken over a run of dial outcomes. */
  function Loop(attempts: seq<Attempt>): (r: seq<Action>)
    ensures |r| >= 2 * |attempts|
    ensures |attempts| > 0 ==> r[0] == Dial(AgentUrl) && r[|r| - 1] == Sleep(ReconnectDelay)
    decreases |attempts|
  {
    if |attempts| == 0 then [] else Iteration(attempts[0]) + Loop(attempts[1..])
  }

  /** The loop has no exit: after any run it is back at the top, about to dial. */
  lemma {:induction false} LoopExtends(attempts: seq<Attempt>, a: Attempt)
    ensures Loop(attempts + [a]) == Loop(attempts) + Iteration(a)
    ensures Loop(attempts + [a])[|Loop(attempts)|] == Dial(AgentUrl)
    decreases |attempts|
  {
    if |attempts| == 0 {
      assert attempts + [a] == [a];
      assert Loop([a]) == Iteration(a) + Loop([]);
    } else {
      var t := attempts[1..];
      assert (attempts + [a])[0] == attempts[0];
      assert (attempts + [a])[1..] == t + [a];
      LoopExtends(t, a);
      calc {
        Loop(attempts + [a]);
        Iteration(attempts[0]) + Loop(t + [a]);
        Iteration(attempts[0]) + (Loop(t) + Iteration(a));
        (Iteration(attempts[0]) + Loop(t)) + Iteration(a);
      }
    }
  }

  /** Every wait lasts five seconds and is directly followed by a redial of the hub. */
  lemma {:induction false} WaitThenRedial(attempts: seq<Attempt>)
    ensures forall i :: 0 <= i < |Loop(attempts)| && Loop(attempts)[i].Sleep? ==>
      Loop(attempts)[i].seconds == ReconnectDelay
      && (i + 1 < |Loop(attempts)| ==> Loop(attempts)[i + 1] == Dial(AgentUrl))
    decreases |attempts|
  {
    if |attempts| > 0 {
      var head: seq<Action> := Iteration(attempts[0]);
      var tail: seq<Action> := Loop(attempts[1..]);
      WaitThenRedial(attempts[1..]);
      assert Loop(attempts) == head + tail;
      forall i | 0 <= i < |head + tail| && (head + tail)[i].Sleep?
        ensures (head + tail)[i].seconds == ReconnectDelay
        ensures i + 1 < |head + tail| ==> (head + tail)[i + 1] == Dial(AgentUrl)
      {
        if i < |head| {
          assert head[i].Sleep?;
          assert i == |head| - 1;
          if i + 1 < |head + tail| {
            assert |attempts[1..]| > 0;
            assert (head + tail)[i + 1] == tail[0];
          }
        } else {
          assert (head + tail)[i] == tail[i - |head|];
          if i + 1 < |head + tail| {
            assert (head + tail)[i + 1] == tail[i + 1 - |head|];
          }
        }
      }
    }
  }

  /** The actions of one pass through the loop body, counted. */
  lemma IterationCounts(a: Attempt)
    ensures multiset(Iteration(a))[Dial(AgentUrl)] == 1
    ensures multiset(Iteration(a))[Sleep(ReconnectDelay)] == 1
    ensures multiset(Iteration(a))[StartReader] == (if a == Connected then 1 else 0)
    ensures multiset(Iteration(a))[StartHeartbeat] == (if a == Connected then 1 else 0)
    ensures multiset(Iteration(a))[AwaitClose] == (if a == Connected then 1 else 0)
  {
    if a == Refused {
      assert multiset(Iteration(a)) == multiset{Dial(AgentUrl), Sleep(ReconnectDelay)};
    } else {
      assert multiset(Iteration(a)) == multiset{Dial(AgentUrl), StartReader, StartHeartbeat, AwaitClose, Sleep(ReconnectDelay)};
    }
  }

  /** Number of successful dials in a run. */
  function Connections(attempts: seq<Attempt>): nat
    decreases |attempts|
  {
    if |attempts| == 0 then 0 else (if attempts[0] == Connected then 1 else 0) + Connections(attempts[1..])
  }

  /**
   * One dial and one wait per pass, and a reader and heartbeat pair started
   * once per successful dial, each pair followed by a wait for its close.
   */
  lemma {:induction false} LoopCounts(attempts: seq<Attempt>)
    ensures multiset(Loop(attempts))[Dial(AgentUrl)] == |attempts|
    ensures multiset(Loop(attempts))[Sleep(ReconnectDelay)] == |attempts|
    ensures multiset(Loop(attempts))[StartReader] == Connections(attempts)
    ensures multiset(Loop(attempts))[StartHeartbeat] == Connections(attempts)
    ensures multiset(Loop(attempts))[AwaitClose] == Connections(attempts)
    decreases |attempts|
  {
    if |attempts| > 0 {
      var head := Iteration(attempts[0]);
      var tail := Loop(attempts[1..]);
      LoopCounts(attempts[1..]);
      IterationCounts(attempts[0]);
      assert multiset(Loop(attempts)) == multiset(head) + multiset(tail);
    }
  }
}
