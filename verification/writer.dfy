/**
 * The write-behind buffer of the agent (internal/discord/message_writer.go):
 * pending messages, a counter, and the `writeMu` lock, modelled as a flag.
 *
 * `sync.Mutex` is not reentrant: taking it while it is held blocks forever
 * when the holder is the same call.  `AddMessageAsWritten` follows the source,
 * whose threshold path calls `writeToDatabase` while still holding the lock;
 * `AddMessage` is the evidently intended version (flush under the lock
 * already held) and is the one the rest of the model uses.
 */
module Writer {
  import opened Entities
  import Store

  /** `maxBufferCount` and `writeInterval` (seconds) as `NewBot` sets them. */
  const MaxBufferCount: nat := 100
  const WriteInterval: nat := 300

  /** Pending messages in arrival order, the counter, and whether `writeMu` is held. */
  datatype State = State(buffer: seq<Message>, counter: int, locked: bool)

  const Initial: State := State([], 0, false)

  /** Between calls: the lock is free, the counter counts the buffer, and the buffer is below the threshold. */
  predicate Valid(w: State)
  {
    !w.locked && w.counter == |w.buffer| && |w.buffer| < MaxBufferCount
  }

  /** What an operation asks of the outside world: re-arm the timer, or hand a batch to `CreateMessage`. */
  datatype Effect = ResetTimer(seconds: nat) | Persist(batch: seq<Message>) | Nothing

  datatype Step = Step(w: State, effect: Effect)

  /** The body of `writeToDatabase`, run with `writeMu` held. */
  function FlushHeld(w: State): (s: Step)
    requires w.locked
    ensures s.w.locked
    ensures |w.buffer| == 0 ==> s == Step(w, Nothing)
    ensures |w.buffer| > 0 ==> s.effect == Persist(w.buffer) && s.w.buffer == [] && s.w.counter == 0
  {
    if |w.buffer| == 0 then Step(w, Nothing) else Step(State([], 0, true), Persist(w.buffer))
  }

  /**
   * `writeToDatabase` as the timer calls it, with the lock free: an empty
   * buffer is left alone; otherwise the whole buffer, in append order, goes
   * to the store and the buffer and counter are reset.
   */
  function Flush(w: State): (s: Step)
    requires !w.locked
    ensures !s.w.locked
    ensures |w.buffer| == 0 ==> s == Step(w, Nothing)
    ensures |w.buffer| > 0 ==> s == Step(State([], 0, false), Persist(w.buffer))
  {
    var t := FlushHeld(w.(locked := true));
    Step(t.w.(locked := false), t.effect)
  }

  /** The result of a call that may block on a lock its own goroutine holds. */
  datatype Outcome = Returned(s: Step) | SelfDeadlock(at: State)

  /** `writeToDatabase` entered through `writeMu.Lock()`. */
  function WriteToDatabaseAsWritten(w: State): (r: Outcome)
    ensures r.SelfDeadlock? <==> w.locked
  {
    if w.locked then SelfDeadlock(w) else Returned(Flush(w))
  }

  /** `AddMessage` as written: at the threshold it calls `writeToDatabase` with `writeMu` still held. */
  function AddMessageAsWritten(w: State, m: Message): (r: Outcome)
    requires !w.locked
    ensures Valid(w) ==> (r.SelfDeadlock? <==> |w.buffer| + 1 == MaxBufferCount)
    ensures r.SelfDeadlock? ==> r.at.locked && r.at.buffer == w.buffer + [m]
    ensures r.Returned? ==> r.s == AddMessage(w, m)
  {
    var held := State(w.buffer + [m], w.counter + 1, true);
    if |held.buffer| >= MaxBufferCount || held.counter >= MaxBufferCount then
      WriteToDatabaseAsWritten(held)
    else
      Returned(Step(held.(locked := false), ResetTimer(WriteInterval)))
  }

  /**
   * The message that reaches the threshold blocks the writer for good: the
   * threshold path enters the flush with the lock held, which the flush's
   * precondition forbids.
   */
  lemma ThresholdPathDeadlocks(w: State, m: Message)
    requires Valid(w) && |w.buffer| == MaxBufferCount - 1
    ensures var r := AddMessageAsWritten(w, m);
      r.SelfDeadlock? && r.at.locked && r.at.buffer == w.buffer + [m]
  {
  }

  /** Below the threshold the as-written and the intended `AddMessage` agree. */
  lemma BelowThresholdAgrees(w: State, m: Message)
    requires Valid(w) && |w.buffer| < MaxBufferCount - 1
    ensures AddMessageAsWritten(w, m) == Returned(AddMessage(w, m))
  {
  }

  /**
   * `AddMessage` as intended: append and count under the lock; at the
   * threshold flush under the same lock, otherwise re-arm the timer.
   */
  function AddMessage(w: State, m: Message): (s: Step)
    requires !w.locked
    ensures !s.w.locked
    ensures Valid(w) ==> Valid(s.w)
    ensures s.effect.Persist? || s.effect.ResetTimer?
    ensures s.effect.Persist? ==> s.effect.batch == w.buffer + [m] && s.w.buffer == []
    ensures s.effect.ResetTimer? ==> s.effect.seconds == WriteInterval && s.w.buffer == w.buffer + [m]
    ensures Valid(w) ==> (s.effect.Persist? <==> |w.buffer| + 1 == MaxBufferCount)
  {
    var held := State(w.buffer + [m], w.counter + 1, true);
    if |held.buffer| >= MaxBufferCount || held.counter >= MaxBufferCount then
      var t := FlushHeld(held);
      Step(t.w.(locked := false), t.effect)
    else
      Step(held.(locked := false), ResetTimer(WriteInterval))
  }

  /** Since the counter always equals the buffer length, the two threshold tests agree. */
  lemma ThresholdTestsAgree(w: State, m: Message)
    requires Valid(w)
    ensures var held := State(w.buffer + [m], w.counter + 1, true);
      (|held.buffer| >= MaxBufferCount || held.counter >= MaxBufferCount) <==> |held.buffer| >= MaxBufferCount
  {
  }

  // ---------------------------------------------------------------------
  // Runs of operations.
  // ---------------------------------------------------------------------

  /** A new Discord message, or the flush timer firing. */
  datatype Op = Add(m: Message) | TimerFired

  function Apply(w: State, op: Op): (s: Step)
    requires !w.locked
    ensures !s.w.locked
  {
    match op
    case Add(m) => AddMessage(w, m)
    case TimerFired => Flush(w)
  }

  /** The final state and the batches handed to the store, in order. */
  datatype Trace = Trace(w: State, batches: seq<seq<Message>>)

  function Run(w: State, ops: seq<Op>): (t: Trace)
    requires !w.locked
    ensures !t.w.locked
    decreases |ops|
  {
    if |ops| == 0 then Trace(w, [])
    else
      var s := Apply(w, ops[0]);
      var rest := Run(s.w, ops[1..]);
      Trace(rest.w, (if s.effect.Persist? then [s.effect.batch] else []) + rest.batches)
  }

  /** The messages added by a run, in order. */
  function Added(ops: seq<Op>): seq<Message>
    decreases |ops|
  {
    if |ops| == 0 then [] else (if ops[0].Add? then [ops[0].m] else []) + Added(ops[1..])
  }

  function Concat(bs: seq<seq<Message>>): seq<Message>
    decreases |bs|
  {
    if |bs| == 0 then [] else bs[0] + Concat(bs[1..])
  }

  /** The batch one operation persists, as a list of batches. */
  function Persisted(s: Step): seq<seq<Message>>
  {
    if s.effect.Persist? then [s.effect.batch] else []
  }

  /** The message one operation adds. */
  function AddedBy(op: Op): seq<Message>
  {
    if op.Add? then [op.m] else []
  }

  /** One operation loses and duplicates nothing: what it persists and what it keeps are the old buffer and its message. */
  lemma ApplyAccounts(w: State, op: Op)
    requires !w.locked
    ensures Concat(Persisted(Apply(w, op))) + Apply(w, op).w.buffer == w.buffer + AddedBy(op)
  {
    var s := Apply(w, op);
    if s.effect.Persist? {
      assert Concat([s.effect.batch]) == s.effect.batch + Concat([]);
    }
  }

  lemma ConcatAppend(a: seq<seq<Message>>, b: seq<seq<Message>>)
    requires |a| <= 1
    ensures Concat(a + b) == Concat(a) + Concat(b)
  {
    if |a| == 1 {
      assert (a + b)[1..] == b;
      assert Concat(a) == a[0] + Concat([]);
    } else {
      assert a + b == b;
    }
  }

  /** A run is its first operation followed by the run of the rest. */
  lemma RunCons(w: State, ops: seq<Op>)
    requires !w.locked && |ops| > 0
    ensures var s := Apply(w, ops[0]);
      var rest := Run(s.w, ops[1..]);
      && Run(w, ops) == Trace(rest.w, Persisted(s) + rest.batches)
      && Added(ops) == AddedBy(ops[0]) + Added(ops[1..])
  {
  }

  /** Regrouping the accounts of one step and of the rest of the run. */
  lemma Regroup(p: seq<Message>, r: seq<Message>, kept: seq<Message>, mid: seq<Message>, before: seq<Message>, add: seq<Message>, tail: seq<Message>)
    requires r + kept == mid + tail
    requires p + mid == before + add
    ensures (p + r) + kept == before + (add + tail)
  {
    calc {
      (p + r) + kept;
      p + (r + kept);
      p + (mid + tail);
      (p + mid) + tail;
      (before + add) + tail;
    }
  }

  /** No message is lost or duplicated: the flushed batches and the buffer are exactly what was added. */
  lemma {:induction false} NoLossNoDuplication(w: State, ops: seq<Op>)
    requires !w.locked
    ensures Concat(Run(w, ops).batches) + Run(w, ops).w.buffer == w.buffer + Added(ops)
    decreases |ops|
  {
    if |ops| > 0 {
      var s := Apply(w, ops[0]);
      var rest := Run(s.w, ops[1..]);
      RunCons(w, ops);
      NoLossNoDuplication(s.w, ops[1..]);
      ApplyAccounts(w, ops[0]);
      ConcatAppend(Persisted(s), rest.batches);
      Regroup(Concat(Persisted(s)), Concat(rest.batches), rest.w.buffer, s.w.buffer, w.buffer, AddedBy(ops[0]), Added(ops[1..]));
    }
  }

  /** Every run keeps the writer consistent and only ever persists non-empty batches of at most the threshold. */
  lemma {:induction false} RunKeepsValid(w: State, ops: seq<Op>)
    requires Valid(w)
    ensures Valid(Run(w, ops).w)
    ensures forall b :: b in Run(w, ops).batches ==> 0 < |b| <= MaxBufferCount
    decreases |ops|
  {
    if |ops| > 0 {
      RunKeepsValid(Apply(w, ops[0]).w, ops[1..]);
    }
  }

  function Adds(ms: seq<Message>): (ops: seq<Op>)
    ensures |ops| == |ms| && forall i :: 0 <= i < |ms| ==> ops[i] == Add(ms[i])
  {
    seq(|ms|, i requires 0 <= i < |ms| => Add(ms[i]))
  }

  /** Adding messages until the threshold is reached flushes exactly once, with all of them. */
  lemma {:induction false} ThresholdFlushesOnce(w: State, ms: seq<Message>)
    requires Valid(w) && |w.buffer| + |ms| == MaxBufferCount
    ensures Run(w, Adds(ms)) == Trace(State([], 0, false), [w.buffer + ms])
    decreases |ms|
  {
    var s := AddMessage(w, ms[0]);
    assert Adds(ms)[1..] == Adds(ms[1..]);
    if |ms| == 1 {
      assert w.buffer + ms == w.buffer + [ms[0]];
    } else {
      ThresholdFlushesOnce(s.w, ms[1..]);
      assert s.w.buffer + ms[1..] == w.buffer + ms;
    }
  }

  /**
   * A flush hands its batch to `CreateMessage` and empties the buffer whatever
   * the store answers; a batch the store rejects is in neither place.
   */
  lemma FailedBatchIsDropped(w: State, db: Store.Db, env: Store.Env)
    requires !w.locked && |w.buffer| > 0
    ensures var s := Flush(w);
      var r := Store.CreateMessage(db, s.effect.batch, env);
      && s.w.buffer == [] && s.w.counter == 0
      && (!r.ok ==> r.db == db)
  {
  }
}
