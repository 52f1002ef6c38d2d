/**
 * The agent's request consumer: it reads as many messages as it has free run slots, handles each in its own task,
 * backs off while Redis is away, and returns only when every task has finished.
 *
 * Tasks and the reading loop interleave at their awaits. A delivery is numbered in the order it was read; a message
 * that Redis delivers twice is two deliveries.
 */
module AgentConsumer {
  import R = RequestHandler

  /** Where a delivery stands in its own task. */
  datatype TaskPhase = Begun | Loading | Executing | Reporting | Acking

  datatype Phase = Top | WaitingSlot | Reading(count: nat) | Sleeping | Draining | Done

  datatype Limits = Limits(maxRuns: nat, initialDelay: real, maxDelay: real)

  /** `sleeps`: the delays slept since the last read that worked. */
  datatype Backoff = Backoff(delay: real, sleeps: seq<real>)

  /** `acks`: the deliveries in the order they were acknowledged. */
  datatype State = State(
    phase: Phase,
    stop: bool,
    backoff: Backoff,
    inFlight: map<nat, TaskPhase>,
    delivered: nat,
    acks: seq<nat>)

  function Start(l: Limits): State { State(Top, false, Backoff(l.initialDelay, []), map[], 0, []) }

  // ---------------------------------------------------------------- the steps

  datatype Event =
    | StopSet
    | LoopTop
    | SlotFreed
    | ReadReturns(n: nat)
    | ReadFails
    | SleepEnds
    // A permanent Redis error, or the consumer's cancellation.
    | Interrupted
    | Drained
    | Parsed(d: nat, ok: bool)
    | Loaded(d: nat, ok: bool)
    // Cancelled while it loads.
    | Cut(d: nat)
    // Finished, withdrawn or failed: the acknowledgement follows in any case.
    | Executed(d: nat)
    | Reported(d: nat)
    | Acked(d: nat)

  /** Starts a task for each of the next `n` deliveries. */
  function Deliver(s: State, n: nat): State {
    if n == 0 then s
    else
      var t := Deliver(s, n - 1);
      t.(inFlight := t.inFlight[t.delivered := Begun], delivered := t.delivered + 1)
  }

  function Smaller(a: real, b: real): real { if a <= b then a else b }

  /** A task moves on, if it stands at `from`. */
  function Advance(s: State, d: nat, from: TaskPhase, to: TaskPhase): State {
    if d in s.inFlight && s.inFlight[d] == from then s.(inFlight := s.inFlight[d := to]) else s
  }

  function LoopStep(l: Limits, s: State, e: Event): State {
    match e
    case LoopTop =>
      if !s.phase.Top? then s
      else if s.stop then s.(phase := Draining)
      else if |s.inFlight| >= l.maxRuns then s.(phase := WaitingSlot)
      else s.(phase := Reading(l.maxRuns - |s.inFlight|))
    case SlotFreed => if s.phase.WaitingSlot? && |s.inFlight| < l.maxRuns then s.(phase := Top) else s
    // Redis gives at most as many messages as were asked for.
    case ReadReturns(n) =>
      if s.phase.Reading? && n <= s.phase.count then
        Deliver(s, n).(phase := Top, backoff := Backoff(l.initialDelay, []))
      else s
    case ReadFails =>
      if s.phase.Reading? then
        s.(phase := Sleeping, backoff := s.backoff.(sleeps := s.backoff.sleeps + [s.backoff.delay]))
      else s
    case SleepEnds =>
      if s.phase.Sleeping? then
        s.(phase := Top, backoff := s.backoff.(delay := Smaller(s.backoff.delay * 2.0, l.maxDelay)))
      else s
    case Interrupted =>
      if s.phase.WaitingSlot? || s.phase.Reading? || s.phase.Sleeping? then s.(phase := Draining) else s
    case Drained => if s.phase.Draining? && s.inFlight == map[] then s.(phase := Done) else s
    case _ => s
  }

  function TaskStep(s: State, e: Event): State {
    match e
    // A message that cannot be parsed is acknowledged and dropped.
    case Parsed(d, ok) => Advance(s, d, Begun, if ok then Loading else Acking)
    case Loaded(d, ok) => Advance(s, d, Loading, if ok then Executing else Reporting)
    case Cut(d) => Advance(s, d, Loading, Acking)
    case Executed(d) => Advance(s, d, Executing, Acking)
    case Reported(d) => Advance(s, d, Reporting, Acking)
    case Acked(d) =>
      if d in s.inFlight && s.inFlight[d].Acking? then s.(inFlight := s.inFlight - {d}, acks := s.acks + [d]) else s
    case _ => s
  }

  predicate OfTask(e: Event) { e.Parsed? || e.Loaded? || e.Cut? || e.Executed? || e.Reported? || e.Acked? }

  function Step(l: Limits, s: State, e: Event): State {
    if e.StopSet? then s.(stop := true) else if OfTask(e) then TaskStep(s, e) else LoopStep(l, s, e)
  }

  function Run(l: Limits, log: seq<Event>): State {
    if log == [] then Start(l) else Step(l, Run(l, log[..|log| - 1]), log[|log| - 1])
  }

  // ---------------------------------------------------------------- the invariant

  /** The delay before retry `k + 1`, as the loop computes it. */
  function DelayAt(l: Limits, k: nat): real {
    if k == 0 then l.initialDelay else Smaller(DelayAt(l, k - 1) * 2.0, l.maxDelay)
  }

  /** Every delivery is in flight or was acknowledged once, never both. */
  ghost predicate Accounted(s: State) {
    && (forall d :: d in s.inFlight ==> d < s.delivered)
    && (forall i :: 0 <= i < |s.acks| ==> s.acks[i] < s.delivered && s.acks[i] !in s.inFlight)
    && (forall i, j :: 0 <= i < j < |s.acks| ==> s.acks[i] != s.acks[j])
    && (forall d: nat :: d < s.delivered && d !in s.inFlight ==> d in s.acks)
  }

  /** The sleeps so far, and the delay the loop has ready; after the loop the delay no longer matters. */
  predicate BackoffOk(l: Limits, s: State) {
    var n := |s.backoff.sleeps|;
    && (forall k :: 0 <= k < n ==> s.backoff.sleeps[k] == DelayAt(l, k))
    && (s.phase.Sleeping? ==> n > 0)
    && (s.phase.Draining? || s.phase.Done? || s.backoff.delay == DelayAt(l, if s.phase.Sleeping? then n - 1 else n))
  }

  predicate Bounded(l: Limits, s: State) {
    && |s.inFlight| <= l.maxRuns
    && (s.phase.Reading? ==> |s.inFlight| + s.phase.count <= l.maxRuns)
    && (s.phase.Done? ==> s.inFlight == map[])
  }

  ghost predicate Inv(l: Limits, s: State) { Accounted(s) && Bounded(l, s) && BackoffOk(l, s) }

  lemma Grows<V>(m: map<nat, V>, k: nat, v: V)
    ensures |m[k := v]| == |m| + if k in m then 0 else 1
  {
    if k in m {
      assert m[k := v].Keys == m.Keys;
    } else {
      assert m[k := v].Keys == m.Keys + {k};
    }
    assert |m.Keys| == |m| && |m[k := v].Keys| == |m[k := v]|;
  }

  lemma Shrinks<V>(m: map<nat, V>, k: nat)
    requires k in m
    ensures |m - {k}| == |m| - 1
  {
    assert (m - {k}).Keys == m.Keys - {k};
    assert |m.Keys| == |m| && |(m - {k}).Keys| == |m - {k}|;
  }

  lemma {:induction false} DeliverKeeps(s: State, n: nat)
    requires Accounted(s)
    ensures var t := Deliver(s, n);
            && Accounted(t) && |t.inFlight| == |s.inFlight| + n && t.delivered == s.delivered + n
            && t.acks == s.acks && t.phase == s.phase && t.stop == s.stop && t.backoff == s.backoff
  {
    if n > 0 {
      DeliverKeeps(s, n - 1);
      var t := Deliver(s, n - 1);
      Grows(t.inFlight, t.delivered, Begun);
    }
  }

  lemma AdvanceKeeps(l: Limits, s: State, d: nat, from: TaskPhase, to: TaskPhase)
    requires Inv(l, s)
    ensures Inv(l, Advance(s, d, from, to))
  {
    if d in s.inFlight {
      Grows(s.inFlight, d, to);
    }
  }

  lemma AckKeeps(l: Limits, s: State, d: nat)
    requires Inv(l, s)
    ensures Inv(l, TaskStep(s, Acked(d)))
  {
    if d in s.inFlight && s.inFlight[d].Acking? {
      Shrinks(s.inFlight, d);
      var t := TaskStep(s, Acked(d));
      forall x: nat | x < t.delivered && x !in t.inFlight ensures x in t.acks {
        if x == d {
          assert t.acks[|s.acks|] == d;
        } else {
          assert x in s.acks;
        }
      }
    }
  }

  lemma ReadKeeps(l: Limits, s: State, n: nat)
    requires Inv(l, s)
    ensures Inv(l, LoopStep(l, s, ReadReturns(n)))
  {
    if s.phase.Reading? && n <= s.phase.count {
      DeliverKeeps(s, n);
    }
  }

  lemma AccountedAlike(s: State, t: State)
    requires Accounted(s) && t.inFlight == s.inFlight && t.acks == s.acks && t.delivered == s.delivered
    ensures Accounted(t)
  {
  }

  lemma LoopKeeps(l: Limits, s: State, e: Event)
    requires Inv(l, s) && !e.ReadReturns?
    ensures Inv(l, LoopStep(l, s, e))
  {
    hide Accounted, Smaller;
    AccountedAlike(s, LoopStep(l, s, e));
  }

  lemma StepKeeps(l: Limits, s: State, e: Event)
    requires Inv(l, s)
    ensures Inv(l, Step(l, s, e))
  {
    hide Inv, Advance, LoopStep;
    match e
    case Parsed(d, ok) => AdvanceKeeps(l, s, d, Begun, if ok then Loading else Acking);
    case Loaded(d, ok) => AdvanceKeeps(l, s, d, Loading, if ok then Executing else Reporting);
    case Cut(d) => AdvanceKeeps(l, s, d, Loading, Acking);
    case Executed(d) => AdvanceKeeps(l, s, d, Executing, Acking);
    case Reported(d) => AdvanceKeeps(l, s, d, Reporting, Acking);
    case Acked(d) => AckKeeps(l, s, d);
    case ReadReturns(n) => ReadKeeps(l, s, n);
    case StopSet => StopKeeps(l, s);
    case _ => LoopKeeps(l, s, e);
  }

  lemma StopKeeps(l: Limits, s: State)
    requires Inv(l, s)
    ensures Inv(l, s.(stop := true))
  {
  }

  lemma StartOk(l: Limits)
    ensures Inv(l, Start(l))
  {
  }

  lemma {:induction false} RunKeeps(l: Limits, log: seq<Event>)
    ensures Inv(l, Run(l, log))
  {
    hide Inv, Step;
    if log == [] {
      StartOk(l);
    } else {
      RunKeeps(l, log[..|log| - 1]);
      StepKeeps(l, Run(l, log[..|log| - 1]), log[|log| - 1]);
    }
  }

  // ---------------------------------------------------------------- the main results

  /** In every run no more tasks are in flight than there are slots, and none that was acknowledged. */
  lemma NeverTooMany(l: Limits, log: seq<Event>)
    ensures var s := Run(l, log);
            |s.inFlight| <= l.maxRuns && forall i :: 0 <= i < |s.acks| ==> s.acks[i] !in s.inFlight
  {
    hide Run;
    RunKeeps(l, log);
  }

  /** When the consumer returns, every message it read was acknowledged, exactly once, and no task is left. */
  lemma AllAcknowledged(l: Limits, log: seq<Event>, d: nat)
    requires Run(l, log).phase.Done? && d < Run(l, log).delivered
    ensures var s := Run(l, log);
            && s.inFlight == map[]
            && exists i :: 0 <= i < |s.acks| && s.acks[i] == d
                           && forall j :: 0 <= j < |s.acks| && s.acks[j] == d ==> j == i
  {
    hide Run;
    RunKeeps(l, log);
    var s := Run(l, log);
    assert d in s.acks;
    var i :| 0 <= i < |s.acks| && s.acks[i] == d;
    assert forall j :: 0 <= j < |s.acks| && s.acks[j] == d ==> j == i;
  }

  /** The flag is set, or an interruption came. */
  predicate ToldToStop(log: seq<Event>) {
    exists i :: 0 <= i < |log| && (log[i].StopSet? || log[i].Interrupted?)
  }

  lemma StepStops(l: Limits, s: State, e: Event)
    ensures var t := Step(l, s, e);
            && (t.stop <==> s.stop || e.StopSet?)
            && (t.phase.Draining? || t.phase.Done? ==> s.phase.Draining? || s.phase.Done? || s.stop || e.Interrupted?)
            && (s.phase.Draining? || s.phase.Done? ==> t.phase.Draining? || t.phase.Done?)
            && (t.delivered != s.delivered ==> s.phase.Reading?)
            && (t.phase.Reading? && !s.phase.Reading? ==> !s.stop)
  {
    if e.ReadReturns? && s.phase.Reading? {
      DeliverKeepsStop(s, e.n);
    }
  }

  lemma {:induction false} DeliverKeepsStop(s: State, n: nat)
    ensures Deliver(s, n).stop == s.stop && Deliver(s, n).phase == s.phase
  {
    if n > 0 {
      DeliverKeepsStop(s, n - 1);
    }
  }

  /** The consumer reads until it is told to stop: before that it never drains nor returns. */
  lemma {:induction false} ReadsUntilTold(l: Limits, log: seq<Event>)
    ensures Run(l, log).stop ==> ToldToStop(log)
    ensures Run(l, log).phase.Draining? || Run(l, log).phase.Done? ==> ToldToStop(log)
  {
    hide Step;
    if log != [] {
      var init, e := log[..|log| - 1], log[|log| - 1];
      ReadsUntilTold(l, init);
      StepStops(l, Run(l, init), e);
      if ToldToStop(init) {
        var i :| 0 <= i < |init| && (init[i].StopSet? || init[i].Interrupted?);
        assert log[i] == init[i];
      } else {
        assert log[|init|] == e;
      }
    }
  }

  /** Once told to stop, and not in the middle of a read, it never reads again: no message is taken any more. */
  lemma {:induction false} TakesNoMore(l: Limits, s: State, more: seq<Event>)
    requires !s.phase.Reading? && (s.stop || s.phase.Draining? || s.phase.Done?)
    ensures Further(l, s, more).delivered == s.delivered && !Further(l, s, more).phase.Reading?
    decreases |more|
  {
    hide Step;
    if more != [] {
      StepStops(l, s, more[0]);
      TakesNoMoreStep(l, s, more[0]);
      TakesNoMore(l, Step(l, s, more[0]), more[1..]);
    }
  }

  lemma TakesNoMoreStep(l: Limits, s: State, e: Event)
    requires !s.phase.Reading? && (s.stop || s.phase.Draining? || s.phase.Done?)
    ensures !Step(l, s, e).phase.Reading?
  {
  }

  /** A consumer that is not told to stop asks for as many messages as it has free slots, and waits only without any. */
  lemma AsksForFreeSlots(l: Limits, s: State)
    requires s.phase.Top?
    ensures var t := Step(l, s, LoopTop);
            && (t.phase.Reading? <==> !s.stop && |s.inFlight| < l.maxRuns)
            && (t.phase.Reading? ==> t.phase.count + |s.inFlight| == l.maxRuns)
            && (t.phase.WaitingSlot? <==> !s.stop && |s.inFlight| >= l.maxRuns)
            && (t.phase.Draining? <==> s.stop)
  {
  }

  /** The first thing a consumer does is to ask for as many messages as it has slots. */
  lemma FirstAsks(l: Limits)
    requires l.maxRuns > 0
    ensures Step(l, Start(l), LoopTop).phase == Reading(l.maxRuns)
  {
  }

  /** After a wait for a slot that was freed, or after a sleep, it asks again, unless it is told to stop. */
  lemma AsksAgain(l: Limits, s: State)
    requires !s.stop && |s.inFlight| < l.maxRuns
    ensures s.phase.WaitingSlot? ==> Step(l, Step(l, s, SlotFreed), LoopTop).phase == Reading(l.maxRuns - |s.inFlight|)
    ensures s.phase.Sleeping? ==> Step(l, Step(l, s, SleepEnds), LoopTop).phase == Reading(l.maxRuns - |s.inFlight|)
  {
  }

  /** It does not stop waiting for a slot before there is one. */
  lemma WaitsForSlot(l: Limits, s: State, e: Event)
    requires s.phase.WaitingSlot? && |s.inFlight| >= l.maxRuns && !e.Interrupted?
    ensures Step(l, s, e).phase.WaitingSlot?
  {
  }

  /** A read starts one task for each message, at its beginning, and leaves the others; a failed one starts none. */
  lemma {:induction false} ReadStarts(l: Limits, s: State, n: nat, d: nat)
    requires s.phase.Reading? && n <= s.phase.count && forall q :: q in s.inFlight ==> q < s.delivered
    ensures var t := Step(l, s, ReadReturns(n));
            && t.phase.Top? && t.delivered == s.delivered + n && t.backoff == Backoff(l.initialDelay, [])
            && (s.delivered <= d < s.delivered + n ==> At(t, d, Begun))
            && (d < s.delivered ==> (d in t.inFlight <==> d in s.inFlight)
                                    && (d in s.inFlight ==> t.inFlight[d] == s.inFlight[d]))
    ensures Step(l, s, ReadFails).phase.Sleeping? && Step(l, s, ReadFails).inFlight == s.inFlight
  {
    DeliverStarts(s, n, d);
  }

  lemma {:induction false} DeliverStarts(s: State, n: nat, d: nat)
    ensures var t := Deliver(s, n);
            && t.delivered == s.delivered + n
            && (s.delivered <= d < s.delivered + n ==> At(t, d, Begun))
            && (d < s.delivered ==> (d in t.inFlight <==> d in s.inFlight)
                                    && (d in s.inFlight ==> t.inFlight[d] == s.inFlight[d]))
  {
    if n > 0 {
      DeliverStarts(s, n - 1, d);
    }
  }

  /** A permanent error or a cancellation drains the consumer where it awaits something, and nowhere else. */
  lemma InterruptedDrains(l: Limits, s: State)
    ensures Step(l, s, Interrupted) ==
            if s.phase.WaitingSlot? || s.phase.Reading? || s.phase.Sleeping? then s.(phase := Draining) else s
  {
  }

  /** It returns only from draining, and only once no task is left. */
  lemma ReturnsWhenDrained(l: Limits, s: State, e: Event)
    requires !s.phase.Done?
    ensures Step(l, s, e).phase.Done? <==> s.phase.Draining? && e.Drained? && s.inFlight == map[]
  {
    if e.ReadReturns? {
      DeliverKeepsStop(s, e.n);
    }
  }

  /** Where a task must stand for the event to be one of its own. */
  function Place(e: Event): TaskPhase
    requires OfTask(e)
  {
    match e
    case Parsed(_, _) => Begun
    case Loaded(_, _) => Loading
    case Cut(_) => Loading
    case Executed(_) => Executing
    case Reported(_) => Reporting
    case Acked(_) => Acking
  }

  /** A task only takes the step it stands before, and other tasks are left alone. */
  lemma OwnStepOnly(l: Limits, s: State, e: Event, d: nat)
    requires OfTask(e)
    ensures !At(s, e.d, Place(e)) ==> Step(l, s, e) == s
    ensures d != e.d ==> (d in Step(l, s, e).inFlight <==> d in s.inFlight)
    ensures d != e.d && d in s.inFlight ==> Step(l, s, e).inFlight[d] == s.inFlight[d]
  {
  }

  /** Until it has returned, some step is open to the consumer or to one of its tasks. */
  lemma NotStuck(l: Limits, log: seq<Event>) returns (e: Event)
    requires l.maxRuns > 0 && !Run(l, log).phase.Done?
    ensures Step(l, Run(l, log), e) != Run(l, log)
  {
    RunKeeps(l, log);
    hide Run;
    var s := Run(l, log);
    if s.phase.Top? {
      e := LoopTop;
    } else if s.phase.Reading? {
      e := ReadFails;
    } else if s.phase.Sleeping? {
      e := SleepEnds;
    } else if s.phase.WaitingSlot? && |s.inFlight| < l.maxRuns {
      e := SlotFreed;
    } else if |s.inFlight| == 0 {
      e := Drained;
    } else {
      e := TaskMoves(l, s);
    }
  }

  /** A task in flight can always move on, whatever the loop does. */
  lemma TaskMoves(l: Limits, s: State) returns (e: Event)
    requires |s.inFlight| > 0
    ensures Step(l, s, e) != s
  {
    var d := AnyTask(s.inFlight);
    match s.inFlight[d]
    case Begun => e := Parsed(d, true); assert Step(l, s, e).inFlight[d] == Loading;
    case Loading => e := Loaded(d, true); assert Step(l, s, e).inFlight[d] == Executing;
    case Executing => e := Executed(d); assert Step(l, s, e).inFlight[d] == Acking;
    case Reporting => e := Reported(d); assert Step(l, s, e).inFlight[d] == Acking;
    case Acking => e := Acked(d); assert d !in Step(l, s, e).inFlight;
  }

  lemma AnyTask(m: map<nat, TaskPhase>) returns (d: nat)
    requires |m| > 0
    ensures d in m
  {
    assert m.Keys != {};
    d :| d in m.Keys;
  }

  /** `initialDelay * 2 ** k`. */
  function Doubled(l: Limits, k: nat): real { if k == 0 then l.initialDelay else Doubled(l, k - 1) * 2.0 }

  lemma {:induction false} DelayIsCapped(l: Limits, k: nat)
    requires l.maxDelay >= 0.0 && (k > 0 || l.initialDelay <= l.maxDelay)
    ensures DelayAt(l, k) == Smaller(Doubled(l, k), l.maxDelay)
  {
    if k > 1 {
      DelayIsCapped(l, k - 1);
    } else if k == 1 {
      assert DelayAt(l, 0) == Doubled(l, 0) == l.initialDelay;
    }
  }

  /**
   * The delay before retry `k + 1` is the doubled initial delay, capped, for every `k`: exactly if the cap is not below
   * it.
   */
  lemma DelayFormula(l: Limits)
    requires l.maxDelay >= 0.0
    ensures (forall k: nat :: DelayAt(l, k) == Smaller(Doubled(l, k), l.maxDelay)) <==> l.initialDelay <= l.maxDelay
  {
    if l.initialDelay <= l.maxDelay {
      forall k: nat ensures DelayAt(l, k) == Smaller(Doubled(l, k), l.maxDelay) {
        DelayIsCapped(l, k);
      }
    } else {
      assert DelayAt(l, 0) != Smaller(Doubled(l, 0), l.maxDelay);
    }
  }

  /** A cap below the initial delay is not kept by the first retry. */
  lemma {:induction false} FirstDelayAboveCap()
    ensures var l := Limits(1, 2.0, 1.0); DelayAt(l, 0) == 2.0 && Smaller(Doubled(l, 0), l.maxDelay) == 1.0
  {
  }

  /** In every run the sleeps since the last good read are the capped doublings of the initial delay. */
  lemma {:induction false} SleepsDouble(l: Limits, log: seq<Event>, k: nat)
    requires 0.0 <= l.initialDelay <= l.maxDelay && k < |Run(l, log).backoff.sleeps|
    ensures Run(l, log).backoff.sleeps[k] == Smaller(Doubled(l, k), l.maxDelay)
  {
    hide Run, Accounted, Bounded;
    RunKeeps(l, log);
    DelayIsCapped(l, k);
  }

  // ---------------------------------------------------------------- one request

  /** The event a step of the handler is for the consumer. Loading and building count as one. */
  function EventOf(d: nat, r: R.Ran): seq<Event> {
    match r.action
    case Parse => [Parsed(d, r.end.Returns?)]
    case Load => if r.end.Returns? then [] else [Failed(d, r.end.kind)]
    case Build => [if r.end.Returns? then Loaded(d, true) else Failed(d, r.end.kind)]
    case Report => [Reported(d)]
    case Execute => [Executed(d)]
    case Ack => [Acked(d)]
  }

  function Failed(d: nat, k: R.Kind): Event { if k.Failure? then Loaded(d, false) else Cut(d) }

  function EventsOf(d: nat, trace: seq<R.Ran>): seq<Event> {
    if trace == [] then [] else EventOf(d, trace[0]) + EventsOf(d, trace[1..])
  }

  /** The state after more events. */
  function Further(l: Limits, s: State, events: seq<Event>): State
    decreases |events|
  {
    if events == [] then s else Further(l, Step(l, s, events[0]), events[1..])
  }

  lemma EventsCons(d: nat, r: R.Ran, rest: seq<R.Ran>)
    ensures EventsOf(d, [r] + rest) == EventOf(d, r) + EventsOf(d, rest)
  {
    assert ([r] + rest)[1..] == rest;
  }

  lemma FurtherCons(l: Limits, s: State, e: Event, rest: seq<Event>)
    ensures Further(l, s, [e] + rest) == Further(l, Step(l, s, e), rest)
  {
    hide Step;
    assert ([e] + rest)[1..] == rest;
  }

  /** A task that stands at its acknowledgement is acknowledged, and gone. */
  function Finished(s: State, d: nat): State { s.(inFlight := s.inFlight - {d}, acks := s.acks + [d]) }

  predicate At(s: State, d: nat, phase: TaskPhase) { d in s.inFlight && s.inFlight[d] == phase }

  lemma AckFinishes(l: Limits, s: State, d: nat, end: R.End)
    requires At(s, d, Acking)
    ensures Further(l, s, EventsOf(d, [R.Ran(R.Ack, end)])) == Finished(s, d)
  {
    EventsCons(d, R.Ran(R.Ack, end), []);
    FurtherCons(l, s, Acked(d), []);
    assert [R.Ran(R.Ack, end)] + [] == [R.Ran(R.Ack, end)];
    assert [Acked(d)] + [] == [Acked(d)];
  }

  /** One step of the handler that is one event moves the task on; the rest finishes it. */
  lemma OneMove(l: Limits, s: State, d: nat, r: R.Ran, rest: seq<R.Ran>, from: TaskPhase, to: TaskPhase)
    requires At(s, d, from) && EventOf(d, r) != []
    requires Step(l, s, EventOf(d, r)[0]) == s.(inFlight := s.inFlight[d := to])
    requires Further(l, s.(inFlight := s.inFlight[d := to]), EventsOf(d, rest)) ==
             Finished(s.(inFlight := s.inFlight[d := to]), d)
    ensures Further(l, s, EventsOf(d, [r] + rest)) == Finished(s, d)
  {
    EventsCons(d, r, rest);
    FurtherCons(l, s, EventOf(d, r)[0], EventsOf(d, rest));
    assert EventOf(d, r) == [EventOf(d, r)[0]];
    assert s.inFlight[d := to] - {d} == s.inFlight - {d};
    hide Step, Further, EventsOf;
  }

  function Moved(s: State, d: nat, to: TaskPhase): State { s.(inFlight := s.inFlight[d := to]) }

  /** A report or a run, however it ends, comes before the acknowledgement. */
  lemma EndsInAck(l: Limits, s: State, d: nat, r: R.Ran, ack: R.End)
    requires (At(s, d, Reporting) && r.action.Report?) || (At(s, d, Executing) && r.action.Execute?)
    ensures Further(l, s, EventsOf(d, [r] + [R.Ran(R.Ack, ack)])) == Finished(s, d)
  {
    AckFinishes(l, Moved(s, d, Acking), d, ack);
    OneMove(l, s, d, r, [R.Ran(R.Ack, ack)], s.inFlight[d], Acking);
  }

  /** What is left once loading or building failed. */
  lemma FailureFinishes(l: Limits, s: State, d: nat, e: R.Ends, r: R.Ran)
    requires At(s, d, Loading) && r.end.Throws? && (r.action.Load? || r.action.Build?)
    ensures Further(l, s, EventsOf(d, [r] + (R.Reported(e, r.end.kind) + [R.Ran(R.Ack, e.ack)]))) == Finished(s, d)
  {
    var rest := R.Reported(e, r.end.kind) + [R.Ran(R.Ack, e.ack)];
    var to := if r.end.kind.Failure? then Reporting else Acking;
    if r.end.kind.Failure? {
      EndsInAck(l, Moved(s, d, Reporting), d, R.Ran(R.Report, e.report), e.ack);
    } else {
      assert rest == [R.Ran(R.Ack, e.ack)];
      AckFinishes(l, Moved(s, d, Acking), d, e.ack);
    }
    OneMove(l, s, d, r, rest, Loading, to);
  }

  /** From its load on, the handler's steps take a task through its phases to one acknowledgement. */
  lemma LoadingFinishes(l: Limits, s: State, d: nat, e: R.Ends)
    requires At(s, d, Loading)
    ensures Further(l, s, EventsOf(d, R.Before(e) + [R.Ran(R.Ack, e.ack)])) == Finished(s, d)
  {
    var ack, load, build := [R.Ran(R.Ack, e.ack)], R.Ran(R.Load, e.load), R.Ran(R.Build, e.build);
    if e.load.Throws? {
      FailureFinishes(l, s, d, e, load);
      assert R.Before(e) + ack == [load] + (R.Reported(e, e.load.kind) + ack);
    } else if e.build.Throws? {
      FailureFinishes(l, s, d, e, build);
      var rest := [build] + (R.Reported(e, e.build.kind) + ack);
      assert R.Before(e) + ack == [load] + rest;
      EventsCons(d, load, rest);
      assert [] + EventsOf(d, rest) == EventsOf(d, rest);
    } else {
      var run := R.Ran(R.Execute, e.execute);
      EndsInAck(l, Moved(s, d, Executing), d, run, e.ack);
      OneMove(l, s, d, build, [run] + ack, Loading, Executing);
      var rest := [build] + ([run] + ack);
      assert R.Before(e) + ack == [load] + rest;
      EventsCons(d, load, rest);
      assert [] + EventsOf(d, rest) == EventsOf(d, rest);
    }
  }

  /**
   * The consumer's moves are those of the program: whatever its steps do, what `_process_message` runs takes a task
   * from its beginning to one acknowledgement, and out of flight.
   */
  lemma {:induction false} TaskFollowsProgram(l: Limits, s: State, d: nat, e: R.Ends)
    requires At(s, d, Begun) && (e.parse.Throws? ==> e.parse.kind == R.Failure)
    ensures Further(l, s, EventsOf(d, R.Exec(R.PROCESS, e).trace)) == Finished(s, d)
  {
    R.ProcessIs(e);
    R.MessageIs(e);
    R.HandleIs(e);
    hide R.Exec, Further, EventsOf;
    var parse := R.Ran(R.Parse, e.parse);
    if e.parse.Returns? {
      LoadingFinishes(l, Moved(s, d, Loading), d, e);
      OneMove(l, s, d, parse, R.Before(e) + [R.Ran(R.Ack, e.ack)], Begun, Loading);
    } else {
      AckFinishes(l, Moved(s, d, Acking), d, e.ack);
      OneMove(l, s, d, parse, [R.Ran(R.Ack, e.ack)], Begun, Acking);
    }
  }

  // ---------------------------------------------------------------- the consumer as an object

  class Consumer {
    const limits: Limits
    var phase: Phase
    var stop: bool
    var readRetryDelay: real
    var inFlight: map<nat, TaskPhase>
    var delivered: nat
    ghost var sleeps: seq<real>
    ghost var acks: seq<nat>

    ghost function View(): State
      reads this
    {
      State(phase, stop, Backoff(readRetryDelay, sleeps), inFlight, delivered, acks)
    }

    constructor (limits: Limits)
      ensures View() == Start(limits) && this.limits == limits
    {
      this.limits := limits;
      phase, stop, readRetryDelay := Top, false, limits.initialDelay;
      inFlight, delivered := map[], 0;
      sleeps, acks := [], [];
    }

    method SetStop()
      modifies this`stop
      ensures View() == Step(limits, old(View()), StopSet)
    {
      stop := true;
    }

    method Loop()
      modifies this`phase
      ensures View() == Step(limits, old(View()), LoopTop)
    {
      if phase.Top? {
        if stop {
          phase := Draining;
          return;
        }
        if |inFlight| >= limits.maxRuns {
          phase := WaitingSlot;
          return;
        }
        phase := Reading(limits.maxRuns - |inFlight|);
      }
    }

    method OnSlotFreed()
      modifies this`phase
      ensures View() == Step(limits, old(View()), SlotFreed)
    {
      if phase.WaitingSlot? && |inFlight| < limits.maxRuns {
        phase := Top;
      }
    }

    method OnMessages(n: nat)
      modifies this
      ensures View() == Step(limits, old(View()), ReadReturns(n))
    {
      if !phase.Reading? || n > phase.count {
        return;
      }
      readRetryDelay, sleeps := limits.initialDelay, [];
      ghost var was := View();
      for i := 0 to n
        invariant View() == Deliver(was, i)
      {
        inFlight := inFlight[delivered := Begun];
        delivered := delivered + 1;
      }
      DeliverOnlyDelivers(was, n);
      DeliverOnlyDelivers(old(View()), n);
      DeliverSame(was, old(View()), n);
      phase := Top;
    }

    method OnReadFailed()
      modifies this
      ensures View() == Step(limits, old(View()), ReadFails)
    {
      if phase.Reading? {
        sleeps := sleeps + [readRetryDelay];
        phase := Sleeping;
      }
    }

    method OnSlept()
      modifies this
      ensures View() == Step(limits, old(View()), SleepEnds)
    {
      if phase.Sleeping? {
        readRetryDelay := Smaller(readRetryDelay * 2.0, limits.maxDelay);
        phase := Top;
      }
    }

    method Interrupt()
      modifies this`phase
      ensures View() == Step(limits, old(View()), Interrupted)
    {
      if phase.WaitingSlot? || phase.Reading? || phase.Sleeping? {
        phase := Draining;
      }
    }

    method Finish()
      modifies this`phase
      ensures View() == Step(limits, old(View()), Drained)
    {
      if phase.Draining? && inFlight == map[] {
        phase := Done;
      }
    }

    method MoveTask(d: nat, from: TaskPhase, to: TaskPhase)
      modifies this`inFlight
      ensures View() == Advance(old(View()), d, from, to)
    {
      if d in inFlight && inFlight[d] == from {
        inFlight := inFlight[d := to];
      }
    }

    method OnParsed(d: nat, ok: bool)
      modifies this`inFlight
      ensures View() == Step(limits, old(View()), Parsed(d, ok))
    {
      MoveTask(d, Begun, if ok then Loading else Acking);
    }

    method OnLoaded(d: nat, ok: bool)
      modifies this`inFlight
      ensures View() == Step(limits, old(View()), Loaded(d, ok))
    {
      MoveTask(d, Loading, if ok then Executing else Reporting);
    }

    method OnCut(d: nat)
      modifies this`inFlight
      ensures View() == Step(limits, old(View()), Cut(d))
    {
      MoveTask(d, Loading, Acking);
    }

    method OnExecuted(d: nat)
      modifies this`inFlight
      ensures View() == Step(limits, old(View()), Executed(d))
    {
      MoveTask(d, Executing, Acking);
    }

    method OnReported(d: nat)
      modifies this`inFlight
      ensures View() == Step(limits, old(View()), Reported(d))
    {
      MoveTask(d, Reporting, Acking);
    }

    method OnAcked(d: nat)
      modifies this
      ensures View() == Step(limits, old(View()), Acked(d))
    {
      if d in inFlight && inFlight[d].Acking? {
        inFlight := inFlight - {d};
        acks := acks + [d];
      }
    }
  }

  lemma {:induction false} DeliverOnlyDelivers(s: State, n: nat)
    ensures var t := Deliver(s, n);
            t.phase == s.phase && t.stop == s.stop && t.backoff == s.backoff && t.acks == s.acks
  {
    if n > 0 {
      DeliverOnlyDelivers(s, n - 1);
    }
  }

  lemma {:induction false} DeliverSame(s: State, t: State, n: nat)
    requires s.inFlight == t.inFlight && s.delivered == t.delivered
    ensures Deliver(s, n).inFlight == Deliver(t, n).inFlight && Deliver(s, n).delivered == Deliver(t, n).delivered
  {
    if n > 0 {
      DeliverSame(s, t, n - 1);
    }
  }
}
