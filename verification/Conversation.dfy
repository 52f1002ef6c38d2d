/**
 * One visitor's conversation: who has it, since when the visitor waits for a person, whether it is closed, and what it
 * used today. The fields are kept up to date event by event; the lemmas say what they mean in terms of the whole log.
 */
module Conversation {
  import opened Options

  datatype Mode = Bot | AwaitingHuman | Human
  datatype Role = User | Assistant | Operator | System
  datatype CloseReason = Resolved | Ended | Inactive
  datatype RunState = Idle | Starting | Running

  datatype Message = Message(role: Role, createdAt: int, author: Option<int>)

  datatype LastMessage = LastMessage(at: Option<int>, role: Option<Role>, author: Option<int>)

  datatype RunSlot = RunSlot(state: RunState, run: Option<int>, since: Option<int>)

  /** The holder, the reason of the hand-off, and the released run whose late reply is still welcome. */
  datatype Hold = Hold(operator: Option<int>, reason: string, lateReply: Option<int>)

  datatype Closure = Closure(open: bool, reason: Option<CloseReason>, at: Option<int>, closer: Option<int>)

  datatype State = State(
    mode: Mode,
    handoffAt: Option<int>,
    waitingSince: Option<int>,
    last: LastMessage,
    hold: Hold,
    slot: RunSlot,
    closure: Closure)

  const FREE_SLOT := RunSlot(Idle, None, None)

  const FRESH := State(Bot, None, None, LastMessage(None, None, None), Hold(None, "", None), FREE_SLOT,
    Closure(true, None, None, None))

  // ---------------------------------------------------------------- the steps

  datatype Event =
    | Recorded(message: Message)
    | ModeChanged(mode: Mode, now: int)
    | Returned(now: int)
    | Closed(reason: CloseReason, now: int, closer: Option<int>)

  datatype Outcome = Done | AlreadyClosed | RefusedClosed(reason: Option<CloseReason>) | RefusedCloser

  /** A resolved conversation names who closed it, and no other does. */
  predicate GoodCloser(reason: CloseReason, closer: Option<int>) { reason.Resolved? <==> closer.Some? }

  predicate Unanswered(role: Option<Role>) { role == Some(User) || role == Some(System) }

  function ChangeMode(s: State, mode: Mode, now: int): State {
    var handoffAt := if mode.Bot? then None else if s.mode.Bot? then Some(now) else s.handoffAt;
    var taken := if s.mode.Bot? && mode.Human? && Unanswered(s.last.role) then s.last.at else s.waitingSince;
    var waiting := if mode.Bot? then None else if mode.AwaitingHuman? && taken.None? then Some(now) else taken;
    s.(mode := mode, handoffAt := handoffAt, waitingSince := waiting)
  }

  function RecordMessage(s: State, m: Message): State {
    var waiting :=
      if m.role.Operator? then None
      else if m.role.User? && !s.mode.Bot? && s.waitingSince.None? then Some(m.createdAt)
      else s.waitingSince;
    s.(last := LastMessage(Some(m.createdAt), Some(m.role), m.author), waitingSince := waiting)
  }

  /** Closed: nobody waits and no run holds it; the mode, the hand-off and the holder stay. */
  function Shut(s: State, closure: Closure): State {
    State(s.mode, s.handoffAt, None, s.last, Hold(s.hold.operator, s.hold.reason, None), FREE_SLOT, closure)
  }

  /** What the conversation is after an event; a refused event changes nothing. */
  function Step(s: State, e: Event): State {
    if !s.closure.open then s
    else match e
      case Recorded(m) => RecordMessage(s, m)
      case ModeChanged(mode, now) => ChangeMode(s, mode, now)
      case Returned(now) => ChangeMode(s, Bot, now).(hold := Hold(None, "", None))
      case Closed(reason, now, closer) =>
        if !GoodCloser(reason, closer) then s
        else Shut(s, Closure(false, Some(reason), Some(now), closer))
  }

  function Answer(s: State, e: Event): Outcome {
    if !s.closure.open then (if e.Closed? then AlreadyClosed else RefusedClosed(s.closure.reason))
    else if e.Closed? && !GoodCloser(e.reason, e.closer) then RefusedCloser
    else Done
  }

  lemma CloseStep(s: State, reason: CloseReason, now: int, closer: Option<int>)
    ensures var e := Closed(reason, now, closer);
            if !s.closure.open then Step(s, e) == s && Answer(s, e) == AlreadyClosed
            else if !GoodCloser(reason, closer) then Step(s, e) == s && Answer(s, e) == RefusedCloser
            else Step(s, e) == Shut(s, Closure(false, Some(reason), Some(now), closer)) && Answer(s, e) == Done
  {
  }

  function Run(s: State, log: seq<Event>): State {
    if log == [] then s else Step(Run(s, log[..|log| - 1]), log[|log| - 1])
  }

  // ---------------------------------------------------------------- reading the log

  /** A close that says who resolved the conversation, or that it ended or went silent and nobody did. */
  predicate Closes(e: Event) {
    e.Closed? && if e.reason == Resolved then e.closer != None else e.closer == None
  }

  /** Nothing in the log closed the conversation. */
  predicate Live(log: seq<Event>) { forall i :: 0 <= i < |log| ==> !Closes(log[i]) }

  /** The mode an event asks for. */
  function Target(e: Event): Option<Mode> {
    if e.ModeChanged? then Some(e.mode) else if e.Returned? then Some(Bot) else None
  }

  /** The mode the last mode change before the close asked for. */
  function ModeAfter(log: seq<Event>): Mode {
    if log == [] then Bot
    else
      var init, e := log[..|log| - 1], log[|log| - 1];
      if Live(init) && Target(e).Some? then Target(e).value else ModeAfter(init)
  }

  /** The last message before the close. */
  function LastAfter(log: seq<Event>): Option<Message> {
    if log == [] then None
    else
      var init, e := log[..|log| - 1], log[|log| - 1];
      if Live(init) && e.Recorded? then Some(e.message) else LastAfter(init)
  }

  /**
   * Since when the visitor waits if `e` begins a wait: a visitor's message outside bot mode, a hand-off, or a take-over
   * from the bot with the last message unanswered.
   */
  function Starts(before: seq<Event>, e: Event): Option<int> {
    if !Live(before) then None
    else if e.Recorded? then
      if e.message.role.User? && !ModeAfter(before).Bot? then Some(e.message.createdAt) else None
    else if Target(e) == Some(AwaitingHuman) then Some(e.now)
    else if Target(e) == Some(Human) && ModeAfter(before).Bot? then
      var last := LastAfter(before);
      if last.Some? && (last.value.role.User? || last.value.role.System?) then Some(last.value.createdAt) else None
    else None
  }

  /** An operator's reply, a return to the bot, or the close. */
  predicate EndsWait(e: Event) { FromOperator(e) || Target(e) == Some(Bot) || Closes(e) }

  predicate Ends(before: seq<Event>, e: Event) { Live(before) && EndsWait(e) }

  function StartTime(log: seq<Event>, i: nat): Option<int>
    requires i < |log|
  {
    Starts(log[..i], log[i])
  }

  /** How many events there are up to the last one that ended a wait. */
  function LastEnd(log: seq<Event>): (n: nat)
    ensures n <= |log|
    ensures n > 0 ==> Ends(log[..n - 1], log[n - 1])
    ensures forall j :: n <= j < |log| ==> !Ends(log[..j], log[j])
  {
    if log == [] then 0
    else
      var init, e := log[..|log| - 1], log[|log| - 1];
      if Ends(init, e) then |log|
      else
        assert forall j :: 0 <= j < |init| ==> log[..j] == init[..j] && log[j] == init[j];
        LastEnd(init)
  }

  /** Event `i` is the first to begin a wait since the last that ended one. */
  predicate FirstStart(log: seq<Event>, i: nat) {
    && LastEnd(log) <= i < |log| && StartTime(log, i).Some?
    && forall k :: LastEnd(log) <= k < i ==> StartTime(log, k).None?
  }

  /** `waiting` is the time of the first wait-starting event after the last wait-ending one. */
  ghost predicate ReadsWait(log: seq<Event>, waiting: Option<int>) {
    if waiting.None? then forall k :: LastEnd(log) <= k < |log| ==> StartTime(log, k).None?
    else exists i :: FirstStart(log, i) && StartTime(log, i) == waiting
  }

  /** There is only one such reading. */
  lemma {:induction false} ReadingUnique(log: seq<Event>, a: Option<int>, b: Option<int>)
    requires ReadsWait(log, a) && ReadsWait(log, b)
    ensures a == b
  {
    hide StartTime, LastEnd;
    if a.Some? && b.Some? {
      var i :| FirstStart(log, i) && StartTime(log, i) == a;
      var k :| FirstStart(log, k) && StartTime(log, k) == b;
      assert i == k;
    }
  }

  /** Event `i` took the conversation from the bot, and nothing gave it back since. */
  predicate LeftBot(log: seq<Event>, i: nat) {
    && i < |log| && Live(log[..i]) && ModeAfter(log[..i]).Bot?
    && Target(log[i]).Some? && !Target(log[i]).value.Bot?
    && forall j :: i < j < |log| && Live(log[..j]) ==> Target(log[j]) != Some(Bot)
  }

  ghost predicate ReadsHandoff(log: seq<Event>, handoffAt: Option<int>) {
    if handoffAt.None? then ModeAfter(log).Bot?
    else !ModeAfter(log).Bot? && exists i: nat :: LeftBot(log, i) && Some(log[i].now) == handoffAt
  }

  /** The close that counts is the first good one. */
  ghost predicate ReadsClosure(log: seq<Event>, c: Closure) {
    if c.open then Live(log) && c == Closure(true, None, None, None)
    else
      exists i :: 0 <= i < |log| && ClosedAt(log, i)
                  && c == Closure(false, Some(log[i].reason), Some(log[i].now), log[i].closer)
  }

  predicate ClosedAt(log: seq<Event>, i: nat) { i < |log| && Live(log[..i]) && Closes(log[i]) }

  predicate ReadsLast(log: seq<Event>, last: LastMessage) {
    match LastAfter(log)
    case None => last == LastMessage(None, None, None)
    case Some(m) => last == LastMessage(Some(m.createdAt), Some(m.role), m.author)
  }

  // ---------------------------------------------------------------- the fields agree with the log

  ghost predicate Reads(log: seq<Event>, s: State) {
    && ReadsClosure(log, s.closure)
    && s.mode == ModeAfter(log)
    && ReadsLast(log, s.last)
    && ReadsWait(log, s.waitingSince)
    && ReadsHandoff(log, s.handoffAt)
    && (!s.closure.open ==> s.waitingSince.None? && s.slot == FREE_SLOT && s.hold.lateReply.None?)
  }

  lemma PrefixOfNext(log: seq<Event>, e: Event)
    ensures (log + [e])[..|log|] == log
    ensures forall i :: 0 <= i < |log| ==> (log + [e])[..i] == log[..i] && (log + [e])[i] == log[i]
  {
  }

  lemma LiveNext(log: seq<Event>, e: Event)
    ensures Live(log + [e]) <==> Live(log) && !Closes(e)
  {
    if Live(log + [e]) {
      assert (log + [e])[|log|] == e;
      assert forall i :: 0 <= i < |log| ==> (log + [e])[i] == log[i];
    }
  }

  lemma OpenReads(log: seq<Event>, c: Closure)
    requires ReadsClosure(log, c)
    ensures c.open <==> Live(log)
  {
    if !c.open {
      var i :| 0 <= i < |log| && ClosedAt(log, i);
      assert Closes(log[i]);
    }
  }

  lemma ClosureNext(log: seq<Event>, e: Event, s: State)
    requires ReadsClosure(log, s.closure)
    ensures ReadsClosure(log + [e], Step(s, e).closure)
    ensures s.closure.open <==> Live(log)
  {
    PrefixOfNext(log, e);
    LiveNext(log, e);
    OpenReads(log, s.closure);
    var next := log + [e];
    hide ChangeMode, RecordMessage, Live, GoodCloser;
    if s.closure.open {
      if Closes(e) {
        assert next[..|log|] == log && next[|log|] == e;
        assert ClosedAt(next, |log|);
      }
    } else {
      var i :| 0 <= i < |log| && ClosedAt(log, i) &&
        s.closure == Closure(false, Some(log[i].reason), Some(log[i].now), log[i].closer);
      assert next[..i] == log[..i] && next[i] == log[i];
      assert ClosedAt(next, i);
    }
  }

  /** The waits in the longer log are those in the shorter one, and what the new event does. */
  lemma StartsNext(log: seq<Event>, e: Event)
    ensures forall i :: 0 <= i < |log| ==> StartTime(log + [e], i) == StartTime(log, i)
    ensures StartTime(log + [e], |log|) == Starts(log, e)
    ensures LastEnd(log + [e]) == if Ends(log, e) then |log| + 1 else LastEnd(log)
  {
    hide Starts, Ends;
    PrefixOfNext(log, e);
  }

  /** What one event does to the wait. */
  function WaitAfter(before: seq<Event>, e: Event, waiting: Option<int>): Option<int> {
    if Ends(before, e) then None else if waiting.None? then Starts(before, e) else waiting
  }

  lemma WaitNext(log: seq<Event>, e: Event, waiting: Option<int>)
    requires ReadsWait(log, waiting)
    ensures ReadsWait(log + [e], WaitAfter(log, e, waiting))
  {
    StartsNext(log, e);
    var next := log + [e];
    hide StartTime, LastEnd, Starts, Ends;
    if !Ends(log, e) {
      if waiting.Some? {
        var i :| FirstStart(log, i) && StartTime(log, i) == waiting;
        assert FirstStart(next, i);
      } else if Starts(log, e).Some? {
        assert FirstStart(next, |log|);
      }
    }
  }

  /** The step does to the wait what the event means. */
  lemma StepWaits(log: seq<Event>, e: Event, s: State)
    requires s.closure.open <==> Live(log)
    requires s.mode == ModeAfter(log) && ReadsLast(log, s.last)
    requires s.mode.Bot? || !s.closure.open ==> s.waitingSince.None?
    ensures Step(s, e).waitingSince == WaitAfter(log, e, s.waitingSince)
  {
    hide Live, ModeAfter, LastAfter;
  }

  lemma HandoffNext(log: seq<Event>, e: Event, s: State)
    requires (s.closure.open <==> Live(log)) && s.mode == ModeAfter(log) && ReadsHandoff(log, s.handoffAt)
    ensures ReadsHandoff(log + [e], Step(s, e).handoffAt)
    ensures Step(s, e).mode == ModeAfter(log + [e])
  {
    PrefixOfNext(log, e);
    var next := log + [e];
    assert ModeAfter(next) == if Live(log) && Target(e).Some? then Target(e).value else ModeAfter(log);
    hide Live, ModeAfter, RecordMessage;
    if s.closure.open && s.mode.Bot? && Target(e).Some? && !Target(e).value.Bot? {
      assert LeftBot(next, |log|);
    } else if s.handoffAt.Some? && Step(s, e).handoffAt.Some? {
      var i: nat :| LeftBot(log, i) && Some(log[i].now) == s.handoffAt;
      assert next[..i] == log[..i] && next[i] == log[i];
      assert LeftBot(next, i);
    }
  }

  lemma LastNext(log: seq<Event>, e: Event, s: State)
    requires (s.closure.open <==> Live(log)) && ReadsLast(log, s.last)
    ensures ReadsLast(log + [e], Step(s, e).last)
  {
    PrefixOfNext(log, e);
    assert LastAfter(log + [e]) == if Live(log) && e.Recorded? then Some(e.message) else LastAfter(log);
    hide Live, LastAfter;
  }

  /** In bot mode nobody waits, by the log alone. */
  lemma {:induction false} BotNobodyWaits(log: seq<Event>)
    requires ModeAfter(log).Bot?
    ensures ReadsWait(log, None)
  {
    if log != [] {
      var init, e := log[..|log| - 1], log[|log| - 1];
      assert log == init + [e];
      StartsNext(init, e);
      if !(Live(init) && Target(e).Some?) {
        BotNobodyWaits(init);
      }
    }
  }

  lemma StepReads(log: seq<Event>, e: Event, s: State)
    requires Reads(log, s)
    ensures Reads(log + [e], Step(s, e))
  {
    hide ReadsWait, ReadsHandoff, ModeAfter, LastAfter, LastEnd, Live, ReadsLast;
    ClosureNext(log, e, s);
    if s.mode.Bot? {
      BotNobodyWaits(log);
      ReadingUnique(log, None, s.waitingSince);
    }
    StepWaits(log, e, s);
    WaitNext(log, e, s.waitingSince);
    HandoffNext(log, e, s);
    LastNext(log, e, s);
  }

  /**
   * After any run of events, accepted or refused, the fields are what the log says: the mode, the last message, who
   * closed it and when, since when it is with people, and since when the visitor waits.
   */
  lemma {:induction false} EveryRunReads(log: seq<Event>)
    ensures Reads(log, Run(FRESH, log))
  {
    if log != [] {
      var init := log[..|log| - 1];
      EveryRunReads(init);
      hide Reads;
      StepReads(init, log[|log| - 1], Run(FRESH, init));
      assert log == init + [log[|log| - 1]];
    }
  }

  // ---------------------------------------------------------------- what follows for every run

  /** Bot mode exactly while there is no hand-off time, and then nobody waits. */
  lemma {:induction false} BotExactlyWithoutHandoff(log: seq<Event>)
    ensures var s := Run(FRESH, log); (s.mode.Bot? <==> s.handoffAt.None?) && (s.mode.Bot? ==> s.waitingSince.None?)
  {
    hide Run, ReadsLast, ModeAfter, LeftBot;
    EveryRunReads(log);
    var s := Run(FRESH, log);
    if s.mode.Bot? {
      BotNobodyWaits(log);
      ReadingUnique(log, None, s.waitingSince);
    }
    hide ReadsWait;
  }

  predicate FromOperator(e: Event) { e.Recorded? && e.message.role.Operator? }

  /** No operator's reply is recorded while a hand-off waits for somebody to take it over. */
  predicate OperatorsHold(log: seq<Event>) {
    forall i :: 0 <= i < |log| && FromOperator(log[i]) && Live(log[..i]) ==> !ModeAfter(log[..i]).AwaitingHuman?
  }

  predicate AwaitingWaits(s: State) { s.closure.open && s.mode.AwaitingHuman? ==> s.waitingSince.Some? }

  lemma AwaitingNext(log: seq<Event>, e: Event, s: State)
    requires (s.closure.open <==> Live(log)) && s.mode == ModeAfter(log) && AwaitingWaits(s)
    ensures AwaitingWaits(Step(s, e)) <==> !(FromOperator(e) && Live(log) && ModeAfter(log).AwaitingHuman?)
  {
    hide Live, ModeAfter;
  }

  lemma OperatorsHoldNext(log: seq<Event>, e: Event)
    ensures OperatorsHold(log + [e]) <==>
            OperatorsHold(log) && !(FromOperator(e) && Live(log) && ModeAfter(log).AwaitingHuman?)
  {
    hide Live, ModeAfter, FromOperator;
    PrefixOfNext(log, e);
    var more := log + [e];
    assert more[|log|] == e;
    if OperatorsHold(more) {
      forall i | 0 <= i < |log| && FromOperator(log[i]) && Live(log[..i]) ensures !ModeAfter(log[..i]).AwaitingHuman? {
        assert more[i] == log[i] && more[..i] == log[..i];
      }
    }
  }

  /** After every part of the log, an open conversation handed off to people has a wait running. */
  ghost predicate AlwaysWaits(log: seq<Event>) { forall n :: 0 <= n <= |log| ==> AwaitingWaits(Run(FRESH, log[..n])) }

  lemma AlwaysWaitsNext(log: seq<Event>, e: Event)
    ensures AlwaysWaits(log + [e]) <==> AlwaysWaits(log) && AwaitingWaits(Run(FRESH, log + [e]))
  {
    hide AwaitingWaits, Run;
    var more := log + [e];
    assert more[..|more|] == more;
    assert forall n :: 0 <= n <= |log| ==> more[..n] == log[..n];
  }

  /**
   * Throughout a run, an open conversation handed off to people has a wait running: exactly if no operator's reply is
   * recorded while it waits for somebody to take it over.
   */
  lemma {:induction false} AwaitingMeansWaiting(log: seq<Event>)
    ensures AlwaysWaits(log) <==> OperatorsHold(log)
  {
    if log == [] {
      assert log[..0] == log;
    } else {
      var init, e := log[..|log| - 1], log[|log| - 1];
      assert log == init + [e];
      AwaitingMeansWaiting(init);
      EveryRunReads(init);
      AlwaysWaitsNext(init, e);
      OperatorsHoldNext(init, e);
      if AlwaysWaits(init) {
        assert init[..|init|] == init;
        var s := Run(FRESH, init);
        assert AwaitingWaits(s);
        hide AwaitingWaits, AlwaysWaits, OperatorsHold, ReadsWait, ReadsHandoff, ReadsLast, ReadsClosure;
        hide Live, ModeAfter, Step;
        OpenReads(init, s.closure);
        AwaitingNext(init, e, s);
      }
    }
  }

  lemma RunLast(s: State, log: seq<Event>, e: Event)
    ensures Run(s, log + [e]) == Step(Run(s, log), e)
  {
    PrefixOfNext(log, e);
  }

  /**
   * An operator's reply to a conversation nobody has taken over leaves it handed off with nobody waiting. The operator
   * service refuses such a reply.
   */
  lemma {:induction false} ReplyBeforeTakeOver()
    ensures var s := Run(FRESH, [ModeChanged(AwaitingHuman, 1), Recorded(Message(Operator, 2, Some(7)))]);
            s.closure.open && s.mode.AwaitingHuman? && s.waitingSince.None?
  {
    var first := ModeChanged(AwaitingHuman, 1);
    RunLast(FRESH, [first], Recorded(Message(Operator, 2, Some(7))));
    assert [first, Recorded(Message(Operator, 2, Some(7)))] == [first] + [Recorded(Message(Operator, 2, Some(7)))];
    RunLast(FRESH, [], first);
    assert [first] == [] + [first];
  }

  /** A closed conversation never changes again, whatever is asked of it, and every request is turned down. */
  lemma {:induction false} ClosedForGood(s: State, more: seq<Event>, e: Event)
    requires !s.closure.open
    ensures Run(s, more) == s
    ensures Answer(Run(s, more), e) == if e.Closed? then AlreadyClosed else RefusedClosed(s.closure.reason)
  {
    if more != [] {
      ClosedForGood(s, more[..|more| - 1], e);
    }
  }

  /** The requests of a run that were accepted. */
  function Accepted(s: State, log: seq<Event>): seq<Event> {
    if log == [] then []
    else
      var init, e := log[..|log| - 1], log[|log| - 1];
      Accepted(s, init) + if Answer(Run(s, init), e) == Done then [e] else []
  }

  /** The answer to a request after any run, from the log: what closed the conversation, if anything did, decides. */
  lemma {:induction false} AnswerReads(log: seq<Event>, e: Event)
    ensures var a := Answer(Run(FRESH, log), e);
            && (a == Done <==> Live(log) && (e.Closed? ==> Closes(e)))
            && (a == RefusedCloser <==> Live(log) && e.Closed? && !Closes(e))
            && (a == AlreadyClosed <==> !Live(log) && e.Closed?)
            && (a.RefusedClosed? <==> !Live(log) && !e.Closed?)
            && (a.RefusedClosed? ==> exists i: nat :: ClosedAt(log, i) && a.reason == Some(log[i].reason))
  {
    EveryRunReads(log);
    hide Run, ReadsWait, ReadsHandoff, ReadsLast;
    var s := Run(FRESH, log);
    if !s.closure.open {
      var i :| 0 <= i < |log| && ClosedAt(log, i)
               && s.closure == Closure(false, Some(log[i].reason), Some(log[i].now), log[i].closer);
      assert !Live(log);
    }
  }

  /** A run comes to the same without the requests that were turned down. */
  lemma {:induction false} RefusedDropOut(s: State, log: seq<Event>)
    ensures Run(s, Accepted(s, log)) == Run(s, log)
  {
    if log != [] {
      var init, e := log[..|log| - 1], log[|log| - 1];
      RefusedDropOut(s, init);
      hide ChangeMode, RecordMessage, Shut;
      if Answer(Run(s, init), e) == Done {
        RunLast(s, Accepted(s, init), e);
      } else {
        assert Step(Run(s, init), e) == Run(s, init);
        assert Accepted(s, init) + [] == Accepted(s, init);
      }
    }
  }

  /** The holder, the reason and the late reply: a return clears them, and the close drops the late reply only. */
  function HoldAfter(h: Hold, log: seq<Event>): Hold {
    if log == [] then h
    else
      var init, e := log[..|log| - 1], log[|log| - 1];
      if Live(init) && e.Returned? then Hold(None, "", None)
      else if Live(init) && Closes(e) then HoldAfter(h, init).(lateReply := None)
      else HoldAfter(h, init)
  }

  /** After any run, who has the conversation and which run holds it are what the log says. */
  lemma {:induction false} HolderReads(s: State, log: seq<Event>)
    requires s.closure.open
    ensures var t := Run(s, log);
            && (t.closure.open <==> Live(log))
            && t.hold == HoldAfter(s.hold, log)
            && t.slot == if Live(log) then s.slot else RunSlot(Idle, None, None)
  {
    if log != [] {
      var init, e := log[..|log| - 1], log[|log| - 1];
      HolderReads(s, init);
      LiveNext(init, e);
      assert log == init + [e];
      hide Live;
    }
  }

  // ---------------------------------------------------------------- the desk's due times

  datatype Binding = Binding(support: bool, responseTime: int, closeAfter: int)

  function ResponseDueAt(b: Binding, isTest: bool, s: State): Option<int> {
    if !s.closure.open || isTest || s.waitingSince.None? then None else Some(s.waitingSince.value + b.responseTime)
  }

  function IdleCloseAt(b: Binding, isTest: bool, s: State): Option<int> {
    if !b.support || !s.closure.open || isTest || s.last.at.None? || !s.slot.state.Idle? then None
    else Some(s.last.at.value + b.closeAfter)
  }

  predicate NoEnd(events: seq<Event>) { forall i :: 0 <= i < |events| ==> !EndsWait(events[i]) }

  /** Nothing but an operator's reply, a return to the bot or the close moves a due time once the visitor waits. */
  lemma {:induction false} DueTimeStands(b: Binding, isTest: bool, s: State, more: seq<Event>)
    requires s.closure.open && s.waitingSince.Some? && !s.mode.Bot? && NoEnd(more)
    ensures var t := Run(s, more);
            && t.closure.open && t.waitingSince == s.waitingSince && !t.mode.Bot?
            && ResponseDueAt(b, isTest, t) == ResponseDueAt(b, isTest, s)
  {
    if more != [] {
      var init := more[..|more| - 1];
      assert forall i :: 0 <= i < |init| ==> init[i] == more[i];
      DueTimeStands(b, isTest, s, init);
    }
  }

  /** A visitor is due an answer exactly while the log leaves a wait open, at the response time after it began. */
  lemma {:induction false} DueTimeReads(b: Binding, isTest: bool, log: seq<Event>)
    ensures var due := ResponseDueAt(b, isTest, Run(FRESH, log));
            && (due.Some? <==> !isTest && Live(log) && exists i: nat :: FirstStart(log, i))
            && (due.Some? ==> forall i :: 0 <= i < |log| && FirstStart(log, i) ==>
                  due == Some(StartTime(log, i).value + b.responseTime))
  {
    hide FirstStart, StartTime, LastEnd, ReadsLast, ReadsHandoff, Run;
    EveryRunReads(log);
    var s := Run(FRESH, log);
    OpenReads(log, s.closure);
    forall i: nat | FirstStart(log, i)
      ensures i < |log| && StartTime(log, i).Some? && StartTime(log, i) == s.waitingSince
    {
      FirstStartStarts(log, i);
      assert ReadsWait(log, StartTime(log, i));
      ReadingUnique(log, StartTime(log, i), s.waitingSince);
    }
    if s.waitingSince.Some? {
      var i: nat :| FirstStart(log, i) && StartTime(log, i) == s.waitingSince;
    }
  }

  /** When the last message came: the last one before the close, or else the one that was there before. */
  function LastAt(s: State, log: seq<Event>): Option<int> {
    var last := LastAfter(log);
    if last.Some? then Some(last.value.createdAt) else s.last.at
  }

  lemma {:induction false} LastAtReads(s: State, log: seq<Event>)
    requires s.closure.open
    ensures Run(s, log).last.at == LastAt(s, log)
  {
    if log != [] {
      var init := log[..|log| - 1];
      LastAtReads(s, init);
      HolderReads(s, init);
      hide Live, HoldAfter;
    }
  }

  /**
   * An open Support conversation that no run holds closes for silence at its time after the last message; one that
   * waits for the bot's reply, and a closed one, does not.
   */
  lemma {:induction false} IdleCloseReads(b: Binding, isTest: bool, s: State, log: seq<Event>)
    requires s.closure.open
    ensures IdleCloseAt(b, isTest, Run(s, log)) ==
            if !b.support || isTest || !Live(log) || !s.slot.state.Idle? || LastAt(s, log).None? then None
            else Some(LastAt(s, log).value + b.closeAfter)
  {
    hide Run, LastAfter, Live, HoldAfter;
    LastAtReads(s, log);
    HolderReads(s, log);
  }

  lemma FirstStartStarts(log: seq<Event>, i: nat)
    requires FirstStart(log, i)
    ensures i < |log| && StartTime(log, i).Some?
  {
  }

  // ---------------------------------------------------------------- usage

  datatype Usage = Usage(day: int, tokensUsed: int, turns: int, tokensToday: int, turnsToday: int)

  /** A count of tokens, or of one turn, on a day. */
  datatype Count = Tokens(n: int, day: int) | Turn(day: int)

  datatype Amount = Amount(tokens: int, turns: int)

  const NOTHING := Amount(0, 0)

  function NewUsage(day: int): Usage { Usage(day, 0, 0, 0, 0) }

  function RollDay(u: Usage, today: int): Usage {
    if u.day < today then u.(day := today, tokensToday := 0, turnsToday := 0) else u
  }

  function CountStep(u: Usage, c: Count): Usage {
    var r := RollDay(u, c.day);
    match c
    case Tokens(n, _) => r.(tokensUsed := r.tokensUsed + n, tokensToday := r.tokensToday + n)
    case Turn(_) => r.(turns := r.turns + 1, turnsToday := r.turnsToday + 1)
  }

  function CountAll(u: Usage, counts: seq<Count>): Usage {
    if counts == [] then u else CountStep(CountAll(u, counts[..|counts| - 1]), counts[|counts| - 1])
  }

  /** The tokens and turns counted on `today`. */
  function UsageOn(u: Usage, today: int): Amount {
    if u.day < today then NOTHING else Amount(u.tokensToday, u.turnsToday)
  }

  function Weight(c: Count): Amount { if c.Tokens? then Amount(c.n, 0) else Amount(0, 1) }

  function Plus(a: Amount, b: Amount): Amount { Amount(a.tokens + b.tokens, a.turns + b.turns) }

  /** The latest day seen so far. */
  function LatestDay(start: int, counts: seq<Count>): int {
    if counts == [] then start
    else
      var before := LatestDay(start, counts[..|counts| - 1]);
      if before < counts[|counts| - 1].day then counts[|counts| - 1].day else before
  }

  /** The counts made while `day` was the latest day seen. */
  function MadeDuring(start: int, counts: seq<Count>, day: int): Amount {
    if counts == [] then NOTHING
    else
      var init, c := counts[..|counts| - 1], counts[|counts| - 1];
      Plus(MadeDuring(start, init, day), if LatestDay(start, counts) == day then Weight(c) else NOTHING)
  }

  /** The counts made on `day`. */
  function MadeOn(counts: seq<Count>, day: int): Amount {
    if counts == [] then NOTHING
    else
      var c := counts[|counts| - 1];
      Plus(MadeOn(counts[..|counts| - 1], day), if c.day == day then Weight(c) else NOTHING)
  }

  function Made(counts: seq<Count>): Amount {
    if counts == [] then NOTHING else Plus(Made(counts[..|counts| - 1]), Weight(counts[|counts| - 1]))
  }

  lemma OneMore(start: int, counts: seq<Count>, day: int)
    requires counts != []
    ensures var init, c := counts[..|counts| - 1], counts[|counts| - 1];
            && CountAll(NewUsage(start), counts) == CountStep(CountAll(NewUsage(start), init), c)
            && LatestDay(start, counts) == (if LatestDay(start, init) < c.day then c.day else LatestDay(start, init))
            && Made(counts) == Plus(Made(init), Weight(c))
            && MadeOn(counts, day) == Plus(MadeOn(init, day), if c.day == day then Weight(c) else NOTHING)
            && MadeDuring(start, counts, day) ==
               Plus(MadeDuring(start, init, day), if LatestDay(start, counts) == day then Weight(c) else NOTHING)
  {
  }

  lemma {:induction false} NoneBeyondLatest(start: int, counts: seq<Count>, day: int)
    requires LatestDay(start, counts) < day
    ensures MadeDuring(start, counts, day) == NOTHING
  {
    if counts != [] {
      NoneBeyondLatest(start, counts[..|counts| - 1], day);
    }
  }

  /** The lifetime totals, and what was counted since the latest day began. */
  predicate CountersAgree(u: Usage, start: int, counts: seq<Count>) {
    && u.day == LatestDay(start, counts)
    && Amount(u.tokensUsed, u.turns) == Made(counts)
    && Amount(u.tokensToday, u.turnsToday) == MadeDuring(start, counts, u.day)
  }

  lemma CountersNext(u: Usage, start: int, counts: seq<Count>)
    requires counts != [] && CountersAgree(u, start, counts[..|counts| - 1])
    ensures CountersAgree(CountStep(u, counts[|counts| - 1]), start, counts)
  {
    hide LatestDay, Made, MadeDuring, MadeOn, CountAll;
    var init, c := counts[..|counts| - 1], counts[|counts| - 1];
    var next := CountStep(u, c);
    OneMore(start, counts, next.day);
    assert next.day == LatestDay(start, counts);
    assert Amount(next.tokensUsed, next.turns) == Plus(Amount(u.tokensUsed, u.turns), Weight(c));
    if u.day < c.day {
      NoneBeyondLatest(start, init, c.day);
      assert Amount(next.tokensToday, next.turnsToday) == Weight(c);
    } else {
      assert Amount(next.tokensToday, next.turnsToday) == Plus(Amount(u.tokensToday, u.turnsToday), Weight(c));
    }
    hide CountStep, Weight;
  }

  /** What the counters hold, for days in any order. */
  lemma {:induction false} CountersRead(start: int, counts: seq<Count>)
    ensures CountersAgree(CountAll(NewUsage(start), counts), start, counts)
  {
    if counts != [] {
      CountersRead(start, counts[..|counts| - 1]);
      CountersNext(CountAll(NewUsage(start), counts[..|counts| - 1]), start, counts);
      hide CountersAgree, CountStep;
    }
  }

  /** For any day: what was counted while that day, or the stored day if it is later, was the latest. */
  lemma UsageOnReads(start: int, counts: seq<Count>, today: int)
    ensures var latest := LatestDay(start, counts);
            UsageOn(CountAll(NewUsage(start), counts), today) ==
            MadeDuring(start, counts, if latest < today then today else latest)
  {
    CountersRead(start, counts);
    if LatestDay(start, counts) < today {
      NoneBeyondLatest(start, counts, today);
    }
  }

  predicate DaysRise(start: int, counts: seq<Count>) {
    && (forall i :: 0 <= i < |counts| ==> start <= counts[i].day)
    && (forall i, j :: 0 <= i < j < |counts| ==> counts[i].day <= counts[j].day)
  }

  lemma {:induction false} RisingDays(start: int, counts: seq<Count>, day: int)
    requires DaysRise(start, counts)
    ensures LatestDay(start, counts) == if counts == [] then start else counts[|counts| - 1].day
    ensures MadeDuring(start, counts, day) == MadeOn(counts, day)
  {
    if counts != [] {
      var init := counts[..|counts| - 1];
      assert DaysRise(start, init);
      RisingDays(start, init, day);
      OneMore(start, counts, day);
      assert init != [] ==> init[|init| - 1] == counts[|counts| - 2];
    } else {
      assert LatestDay(start, counts) == start && MadeOn(counts, day) == MadeDuring(start, counts, day);
    }
    hide LatestDay, MadeOn, MadeDuring, CountAll, Made;
  }

  /** While days never go back, the usage on a day from the stored one on is the sum of the counts made on that day. */
  lemma {:induction false} UsageOnDay(start: int, counts: seq<Count>, today: int)
    requires DaysRise(start, counts) && CountAll(NewUsage(start), counts).day <= today
    ensures UsageOn(CountAll(NewUsage(start), counts), today) == MadeOn(counts, today)
  {
    CountersRead(start, counts);
    UsageOnReads(start, counts, today);
    RisingDays(start, counts, today);
  }

  // ---------------------------------------------------------------- the conversation as an object

  class Thread {
    var mode: Mode
    var assignedOperator: Option<int>
    var runState: RunState
    var activeRun: Option<int>
    var activeSince: Option<int>
    var tokensUsed: int
    var turns: int
    var usageDay: int
    var tokensToday: int
    var turnsToday: int
    var lastMessageAt: Option<int>
    var handoffReason: string
    var lateReplyRun: Option<int>
    var handoffAt: Option<int>
    var waitingSince: Option<int>
    var lastMessageRole: Option<Role>
    var lastMessageAuthor: Option<int>
    var open: bool
    var closeReason: Option<CloseReason>
    var closedAt: Option<int>
    var closedBy: Option<int>

    ghost function View(): State
      reads this
    {
      State(mode, handoffAt, waitingSince,
            LastMessage(lastMessageAt, lastMessageRole, lastMessageAuthor),
            Hold(assignedOperator, handoffReason, lateReplyRun),
            RunSlot(runState, activeRun, activeSince),
            Closure(open, closeReason, closedAt, closedBy))
    }

    ghost function Counters(): Usage
      reads this
    {
      Usage(usageDay, tokensUsed, turns, tokensToday, turnsToday)
    }

    constructor (today: int)
      ensures View() == FRESH && Counters() == NewUsage(today)
      ensures mode.Bot? && handoffReason == "" && runState.Idle? && open
    {
      mode, assignedOperator, handoffReason, lateReplyRun := Bot, None, "", None;
      runState, activeRun, activeSince := Idle, None, None;
      usageDay, tokensUsed, turns, tokensToday, turnsToday := today, 0, 0, 0, 0;
      lastMessageAt, lastMessageRole, lastMessageAuthor := None, None, None;
      handoffAt, waitingSince := None, None;
      open, closeReason, closedAt, closedBy := true, None, None, None;
    }

    method Close(reason: CloseReason, now: int, closer: Option<int>) returns (outcome: Outcome)
      modifies this
      ensures View() == Step(old(View()), Closed(reason, now, closer)) && Counters() == old(Counters())
      ensures outcome == Answer(old(View()), Closed(reason, now, closer))
    {
      hide Step, Answer, GoodCloser;
      CloseStep(View(), reason, now, closer);
      if !open {
        return AlreadyClosed;
      }
      if !GoodCloser(reason, closer) {
        return RefusedCloser;
      }
      open, closeReason, closedAt := false, Some(reason), Some(now);
      closedBy := closer;
      waitingSince := None;
      FreeRun();
      return Done;
    }

    /** No run holds the conversation, and none may still reply late. */
    method FreeRun()
      modifies this`runState, this`activeRun, this`activeSince, this`lateReplyRun
      ensures View() == old(View()).(slot := FREE_SLOT, hold := old(View()).hold.(lateReply := None)) &&
              Counters() == old(Counters())
    {
      runState, activeRun, activeSince := Idle, None, None;
      lateReplyRun := None;
    }

    method SetMode(target: Mode, now: int) returns (outcome: Outcome)
      modifies this
      ensures View() == Step(old(View()), ModeChanged(target, now)) && Counters() == old(Counters())
      ensures outcome == Answer(old(View()), ModeChanged(target, now))
    {
      if !open {
        return RefusedClosed(closeReason);
      }
      if target.Bot? {
        handoffAt := None;
        waitingSince := None;
      } else if mode.Bot? {
        handoffAt := Some(now);
        if target.Human? && Unanswered(lastMessageRole) {
          waitingSince := lastMessageAt;
        }
      }
      if target.AwaitingHuman? && waitingSince.None? {
        waitingSince := Some(now);
      }
      mode := target;
      return Done;
    }

    method ReturnToBot(now: int) returns (outcome: Outcome)
      modifies this
      ensures View() == Step(old(View()), Returned(now)) && Counters() == old(Counters())
      ensures outcome == Answer(old(View()), Returned(now))
    {
      outcome := SetMode(Bot, now);
      if outcome != Done {
        return;
      }
      assignedOperator := None;
      handoffReason := "";
      lateReplyRun := None;
    }

    method Record(message: Message) returns (outcome: Outcome)
      modifies this
      ensures View() == Step(old(View()), Recorded(message)) && Counters() == old(Counters())
      ensures outcome == Answer(old(View()), Recorded(message))
    {
      if !open {
        return RefusedClosed(closeReason);
      }
      lastMessageAt := Some(message.createdAt);
      lastMessageRole := Some(message.role);
      lastMessageAuthor := message.author;
      if message.role.Operator? {
        waitingSince := None;
      } else if message.role.User? && !mode.Bot? && waitingSince.None? {
        waitingSince := Some(message.createdAt);
      }
      return Done;
    }

    method Roll(today: int)
      modifies this
      ensures Counters() == RollDay(old(Counters()), today) && View() == old(View())
    {
      if usageDay < today {
        usageDay, tokensToday, turnsToday := today, 0, 0;
      }
    }

    method CountTokens(tokens: int, today: int)
      modifies this
      ensures Counters() == CountStep(old(Counters()), Tokens(tokens, today)) && View() == old(View())
    {
      Roll(today);
      tokensUsed := tokensUsed + tokens;
      tokensToday := tokensToday + tokens;
    }

    method CountTurn(today: int)
      modifies this
      ensures Counters() == CountStep(old(Counters()), Turn(today)) && View() == old(View())
    {
      Roll(today);
      turns := turns + 1;
      turnsToday := turnsToday + 1;
    }
  }
}
