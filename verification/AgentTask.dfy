/**
 * Waiting for an agent run: the run's own stream is read batch by batch, live entries go to the caller's callback, and
 * the first result, error or unreadable entry ends the wait.
 */
module AgentTask {
  import opened Options

  const LIVE_KINDS :=
    {"agent.tool_call", "agent.tool_result", "agent.task_start", "agent.task_finish", "agent.knowledge_search"}

  const FAILURE_STOP_REASONS := {"llm_error", "timeout"}

  /** `body` is the rest of the payload. */
  datatype Payload = Payload(error: Option<string>, stopReason: Option<string>, body: string)

  datatype Envelope = Envelope(kind: string, payload: Payload)

  /** A stream entry; its fields may not hold an envelope. */
  datatype Entry = Entry(id: nat, envelope: Option<Envelope>)

  datatype Outcome =
    | Returned(payload: Payload)
    | Raised(message: string)
    | Malformed
    | Stopped
    | TimedOut
    // The wait goes on.
    | Waiting

  /**
   * One turn of the loop: whether the session was stopped, the microseconds left, and how many new entries a read
   * gives.
   */
  datatype Poll = Poll(stopped: bool, timeLeft: int, take: nat)

  /** Redis gives entry ids in increasing order, above "0". */
  predicate Increasing(stream: seq<Entry>) {
    && (forall i :: 0 <= i < |stream| ==> stream[i].id > 0)
    && (forall i, j :: 0 <= i < j < |stream| ==> stream[i].id < stream[j].id)
  }

  // ---------------------------------------------------------------- what an entry means

  predicate IsLive(e: Entry) { e.envelope.Some? && e.envelope.value.kind in LIVE_KINDS }

  /** `payload.get("error") or f"agent stop_reason={stop_reason}"`. */
  function FailureMessage(p: Payload): string
    requires p.stopReason.Some?
  {
    if p.error.Some? && p.error.value != "" then p.error.value else "agent stop_reason=" + p.stopReason.value
  }

  /** How an entry ends the wait, if it does. */
  function Verdict(e: Entry): Option<Outcome> {
    if e.envelope.None? then Some(Malformed)
    else
      var Envelope(kind, payload) := e.envelope.value;
      if kind in LIVE_KINDS then None
      else if kind == "agent.error" then
        Some(Raised(if payload.error.Some? then payload.error.value else "agent error"))
      else if kind == "agent.result" then
        if payload.stopReason.Some? && payload.stopReason.value in FAILURE_STOP_REASONS then
          Some(Raised(FailureMessage(payload)))
        else Some(Returned(payload))
      else None
  }

  /** The live entries, in order. */
  function LiveOf(entries: seq<Entry>): seq<Envelope> {
    if entries == [] then []
    else
      var last := entries[|entries| - 1];
      LiveOf(entries[..|entries| - 1]) + if IsLive(last) then [last.envelope.value] else []
  }

  /** The place of the first entry that ends the wait; past the end if there is none. */
  function FirstFinal(stream: seq<Entry>): (d: nat)
    ensures d <= |stream|
    ensures d < |stream| ==> Verdict(stream[d]).Some?
    ensures forall i :: 0 <= i < d ==> Verdict(stream[i]).None?
  {
    if stream == [] || Verdict(stream[0]).Some? then 0
    else
      assert forall i :: 0 < i < |stream| ==> stream[i] == stream[1..][i - 1];
      1 + FirstFinal(stream[1..])
  }

  // ---------------------------------------------------------------- what the wait comes to

  predicate Breaks(p: Poll) { p.stopped || p.timeLeft <= 0 }

  /** The first poll that finds the session stopped or the time up. */
  function FirstBreak(polls: seq<Poll>): (b: nat)
    ensures b <= |polls|
    ensures b < |polls| ==> Breaks(polls[b])
    ensures forall i :: 0 <= i < b ==> !Breaks(polls[i])
  {
    if polls == [] || Breaks(polls[0]) then 0
    else
      assert forall i :: 0 < i < |polls| ==> polls[i] == polls[1..][i - 1];
      1 + FirstBreak(polls[1..])
  }

  function Taken(polls: seq<Poll>): nat {
    if polls == [] then 0 else Taken(polls[..|polls| - 1]) + polls[|polls| - 1].take
  }

  /** How much of the stream the polls deliver. */
  function Delivered(stream: seq<Entry>, polls: seq<Poll>): (n: nat)
    ensures n <= |stream|
  {
    if Taken(polls) <= |stream| then Taken(polls) else |stream|
  }

  function BreakOutcome(p: Poll): Outcome { if p.stopped then Stopped else TimedOut }

  /** The outcome and the envelopes handed to the callback, with no reading in batches. */
  function Comes(stream: seq<Entry>, polls: seq<Poll>): (Outcome, seq<Envelope>) {
    var b, d := FirstBreak(polls), FirstFinal(stream);
    var n := Delivered(stream, polls[..b]);
    if d < n then (Verdict(stream[d]).value, LiveOf(stream[..d]))
    else (if b < |polls| then BreakOutcome(polls[b]) else Waiting, LiveOf(stream[..n]))
  }

  predicate Ended(o: Outcome) { o.Returned? || o.Raised? || o.Malformed? }

  /** The cases of an entry, one by one. */
  lemma VerdictIs(e: Entry)
    ensures e.envelope.None? ==> Verdict(e) == Some(Malformed)
    ensures e.envelope.Some? ==>
              var Envelope(kind, payload) := e.envelope.value;
              var failed := payload.stopReason.Some? && payload.stopReason.value in FAILURE_STOP_REASONS;
              if kind in LIVE_KINDS then Verdict(e) == None
              else if kind == "agent.error" then
                Verdict(e) == Some(Raised(if payload.error.Some? then payload.error.value else "agent error"))
              else if kind == "agent.result" then
                Verdict(e) == Some(if failed then Raised(FailureMessage(payload)) else Returned(payload))
              else Verdict(e) == None
  {
  }

  lemma VerdictEnds(e: Entry)
    ensures Verdict(e).Some? ==> Ended(Verdict(e).value) && !IsLive(e)
  {
  }

  lemma {:induction false} LivePrefix(entries: seq<Entry>, n: nat)
    requires n <= |entries|
    ensures LiveOf(entries[..n]) <= LiveOf(entries)
  {
    if n < |entries| {
      LivePrefix(entries[..|entries| - 1], n);
      assert entries[..|entries| - 1][..n] == entries[..n];
    } else {
      assert entries[..n] == entries;
    }
  }

  /** A wait that was stopped, timed out or goes on has handed on a prefix of what a full wait hands on. */
  lemma HandedOnInOrder(stream: seq<Entry>, polls: seq<Poll>)
    ensures Comes(stream, polls).1 <= LiveOf(stream[..FirstFinal(stream)])
  {
    var n, d := Delivered(stream, polls[..FirstBreak(polls)]), FirstFinal(stream);
    if n <= d {
      LivePrefix(stream[..d], n);
      assert stream[..d][..n] == stream[..n];
    }
  }

  // ---------------------------------------------------------------- the loop

  /** How long a read may block, in milliseconds. Redis takes 0 for "for ever". */
  function BlockMs(pollBlockMs: int, timeLeft: int): (ms: int)
    requires pollBlockMs >= 1 && timeLeft > 0
    ensures 1 <= ms <= pollBlockMs
    ensures ms == 1 || ms * 1000 <= timeLeft
    ensures forall m :: 1 <= m <= pollBlockMs && m * 1000 <= timeLeft ==> m <= ms
  {
    var left := if timeLeft / 1000 < 1 then 1 else timeLeft / 1000;
    if pollBlockMs < left then pollBlockMs else left
  }

  /** The entries after `lastId`. */
  function After(stream: seq<Entry>, lastId: nat): seq<Entry> {
    if stream == [] || stream[0].id > lastId then stream else After(stream[1..], lastId)
  }

  /** `XREAD`: at most `take` entries after `lastId`. */
  function XRead(stream: seq<Entry>, lastId: nat, take: nat): seq<Entry> {
    var rest := After(stream, lastId);
    if take <= |rest| then rest[..take] else rest
  }

  function IdAt(stream: seq<Entry>, n: nat): nat
    requires n <= |stream|
  {
    if n == 0 then 0 else stream[n - 1].id
  }

  lemma IncreasingTail(stream: seq<Entry>)
    requires Increasing(stream) && stream != []
    ensures Increasing(stream[1..])
  {
  }

  /** The entries up to `lastId` are the first `n`. */
  predicate UpTo(stream: seq<Entry>, n: nat, lastId: nat) {
    && n <= |stream|
    && (n > 0 ==> stream[n - 1].id <= lastId)
    && (n < |stream| ==> lastId < stream[n].id)
  }

  lemma {:induction false} AfterSame(stream: seq<Entry>, n: nat, lastId: nat)
    requires Increasing(stream) && UpTo(stream, n, lastId)
    ensures After(stream, lastId) == stream[n..]
    decreases |stream|
  {
    if n > 0 {
      assert stream[0].id <= stream[n - 1].id;
      IncreasingTail(stream);
      hide Increasing;
      AfterSame(stream[1..], n - 1, lastId);
      assert stream[1..][n - 1..] == stream[n..];
    }
  }

  /** With the id of the last entry seen, a read gives the entries that follow it. */
  lemma ReadsOn(stream: seq<Entry>, n: nat, take: nat)
    requires Increasing(stream) && n <= |stream|
    ensures XRead(stream, IdAt(stream, n), take) == stream[n..if n + take <= |stream| then n + take else |stream|]
  {
    AfterSame(stream, n, IdAt(stream, n));
  }

  lemma FirstFinalFound(stream: seq<Entry>, d: nat)
    requires d <= |stream| && (d < |stream| ==> Verdict(stream[d]).Some?)
    requires forall i :: 0 <= i < d ==> Verdict(stream[i]).None?
    ensures FirstFinal(stream) == d
  {
    hide Verdict;
    var f := FirstFinal(stream);
    assert f < |stream| ==> Verdict(stream[f]).Some?;
  }

  lemma FirstBreakFound(polls: seq<Poll>, b: nat)
    requires b <= |polls| && (b < |polls| ==> Breaks(polls[b]))
    requires forall i :: 0 <= i < b ==> !Breaks(polls[i])
    ensures FirstBreak(polls) == b
  {
    var f := FirstBreak(polls);
    assert f < |polls| ==> Breaks(polls[f]);
  }

  lemma {:induction false} TakenGrows(polls: seq<Poll>, n: nat)
    requires n <= |polls|
    ensures Taken(polls[..n]) <= Taken(polls)
  {
    if n < |polls| {
      TakenGrows(polls[..|polls| - 1], n);
      assert polls[..|polls| - 1][..n] == polls[..n];
    } else {
      assert polls[..n] == polls;
    }
  }

  /** Ended by entry `d`, which the polls so far deliver. */
  lemma EndsAt(stream: seq<Entry>, polls: seq<Poll>, k: nat, d: nat)
    requires k < |polls| && d < |stream| && Verdict(stream[d]).Some?
    requires forall i :: 0 <= i < d ==> Verdict(stream[i]).None?
    requires forall i :: 0 <= i <= k ==> !Breaks(polls[i])
    requires d < Taken(polls[..k + 1])
    ensures Comes(stream, polls) == (Verdict(stream[d]).value, LiveOf(stream[..d]))
  {
    hide Verdict, Breaks;
    FirstFinalFound(stream, d);
    var b := FirstBreak(polls);
    assert k < b;
    TakenGrows(polls[..b], k + 1);
    assert polls[..b][..k + 1] == polls[..k + 1];
  }

  /** Not ended by any entry before poll `k` breaks the wait, or the polls run out. */
  lemma BreaksAt(stream: seq<Entry>, polls: seq<Poll>, k: nat)
    requires k <= |polls| && (k < |polls| ==> Breaks(polls[k]))
    requires forall i :: 0 <= i < k ==> !Breaks(polls[i])
    requires forall i :: 0 <= i < Delivered(stream, polls[..k]) ==> Verdict(stream[i]).None?
    ensures Comes(stream, polls) ==
            (if k < |polls| then BreakOutcome(polls[k]) else Waiting, LiveOf(stream[..Delivered(stream, polls[..k])]))
  {
    hide Verdict, Breaks, BreakOutcome;
    FirstBreakFound(polls, k);
    assert !(FirstFinal(stream) < Delivered(stream, polls[..k]));
  }

  lemma TakenNext(polls: seq<Poll>, k: nat)
    requires k < |polls|
    ensures Taken(polls[..k + 1]) == Taken(polls[..k]) + polls[k].take
  {
    assert polls[..k + 1][..k] == polls[..k];
  }

  lemma LiveNext(stream: seq<Entry>, n: nat)
    requires n < |stream|
    ensures LiveOf(stream[..n + 1]) ==
            LiveOf(stream[..n]) + if IsLive(stream[n]) then [stream[n].envelope.value] else []
  {
    assert stream[..n + 1][..n] == stream[..n];
  }

  // ---------------------------------------------------------------- what the outcome means

  /** The payload names one of the two stop reasons of a run that failed. */
  predicate FailedRun(p: Payload) { p.stopReason == Some("llm_error") || p.stopReason == Some("timeout") }

  predicate IsKind(e: Entry, kind: string) { e.envelope.Some? && e.envelope.value.kind == kind }

  /** Malformed, an error or a result. */
  predicate IsFinal(e: Entry) { e.envelope.None? || IsKind(e, "agent.error") || IsKind(e, "agent.result") }

  /** The first final entry of the stream is entry `d`. */
  predicate EndsFirst(stream: seq<Entry>, d: nat) {
    d < |stream| && IsFinal(stream[d]) && forall i :: 0 <= i < d ==> !IsFinal(stream[i])
  }

  /** No poll up to `k` finds the session stopped or the time up. */
  predicate GoesOn(polls: seq<Poll>, k: nat) {
    k < |polls| && forall i :: 0 <= i <= k ==> !polls[i].stopped && polls[i].timeLeft > 0
  }

  /** Poll `k` is the first that finds the session stopped or the time up. */
  predicate BreaksOff(polls: seq<Poll>, k: nat) {
    k < |polls| && (polls[k].stopped || polls[k].timeLeft <= 0) && (k > 0 ==> GoesOn(polls, k - 1))
  }

  /** A poll before the wait breaks off delivers entry `d`. */
  ghost predicate InTime(polls: seq<Poll>, d: nat) { exists k: nat :: GoesOn(polls, k) && d < Taken(polls[..k + 1]) }

  /** What the entry that ends a wait makes of it: the payload of a good result, or the error of any other end. */
  predicate EndsWith(e: Entry, o: Outcome) {
    && (o.Malformed? <==> e.envelope.None?)
    && (o.Returned? <==> IsKind(e, "agent.result") && !FailedRun(e.envelope.value.payload))
    && (o.Returned? ==> o.payload == e.envelope.value.payload)
    && (o.Raised? <==> IsKind(e, "agent.error") || (IsKind(e, "agent.result") && FailedRun(e.envelope.value.payload)))
    && (o.Raised? ==> RaisesAs(IsKind(e, "agent.error"), e.envelope.value.payload, o.message))
  }

  /** The message is the payload's own error; if it has none, or a result an empty one, it says what happened. */
  predicate RaisesAs(error: bool, p: Payload, message: string) {
    if p.error.Some? && (error || p.error.value != "") then message == p.error.value
    else if error then message == "agent error"
    else p.stopReason.Some? && message == "agent stop_reason=" + p.stopReason.value
  }

  /** A wait that no entry ends: stopped if the session was, else timed out, at the first poll that finds so. */
  ghost predicate EndsWithout(polls: seq<Poll>, o: Outcome) {
    && (o.Stopped? || o.TimedOut? || o.Waiting?)
    && (forall k: nat :: BreaksOff(polls, k) ==> o == if polls[k].stopped then Stopped else TimedOut)
    && (o.Waiting? ==> forall k :: 0 <= k < |polls| ==> GoesOn(polls, k))
  }

  lemma VerdictMeans(e: Entry)
    ensures Verdict(e).Some? <==> IsFinal(e)
    ensures Verdict(e).Some? ==> EndsWith(e, Verdict(e).value)
  {
  }

  lemma FirstFinalMeans(stream: seq<Entry>, d: nat)
    ensures EndsFirst(stream, d) <==> d == FirstFinal(stream) < |stream|
  {
    hide Verdict, IsFinal;
    forall i | 0 <= i < |stream| ensures Verdict(stream[i]).Some? <==> IsFinal(stream[i]) {
      VerdictMeans(stream[i]);
    }
    if EndsFirst(stream, d) {
      FirstFinalFound(stream, d);
    }
  }

  lemma InTimeMeans(stream: seq<Entry>, polls: seq<Poll>, d: nat)
    requires d < |stream|
    ensures InTime(polls, d) <==> d < Delivered(stream, polls[..FirstBreak(polls)])
  {
    var b := FirstBreak(polls);
    if InTime(polls, d) {
      var k: nat :| GoesOn(polls, k) && d < Taken(polls[..k + 1]);
      assert k < b;
      TakenGrows(polls[..b], k + 1);
      assert polls[..b][..k + 1] == polls[..k + 1];
    } else if b > 0 {
      assert GoesOn(polls, b - 1);
    } else {
      Empty();
      assert polls[..0] == [];
    }
  }

  lemma BreaksOffMeans(polls: seq<Poll>)
    ensures var b := FirstBreak(polls);
            && (forall k: nat :: BreaksOff(polls, k) ==> k == b)
            && (b < |polls| ==> BreaksOff(polls, b))
            && (b == |polls| ==> forall k :: 0 <= k < |polls| ==> GoesOn(polls, k))
  {
    var b := FirstBreak(polls);
    if b < |polls| {
      assert BreaksOff(polls, b);
    }
    assert forall k: nat :: BreaksOff(polls, k) ==> k <= b;
  }

  /**
   * The first final entry ends the wait if it is delivered in time, as that entry says and with the live entries before
   * it handed on; else the wait is stopped, timed out or goes on.
   */
  lemma {:induction false} OutcomeMeans(stream: seq<Entry>, polls: seq<Poll>)
    ensures var (o, events) := Comes(stream, polls);
            && (forall d: nat :: EndsFirst(stream, d) && InTime(polls, d) ==>
                  EndsWith(stream[d], o) && events == LiveOf(stream[..d]))
            && ((forall d: nat :: EndsFirst(stream, d) ==> !InTime(polls, d)) ==> EndsWithout(polls, o))
  {
    hide Verdict, LiveOf, Delivered, EndsFirst, InTime, EndsWith, IsFinal;
    var d := FirstFinal(stream);
    forall j: nat ensures EndsFirst(stream, j) <==> j == d < |stream| {
      FirstFinalMeans(stream, j);
    }
    BreaksOffMeans(polls);
    hide BreaksOff, GoesOn;
    if d < |stream| {
      VerdictMeans(stream[d]);
      InTimeMeans(stream, polls, d);
    } else {
      DeliveredAll(stream, polls[..FirstBreak(polls)]);
    }
  }

  lemma DeliveredAll(stream: seq<Entry>, polls: seq<Poll>)
    ensures Delivered(stream, polls) <= |stream|
  {
  }

  /** What is handed on are the tool calls and results, the starts and ends of tasks, and the knowledge searches. */
  lemma {:induction false} HandedOnAre(entries: seq<Entry>, e: Envelope)
    ensures e in LiveOf(entries) <==>
            && (exists i :: 0 <= i < |entries| && entries[i].envelope == Some(e))
            && (e.kind == "agent.tool_call" || e.kind == "agent.tool_result" || e.kind == "agent.task_start"
                || e.kind == "agent.task_finish" || e.kind == "agent.knowledge_search")
  {
    if entries != [] {
      var init, last := entries[..|entries| - 1], entries[|entries| - 1];
      HandedOnAre(init, e);
      assert entries == init + [last];
      assert forall i :: 0 <= i < |init| ==> init[i] == entries[i];
      if last.envelope == Some(e) {
        assert entries[|entries| - 1].envelope == Some(e);
      }
    }
  }

  /** What a wait comes to ends it by an entry exactly if the first final entry was delivered in time. */
  lemma ComesMeans(stream: seq<Entry>, polls: seq<Poll>)
    ensures var ((o, events), d) := (Comes(stream, polls), FirstFinal(stream));
            && (Ended(o) <==> d < Delivered(stream, polls[..FirstBreak(polls)]))
            && (Ended(o) ==> o == Verdict(stream[d]).value && events == LiveOf(stream[..d]))
            && events <= LiveOf(stream[..d])
  {
    HandedOnInOrder(stream, polls);
    var d := FirstFinal(stream);
    if d < |stream| {
      VerdictEnds(stream[d]);
    }
    hide Verdict, LiveOf;
  }

  /**
   * `_await_result`: `handedOn` is what the callback was called with, whether or not it failed.
   *
   * However the stream is split into batches: a wait that is not stopped or timed out before ends by the first entry
   * that can end it, with exactly the live entries before that one handed on, in order; another wait has handed on a
   * part of them.
   */
  method AwaitResult(stream: seq<Entry>, polls: seq<Poll>) returns (outcome: Outcome, handedOn: seq<Envelope>)
    requires Increasing(stream)
    ensures (outcome, handedOn) == Comes(stream, polls)
    ensures Ended(outcome) <==> FirstFinal(stream) < Delivered(stream, polls[..FirstBreak(polls)])
    ensures Ended(outcome) ==>
              && outcome == Verdict(stream[FirstFinal(stream)]).value
              && handedOn == LiveOf(stream[..FirstFinal(stream)])
    ensures handedOn <= LiveOf(stream[..FirstFinal(stream)])
    ensures forall d: nat :: EndsFirst(stream, d) && InTime(polls, d) ==>
              EndsWith(stream[d], outcome) && handedOn == LiveOf(stream[..d])
    ensures (forall d: nat :: EndsFirst(stream, d) ==> !InTime(polls, d)) ==> EndsWithout(polls, outcome)
  {
    ComesMeans(stream, polls);
    OutcomeMeans(stream, polls);
    hide EndsFirst, InTime, EndsWith, EndsWithout, FirstFinal, FirstBreak, FailureMessage, Increasing;
    hide Comes, Verdict, LiveOf, Taken, XRead;
    var lastId := 0;
    handedOn := [];
    ghost var seen := 0;
    var k := 0;
    assert stream[..0] == [] && polls[..0] == [];
    assert LiveOf([]) == [] && Taken([]) == 0 by { Empty(); }
    while k < |polls|
      invariant k <= |polls| && seen == Delivered(stream, polls[..k]) && lastId == IdAt(stream, seen)
      invariant handedOn == LiveOf(stream[..seen])
      invariant forall i :: 0 <= i < seen ==> Verdict(stream[i]).None?
      invariant forall i :: 0 <= i < k ==> !Breaks(polls[i])
    {
      if Breaks(polls[k]) {
        BreaksAt(stream, polls, k);
        return if polls[k].stopped then Stopped else TimedOut, handedOn;
      }
      var entries := XRead(stream, lastId, polls[k].take);
      ReadsOn(stream, seen, polls[k].take);
      TakenNext(polls, k);
      ghost var start := seen;
      for j := 0 to |entries|
        invariant seen == start + j && lastId == IdAt(stream, seen)
        invariant handedOn == LiveOf(stream[..seen])
        invariant forall i :: 0 <= i < seen ==> Verdict(stream[i]).None?
      {
        var entry := entries[j];
        assert entry == stream[seen];
        lastId := entry.id;
        LiveNext(stream, seen);
        VerdictIs(entry);
        if Verdict(entry).Some? {
          EndsAt(stream, polls, k, seen);
        }
        if entry.envelope.None? {
          return Malformed, handedOn;
        }
        var Envelope(kind, payload) := entry.envelope.value;
        if kind in LIVE_KINDS {
          handedOn := handedOn + [entry.envelope.value];
        } else if kind == "agent.error" {
          return Raised(if payload.error.Some? then payload.error.value else "agent error"), handedOn;
        } else if kind == "agent.result" {
          if payload.stopReason.Some? && payload.stopReason.value in FAILURE_STOP_REASONS {
            return Raised(FailureMessage(payload)), handedOn;
          }
          return Returned(payload), handedOn;
        }
        seen := seen + 1;
      }
      k := k + 1;
    }
    BreaksAt(stream, polls, k);
    return Waiting, handedOn;
  }

  lemma Empty()
    ensures LiveOf([]) == [] && Taken([]) == 0
  {
  }

  // ---------------------------------------------------------------- one dispatch

  /** The keys of one run in Redis, and whether its request was announced. */
  class Dispatcher {
    var keys: set<string>
    var announced: bool

    constructor ()
      ensures keys == {} && !announced
    {
      keys, announced := {}, false;
    }

    /**
     * `_dispatch`: stores the request, announces it, waits, and deletes the request key and the run's stream however
     * the wait ends. A request that could not be announced keeps its key, until that expires.
     */
    method Dispatch(requestKey: string, resultStream: string, stream: seq<Entry>, polls: seq<Poll>, stores: bool,
        announces: bool)
      returns (outcome: Option<Outcome>, handedOn: seq<Envelope>)
      requires Increasing(stream)
      modifies this
      ensures outcome.Some? <==> stores && announces
      ensures outcome.Some? ==> (outcome.value, handedOn) == Comes(stream, polls)
      ensures outcome.Some? && !outcome.value.Waiting? ==> keys == old(keys) - {requestKey, resultStream}
      ensures outcome.Some? && outcome.value.Waiting? ==> keys == old(keys) + {requestKey, resultStream}
      ensures outcome.None? ==> handedOn == [] && keys == old(keys) + if stores then {requestKey} else {}
      ensures announced <==> old(announced) || outcome.Some?
    {
      hide *;
      handedOn := [];
      if !stores {
        return None, [];
      }
      keys := keys + {requestKey};
      if !announces {
        return None, [];
      }
      announced := true;
      keys := keys + {resultStream};
      var o;
      o, handedOn := AwaitResult(stream, polls);
      outcome := Some(o);
      if !o.Waiting? {
        keys := keys - {requestKey, resultStream};
      }
    }
  }
}
