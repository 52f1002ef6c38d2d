/**
 * One request of the agent: parse, load, build, execute or report, acknowledge. Every step returns or throws, and what
 * runs next follows from the `try` statements around it.
 */
module RequestHandler {
  /** An `Exception`; a run that crew withdrew; or the task's own cancellation. The last two are not `Exception`s. */
  datatype Kind = Failure | Withdrawal | Cancellation

  datatype End = Returns | Throws(kind: Kind)

  datatype Action = Parse | Load | Build | Report | Execute | Ack

  /** How each step ends when it runs. */
  datatype Ends = Ends(parse: End, load: End, build: End, report: End, execute: End, ack: End)

  function EndOf(e: Ends, a: Action): End {
    match a
    case Parse => e.parse
    case Load => e.load
    case Build => e.build
    case Report => e.report
    case Execute => e.execute
    case Ack => e.ack
  }

  // ---------------------------------------------------------------- try statements

  datatype Stmt =
    | Pass
    | Do(action: Action)
    | Then(first: Stmt, second: Stmt)
    // `try: body`, `except catches: handler`, `else: orElse`.
    | Try(body: Stmt, catches: set<Kind>, handler: Stmt, orElse: Stmt)
    // `try: body`, `finally: cleanup`.
    | Finally(body: Stmt, cleanup: Stmt)

  /** A step that ran, and how it ended. */
  datatype Ran = Ran(action: Action, end: End)

  datatype Outcome = Outcome(trace: seq<Ran>, end: End)

  function Exec(s: Stmt, e: Ends): Outcome {
    match s
    case Pass => Outcome([], Returns)
    case Do(a) => Outcome([Ran(a, EndOf(e, a))], EndOf(e, a))
    case Then(first, second) =>
      var r := Exec(first, e);
      if r.end.Throws? then r else After(r, Exec(second, e))
    case Try(body, catches, handler, orElse) =>
      var r := Exec(body, e);
      if r.end.Returns? then After(r, Exec(orElse, e))
      else if r.end.kind in catches then After(r, Exec(handler, e))
      else r
    case Finally(body, cleanup) =>
      var r, q := Exec(body, e), Exec(cleanup, e);
      Outcome(r.trace + q.trace, if q.end.Throws? then q.end else r.end)
  }

  /** `q` ran after `r`, and decides how both end. */
  function After(r: Outcome, q: Outcome): Outcome { Outcome(r.trace + q.trace, q.end) }

  const PREPARE := Then(Do(Load), Do(Build))
  const RUN := Try(Do(Execute), {Withdrawal}, Pass, Pass)
  const BODY := Try(PREPARE, {Failure}, Do(Report), RUN)

  /** `RequestHandler.handle`. */
  const HANDLE := Finally(BODY, Do(Ack))

  const MESSAGE := Try(Do(Parse), {Failure}, Do(Ack), HANDLE)

  /** `_process_message`: a message that cannot be parsed is acknowledged and dropped; a failure is logged. */
  const PROCESS := Try(MESSAGE, {Failure}, Pass, Pass)

  // ---------------------------------------------------------------- what runs

  function Count(trace: seq<Ran>, a: Action): nat {
    if trace == [] then 0
    else Count(trace[..|trace| - 1], a) + if trace[|trace| - 1].action == a then 1 else 0
  }

  lemma {:induction false} CountAppend(t: seq<Ran>, u: seq<Ran>, a: Action)
    ensures Count(t + u, a) == Count(t, a) + Count(u, a)
  {
    if u == [] {
      assert t + u == t;
    } else {
      assert (t + u)[..|t + u| - 1] == t + u[..|u| - 1];
      CountAppend(t, u[..|u| - 1], a);
    }
  }

  lemma CountOne(r: Ran, a: Action)
    ensures Count([r], a) == if r.action == a then 1 else 0
  {
    assert [r][..0] == [];
  }

  /** However the body ends, a `finally` runs last, once, after all of it. */
  lemma {:induction false} FinallyRuns(body: Stmt, a: Action, e: Ends)
    ensures var t := Exec(Finally(body, Do(a)), e).trace;
            && t != [] && t[|t| - 1] == Ran(a, EndOf(e, a)) && t[..|t| - 1] == Exec(body, e).trace
            && Count(t, a) == Count(Exec(body, e).trace, a) + 1
  {
    hide Count;
    var r := Exec(body, e);
    CountAppend(r.trace, [Ran(a, EndOf(e, a))], a);
    CountOne(Ran(a, EndOf(e, a)), a);
  }

  /** The steps of a request before its acknowledgement. */
  function Before(e: Ends): seq<Ran> {
    if e.load.Throws? then [Ran(Load, e.load)] + Reported(e, e.load.kind)
    else if e.build.Throws? then [Ran(Load, Returns), Ran(Build, e.build)] + Reported(e, e.build.kind)
    else [Ran(Load, Returns), Ran(Build, Returns), Ran(Execute, e.execute)]
  }

  /** Only an `Exception` is reported. */
  function Reported(e: Ends, k: Kind): seq<Ran> { if k == Failure then [Ran(Report, e.report)] else [] }

  lemma AfterNothing(r: Outcome, end: End)
    ensures After(r, Outcome([], end)) == Outcome(r.trace, end)
  {
  }

  /** Catching some kinds with nothing to do: the trace stays, and what is caught is gone. */
  lemma Swallows(body: Stmt, k: Kind, e: Ends)
    ensures var r := Exec(body, e);
            Exec(Try(body, {k}, Pass, Pass), e) == Outcome(r.trace, if r.end == Throws(k) then Returns else r.end)
  {
    AfterNothing(Exec(body, e), Returns);
  }

  lemma PrepareIs(e: Ends)
    ensures Exec(PREPARE, e) ==
            if e.load.Throws? then Outcome([Ran(Load, e.load)], e.load)
            else Outcome([Ran(Load, Returns), Ran(Build, e.build)], e.build)
  {
    assert [Ran(Load, e.load)] + [Ran(Build, e.build)] == [Ran(Load, e.load), Ran(Build, e.build)];
  }

  lemma BodyIs(e: Ends)
    ensures Exec(BODY, e) == Outcome(Before(e), BeforeEnd(e))
  {
    PrepareIs(e);
    Swallows(Do(Execute), Withdrawal, e);
    assert Exec(Do(Execute), e) == Outcome([Ran(Execute, e.execute)], e.execute);
    assert Exec(Do(Report), e) == Outcome([Ran(Report, e.report)], e.report);
    var r := Exec(PREPARE, e);
    assert Exec(BODY, e) ==
           if r.end.Returns? then After(r, Exec(RUN, e))
           else if r.end.kind in {Failure} then After(r, Exec(Do(Report), e))
           else r;
    hide Exec;
    assert r.trace + [] == r.trace;
    assert [Ran(Load, Returns), Ran(Build, Returns)] + [Ran(Execute, e.execute)] ==
           [Ran(Load, Returns), Ran(Build, Returns), Ran(Execute, e.execute)];
  }

  /** What is on its way out when the acknowledgement comes. */
  function BeforeEnd(e: Ends): End {
    var k := if e.load.Throws? then e.load else e.build;
    if k == Throws(Failure) then e.report
    else if k.Throws? then k
    else if e.execute == Throws(Withdrawal) then Returns
    else e.execute
  }

  lemma HandleIs(e: Ends)
    ensures Exec(HANDLE, e) == Outcome(Before(e) + [Ran(Ack, e.ack)], if e.ack.Throws? then e.ack else BeforeEnd(e))
  {
    BodyIs(e);
    assert Exec(Do(Ack), e) == Outcome([Ran(Ack, e.ack)], e.ack);
  }

  lemma {:induction false} NoneCounted(t: seq<Ran>, a: Action)
    requires forall i :: 0 <= i < |t| ==> t[i].action != a
    ensures Count(t, a) == 0
  {
    if t != [] {
      NoneCounted(t[..|t| - 1], a);
    }
  }

  predicate Acts(t: seq<Ran>, a: Action) { exists i :: 0 <= i < |t| && t[i].action == a }

  /**
   * Whatever the steps do, a request is acknowledged once, last. It executes exactly if it was loaded and built, and is
   * reported as failed exactly if loading or building failed; never both.
   */
  lemma {:induction false} HandleMeans(e: Ends)
    ensures var t := Exec(HANDLE, e).trace;
            && t != [] && Count(t, Ack) == 1 && t[|t| - 1] == Ran(Ack, e.ack)
            && (Acts(t, Execute) <==> e.load.Returns? && e.build.Returns?)
            && (Acts(t, Report) <==> e.load == Throws(Failure) || (e.load.Returns? && e.build == Throws(Failure)))
  {
    hide Exec, Count;
    HandleIs(e);
    var b := Before(e);
    NoneCounted(b, Ack);
    CountAppend(b, [Ran(Ack, e.ack)], Ack);
    CountOne(Ran(Ack, e.ack), Ack);
    var t := b + [Ran(Ack, e.ack)];
    if e.load.Returns? && e.build.Returns? {
      assert t[2].action == Execute;
    } else if e.load == Throws(Failure) {
      assert t[1].action == Report;
    } else if e.load.Returns? && e.build == Throws(Failure) {
      assert t[2].action == Report;
    }
  }

  /**
   * What leaves the handler: what the acknowledgement throws; else what the report or the run threw, or a cancellation
   * while it loaded or built. A withdrawn run is not an error.
   */
  lemma {:induction false} HandleThrows(e: Ends)
    ensures Exec(HANDLE, e).end == if e.ack.Throws? then e.ack else BeforeEnd(e)
    ensures e.ack.Returns? && e.load.Returns? && e.build.Returns? && e.execute == Throws(Withdrawal) ==>
              Exec(HANDLE, e).end.Returns?
  {
    HandleIs(e);
  }

  lemma MessageIs(e: Ends)
    ensures Exec(MESSAGE, e) ==
            var parsed := [Ran(Parse, e.parse)];
            if e.parse == Throws(Failure) then Outcome(parsed + [Ran(Ack, e.ack)], e.ack)
            else if e.parse.Returns? then After(Outcome(parsed, Returns), Exec(HANDLE, e))
            else Outcome(parsed, e.parse)
  {
    assert Exec(Do(Parse), e) == Outcome([Ran(Parse, e.parse)], e.parse);
    assert Exec(Do(Ack), e) == Outcome([Ran(Ack, e.ack)], e.ack);
  }

  /** A parsed message is handled, and one that cannot be parsed is acknowledged and nothing else. */
  lemma ProcessIs(e: Ends)
    ensures var r := Exec(MESSAGE, e);
            Exec(PROCESS, e) == Outcome(r.trace, if r.end == Throws(Failure) then Returns else r.end)
  {
    Swallows(MESSAGE, Failure, e);
  }

  /**
   * Whatever raises, a message is acknowledged once, last, and no `Exception` leaves its task. Parsing awaits nothing,
   * so it is not cancelled.
   */
  lemma {:induction false} ProcessMeans(e: Ends)
    requires e.parse.Throws? ==> e.parse.kind == Failure
    ensures var r := Exec(PROCESS, e);
            && r.trace != [] && Count(r.trace, Ack) == 1 && r.trace[|r.trace| - 1].action == Ack
            && r.end != Throws(Failure)
  {
    ProcessIs(e);
    MessageIs(e);
    hide Exec, Count;
    HandleMeans(e);
    var rest := if e.parse.Returns? then Exec(HANDLE, e).trace else [Ran(Ack, e.ack)];
    CountAppend([Ran(Parse, e.parse)], rest, Ack);
    CountOne(Ran(Parse, e.parse), Ack);
    CountOne(Ran(Ack, e.ack), Ack);
  }

  // ---------------------------------------------------------------- the program

  /** `RequestHandler.handle`, step by step: `thrown` is on its way out until a handler catches it. */
  method Handle(e: Ends) returns (r: Outcome)
    ensures r == Exec(HANDLE, e)
  {
    HandleIs(e);
    hide Exec;
    var trace, thrown := [Ran(Load, e.load)], e.load;
    if thrown.Returns? {
      trace, thrown := trace + [Ran(Build, e.build)], e.build;
    }
    if thrown == Throws(Failure) {
      trace, thrown := trace + [Ran(Report, e.report)], e.report;
    } else if thrown.Returns? {
      trace, thrown := trace + [Ran(Execute, e.execute)], e.execute;
      if thrown == Throws(Withdrawal) {
        thrown := Returns;
      }
    }
    assert trace == Before(e);
    trace := trace + [Ran(Ack, e.ack)];
    if e.ack.Throws? {
      thrown := e.ack;
    }
    return Outcome(trace, thrown);
  }

  /** `_process_message`. */
  method Process(e: Ends) returns (r: Outcome)
    ensures r == Exec(PROCESS, e)
  {
    var trace, thrown := [Ran(Parse, e.parse)], e.parse;
    if thrown == Throws(Failure) {
      trace, thrown := trace + [Ran(Ack, e.ack)], e.ack;
    } else if thrown.Returns? {
      var h := Handle(e);
      trace, thrown := trace + h.trace, h.end;
    }
    MessageIs(e);
    ProcessIs(e);
    hide Exec;
    if thrown == Throws(Failure) {
      thrown := Returns;
    }
    return Outcome(trace, thrown);
  }
}
