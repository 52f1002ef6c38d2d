/**
 * Navigation sync: the page's address changes become reports to EpicStaff, held back and merged when they come too
 * fast.
 *
 * `State` is what the sync holds, plus three histories: the changes it was given to report, the reports it sent with
 * their times, and the path EpicStaff shows. `Step` is one synchronous piece of the program; the class below performs
 * the same steps on fields.
 */
module NavSync {
  import opened Options
  import opened Text
  import opened NavPath
  import opened NavAddress

  const RATE_WINDOW_MS := 60_000
  const MAX_NAV_CHANGES_PER_MINUTE := 120
  const REPORT_HEADROOM := 10
  const REPORT_LIMIT := MAX_NAV_CHANGES_PER_MINUTE - REPORT_HEADROOM

  datatype NavReport = NavReport(path: Text, replace: bool)

  datatype Sent = Sent(time: int, report: NavReport)

  /** What is on its way to EpicStaff, and the history of what was sent. */
  datatype Outbox = Outbox(deferred: Option<NavReport>, deferTimer: Option<int>, sentAt: seq<int>, sent: seq<Sent>)

  datatype State = State(
    mode: RoutingMode,
    customNavigate: bool,
    initialPath: Option<Text>,
    location: Location,
    lastPath: Option<Text>,
    connected: bool,
    queued: Option<NavReport>,
    installed: bool,
    out: Outbox,
    changes: seq<NavReport>,
    shownByHost: Option<Text>)

  const EMPTY_OUTBOX := Outbox(None, None, [], [])

  /** The state `installNavSync` leaves. */
  function Installed(mode: RoutingMode, customNavigate: bool, location: Location): State {
    var path := LocationToNavPath(location, mode);
    State(mode, customNavigate, path, location, path, false, None, true, EMPTY_OUTBOX, [], None)
  }

  // ---------------------------------------------------------------- the steps

  function ReadPath(s: State): Option<Text> { LocationToNavPath(s.location, s.mode) }

  /** `older` then `next`: the later path, replacing only if both replace. */
  function Merge(older: Option<NavReport>, next: NavReport): NavReport {
    NavReport(next.path, if older.None? then next.replace else older.value.replace && next.replace)
  }

  /** Sends older than the window are forgotten. */
  function DropOld(sentAt: seq<int>, time: int): seq<int> {
    if sentAt != [] && time - sentAt[0] >= RATE_WINDOW_MS then DropOld(sentAt[1..], time) else sentAt
  }

  /** When the deferral timer started at `time` is due. */
  function DueTime(sentAt: seq<int>, time: int): int {
    var wait := (if sentAt == [] then time else sentAt[0]) + RATE_WINDOW_MS - time + 1;
    time + if wait < 0 then 0 else wait
  }

  /** Sends a report, or merges it into the deferred one when the window is full or a report is deferred already. */
  function Report(o: Outbox, next: NavReport, time: int): Outbox {
    var recent := DropOld(o.sentAt, time);
    if |recent| >= REPORT_LIMIT || o.deferTimer.Some? then
      Outbox(Some(Merge(o.deferred, next)),
             if o.deferTimer.Some? then o.deferTimer else Some(DueTime(recent, time)),
             recent, o.sent)
    else
      Outbox(o.deferred, None, recent + [time], o.sent + [Sent(time, next)])
  }

  /** Reports `next`; once sent, it is what EpicStaff shows. */
  function Post(s: State, next: NavReport, time: int): State {
    var out := Report(s.out, next, time);
    s.(out := out, shownByHost := if |out.sent| > |s.out.sent| then Some(next.path) else s.shownByHost)
  }

  /** A change to report: it is added to the history and reported. */
  function Change(s: State, next: NavReport, time: int): State {
    Post(s.(changes := s.changes + [next], lastPath := Some(next.path)), next, time)
  }

  /** `locationChanged`, given the path the address shows now. */
  function Noticed(s: State, path: Option<Text>, replace: bool, time: int): State {
    if path.None? || path == s.lastPath then s
    else if !s.connected then s.(lastPath := path, queued := Some(Merge(s.queued, NavReport(path.value, replace))))
    else Change(s, NavReport(path.value, replace), time)
  }

  function LocationChanged(s: State, replace: bool, time: int): State { Noticed(s, ReadPath(s), replace, time) }

  /** The page moves to `location`; the wrapped history functions and the listeners notice while installed. */
  function PageMoves(s: State, location: Location, replace: bool, time: int): State {
    var moved := s.(location := location);
    if s.installed then LocationChanged(moved, replace, time) else moved
  }

  predicate TimerDue(o: Outbox, time: int) { o.deferTimer.Some? && o.deferTimer.value <= time }

  /** The timer callback, once the timer is due. */
  function TimerFires(s: State, time: int): State {
    if !TimerDue(s.out, time) then s
    else
      var idle := s.(out := s.out.(deferTimer := None, deferred := None));
      if s.out.deferred.None? then idle else Post(idle, s.out.deferred.value, time)
  }

  function Known(s: State, target: Text): State { s.(lastPath := Some(target), shownByHost := Some(target)) }

  /** EpicStaff moves the page to `target`, a canonical path. */
  function MoveTo(s: State, target: Text, time: int): State {
    if s.customNavigate || ReadPath(s) == Some(target) then Known(s, target)
    else
      var moved := Known(s, target).(location := Moved(s.location, s.mode, target));
      // The synthetic popstate, and hashchange in hash mode, reach the sync's own listeners.
      var afterPop := if s.installed then LocationChanged(moved, true, time) else moved;
      if s.mode.HashRouting? && s.installed then LocationChanged(afterPop, true, time) else afterPop
  }

  function Navigate(s: State, path: Text, time: int): State {
    var target := Canonical(path);
    if target.None? then s else MoveTo(s, target.value, time)
  }

  function Shown(hostPath: Text): Text {
    var c := Canonical(hostPath);
    if c.Some? then c.value else "/"
  }

  /** EpicStaff shows the path the page started on; report where the page went meanwhile, if it did. */
  function CatchUp(s: State, shown: Text, current: Option<Text>, replace: bool, time: int): State {
    if current.None? || current == Some(shown) then Known(s, shown)
    else Change(Known(s, shown), NavReport(current.value, replace), time)
  }

  function Connect(s: State, hostPath: Text, time: int): State {
    var shown := Shown(hostPath);
    var ready := s.(connected := true, queued := None);
    if Some(shown) != s.initialPath then Navigate(ready, shown, time)
    else CatchUp(ready, shown, ReadPath(s), if s.queued.Some? then s.queued.value.replace else true, time)
  }

  function Uninstall(s: State): State {
    s.(installed := false, connected := false, out := s.out.(deferTimer := None))
  }

  datatype Event =
    // `pushState` reports {replace: false}; `replaceState`, `popstate` and `hashchange` report {replace: true}.
    | PageMoved(location: Location, replace: bool)
    | TimerCallback
    | HostNavigates(path: Text)
    | HostConnects(hostPath: Text)
    | Uninstalls

  function Step(s: State, e: Event, time: int): State {
    match e
    case PageMoved(location, replace) => PageMoves(s, location, replace, time)
    case TimerCallback => TimerFires(s, time)
    case HostNavigates(path) => Navigate(s, path, time)
    case HostConnects(hostPath) => Connect(s, hostPath, time)
    case Uninstalls => Uninstall(s)
  }

  datatype Timed = Timed(time: int, event: Event)

  /** The state after a run of timed events. */
  function Run(s: State, run: seq<Timed>): State {
    if run == [] then s
    else
      var last := run[|run| - 1];
      Step(Run(s, run[..|run| - 1]), last.event, last.time)
  }

  predicate ClockOk(run: seq<Timed>) { forall i, j :: 0 <= i < j < |run| ==> run[i].time <= run[j].time }

  // ---------------------------------------------------------------- no echo

  /** A listener that sees the path the sync already knows does nothing. */
  lemma KnownPathIgnored(s: State, replace: bool, time: int)
    requires ReadPath(s) == s.lastPath
    ensures LocationChanged(s, replace, time) == s
  {
  }

  /** What a host navigation leaves: the known path, and the address unless the page routes itself. */
  function Arrived(s: State, target: Text): State {
    if s.customNavigate || ReadPath(s) == Some(target) then Known(s, target)
    else Known(s, target).(location := Moved(s.location, s.mode, target))
  }

  lemma MoveNeverEchoes(s: State, target: Text, time: int)
    requires LocationToNavPath(Moved(s.location, s.mode, target), s.mode) == Some(target)
    ensures MoveTo(s, target, time) == Arrived(s, target)
    ensures !s.customNavigate ==> ReadPath(Arrived(s, target)) == Some(target)
  {
    hide LocationToNavPath, Canonical, OutboxInv;
    var moved := Known(s, target).(location := Moved(s.location, s.mode, target));
    assert ReadPath(moved) == moved.lastPath;
    KnownPathIgnored(moved, true, time);
  }

  /**
   * A host navigation, with the synthetic events it fires, reports, queues and defers nothing; afterwards the sync
   * knows the target, and the page shows it unless it routes itself.
   */
  lemma {:induction false} NavigateNeverEchoes(s: State, path: Text, time: int)
    ensures Navigate(s, path, time) == if Canonical(path).None? then s else Arrived(s, Canonical(path).value)
    ensures Canonical(path).Some? && !s.customNavigate ==> ReadPath(Navigate(s, path, time)) == Canonical(path)
  {
    hide LocationToNavPath, Canonical, OutboxInv;
    if Canonical(path).Some? {
      CanonicalAddressReadsBack(s.location, s.mode, path);
      MoveNeverEchoes(s, Canonical(path).value, time);
    }
  }

  lemma RootIsCanonical()
    ensures Canonical("/") == Some("/")
  {
    PrintReadsBack([], []);
    assert Print([], []) == "/";
    SpellingFixed("/");
  }

  lemma ShownIsCanonicalPath(hostPath: Text)
    ensures Canonical(Shown(hostPath)) == Some(Shown(hostPath))
  {
    CanonicalIdempotent(hostPath);
    RootIsCanonical();
  }

  // ---------------------------------------------------------------- every change is reported once, in order

  /** The report a block of consecutive changes becomes: its last path, replacing only if all of them do. */
  function Summary(block: seq<NavReport>): NavReport
    requires block != []
  {
    NavReport(block[|block| - 1].path, forall r | r in block :: r.replace)
  }

  function Flatten(blocks: seq<seq<NavReport>>): seq<NavReport> {
    if blocks == [] then [] else Flatten(blocks[..|blocks| - 1]) + blocks[|blocks| - 1]
  }

  /** `reports` summarises the contiguous, non-empty blocks that `changes` falls into, in order. */
  predicate Summarises(reports: seq<NavReport>, blocks: seq<seq<NavReport>>, changes: seq<NavReport>) {
    && |reports| == |blocks|
    && Flatten(blocks) == changes
    && forall i :: 0 <= i < |blocks| ==> blocks[i] != [] && reports[i] == Summary(blocks[i])
  }

  function SentReports(sent: seq<Sent>): seq<NavReport> {
    if sent == [] then [] else SentReports(sent[..|sent| - 1]) + [sent[|sent| - 1].report]
  }

  /** The reports sent and, if there is one, the deferred report. */
  function AllReports(o: Outbox): seq<NavReport> {
    SentReports(o.sent) + if o.deferred.Some? then [o.deferred.value] else []
  }

  /** Every change is in exactly one report: sent ones first, the deferred one last. */
  ghost predicate InBlocks(reports: seq<NavReport>, changes: seq<NavReport>) {
    exists blocks :: Summarises(reports, blocks, changes)
  }

  lemma SummaryExtends(block: seq<NavReport>, next: NavReport)
    requires block != []
    ensures Summary(block + [next]) == Merge(Some(Summary(block)), next)
  {
    var longer := block + [next];
    assert next in longer;
    assert forall r | r in block :: r in longer;
    assert forall r | r in longer :: r in block || r == next;
  }

  lemma FlattenLast(blocks: seq<seq<NavReport>>, block: seq<NavReport>)
    ensures Flatten(blocks + [block]) == Flatten(blocks) + block
  {
    assert (blocks + [block])[..|blocks|] == blocks;
  }

  /** One more change: a block of its own, or the end of the last block. */
  lemma SummariseNext(reports: seq<NavReport>, blocks: seq<seq<NavReport>>, changes: seq<NavReport>, next: NavReport)
    requires Summarises(reports, blocks, changes)
    ensures Summarises(reports + [next], blocks + [[next]], changes + [next])
    ensures reports != [] ==>
      var n := |reports| - 1;
      Summarises(reports[..n] + [Merge(Some(reports[n]), next)], blocks[..n] + [blocks[n] + [next]], changes + [next])
  {
    FlattenLast(blocks, [next]);
    assert Summary([next]) == next;
    if reports != [] {
      var n := |reports| - 1;
      SummaryExtends(blocks[n], next);
      FlattenLast(blocks[..n], blocks[n] + [next]);
      FlattenLast(blocks[..n], blocks[n]);
      assert blocks == blocks[..n] + [blocks[n]];
      Associative(Flatten(blocks[..n]), blocks[n], [next]);
    }
  }

  // ---------------------------------------------------------------- the rate limit

  function Times(sent: seq<Sent>): (r: seq<int>)
    ensures |r| == |sent| && forall i :: 0 <= i < |sent| ==> r[i] == sent[i].time
  {
    seq(|sent|, i requires 0 <= i < |sent| => sent[i].time)
  }

  predicate Sorted(times: seq<int>) { forall i, j :: 0 <= i < j < |times| ==> times[i] <= times[j] }

  /** Any report and one at least `REPORT_LIMIT` later are at least a window apart. */
  predicate Spaced(times: seq<int>) {
    forall i, j :: 0 <= i && i + REPORT_LIMIT <= j < |times| ==> times[j] - times[i] >= RATE_WINDOW_MS
  }

  /** `recent` is the end of `times`, and everything before it is older than the window at `clock`. */
  predicate RecentEnd(recent: seq<int>, times: seq<int>, clock: int) {
    && |recent| <= |times|
    && recent == times[|times| - |recent|..]
    && (forall i :: 0 <= i < |times| - |recent| ==> clock - times[i] >= RATE_WINDOW_MS)
    && (forall i :: 0 <= i < |times| ==> times[i] <= clock)
  }

  /** How many of the reports were sent in the window that begins at `start`. */
  function SentWithin(times: seq<int>, start: int): nat {
    if times == [] then 0
    else SentWithin(times[1..], start) + if start <= times[0] < start + RATE_WINDOW_MS then 1 else 0
  }

  lemma {:induction false} DropOldKeeps(sentAt: seq<int>, times: seq<int>, clock: int, time: int)
    requires Sorted(times) && RecentEnd(sentAt, times, clock) && clock <= time
    ensures RecentEnd(DropOld(sentAt, time), times, time)
    ensures DropOld(sentAt, time) == [] || time - DropOld(sentAt, time)[0] < RATE_WINDOW_MS
    ensures |DropOld(sentAt, time)| <= |sentAt|
    decreases |sentAt|
  {
    assert RecentEnd(sentAt, times, time);
    if sentAt != [] && time - sentAt[0] >= RATE_WINDOW_MS {
      var k := |times| - |sentAt|;
      assert sentAt[0] == times[k];
      assert sentAt[1..] == times[k + 1..];
      DropOldKeeps(sentAt[1..], times, time, time);
    }
  }

  /** Sending when fewer than the limit are recent keeps the spacing. */
  lemma SendKeepsSpacing(recent: seq<int>, times: seq<int>, time: int)
    requires Sorted(times) && Spaced(times) && RecentEnd(recent, times, time) && |recent| < REPORT_LIMIT
    ensures Sorted(times + [time]) && Spaced(times + [time]) && RecentEnd(recent + [time], times + [time], time)
  {
    var longer := times + [time];
    forall i, j | 0 <= i && i + REPORT_LIMIT <= j < |longer| ensures longer[j] - longer[i] >= RATE_WINDOW_MS {
      if j == |times| {
        assert i < |times| - |recent|;
      }
    }
  }

  /** Spaced reports: no window holds more than the limit. */
  lemma {:induction false} SpacedMeansLimited(times: seq<int>, start: int)
    requires Sorted(times) && Spaced(times)
    ensures SentWithin(times, start) <= REPORT_LIMIT
    decreases |times|
  {
    if times == [] {
    } else if times[0] < start {
      SpacedMeansLimited(times[1..], start);
    } else {
      SortedCount(times, start, if |times| < REPORT_LIMIT then |times| else REPORT_LIMIT);
    }
  }

  lemma {:induction false} SortedCount(times: seq<int>, start: int, n: nat)
    requires Sorted(times) && (times != [] ==> start <= times[0])
    requires n <= |times| &&
             (n < |times| ==> times[n] - times[0] >= RATE_WINDOW_MS || times[n] >= start + RATE_WINDOW_MS)
    ensures SentWithin(times, start) <= n
    decreases |times|
  {
    if times == [] {
    } else if n == 0 {
      NoneWithin(times, start);
    } else if times[0] < start + RATE_WINDOW_MS {
      assert n < |times| ==> times[n] >= start + RATE_WINDOW_MS;
      SortedCount(times[1..], start, n - 1);
    } else {
      NoneWithin(times, start);
    }
  }

  lemma {:induction false} NoneWithin(times: seq<int>, start: int)
    requires Sorted(times) && (times != [] ==> times[0] >= start + RATE_WINDOW_MS)
    ensures SentWithin(times, start) == 0
  {
    if times != [] {
      NoneWithin(times[1..], start);
    }
  }

  // ---------------------------------------------------------------- what every step keeps

  /** While set, the timer is due when the oldest of the last `REPORT_LIMIT` reports has left the window. */
  predicate DueInTime(o: Outbox) {
    o.deferTimer.Some? ==>
      |o.sent| >= REPORT_LIMIT && o.deferTimer.value == o.sent[|o.sent| - REPORT_LIMIT].time + RATE_WINDOW_MS + 1
  }

  /** The limiter's state at `clock`. */
  predicate RateInv(o: Outbox, clock: int) {
    && Sorted(Times(o.sent)) && Spaced(Times(o.sent)) && RecentEnd(o.sentAt, Times(o.sent), clock)
    && |o.sentAt| <= REPORT_LIMIT
    && DueInTime(o)
  }

  ghost predicate OutboxInv(o: Outbox, changes: seq<NavReport>, clock: int) {
    && RateInv(o, clock)
    && (o.deferTimer.Some? <==> o.deferred.Some?)
    && InBlocks(AllReports(o), changes)
  }

  /** What holds in every state reached at `clock` while the sync is installed. */
  ghost predicate Inv(s: State, clock: int) {
    && s.installed
    && OutboxInv(s.out, s.changes, clock)
    && (!s.connected ==> s.out.deferred.None? && s.changes == [])
  }

  lemma NothingInBlocks()
    ensures InBlocks([], [])
  {
    var blocks: seq<seq<NavReport>> := [];
    assert Summarises([], blocks, []);
  }

  lemma EmptyOutboxInv(clock: int)
    ensures OutboxInv(EMPTY_OUTBOX, [], clock)
  {
    hide InBlocks;
    NothingInBlocks();
    assert AllReports(EMPTY_OUTBOX) == [];
    assert Times([]) == [];
  }

  lemma InstalledInv(mode: RoutingMode, customNavigate: bool, location: Location, clock: int)
    ensures Inv(Installed(mode, customNavigate, location), clock)
  {
    hide LocationToNavPath, OutboxInv;
    EmptyOutboxInv(clock);
  }

  lemma {:induction false} DropOldSame(sentAt: seq<int>, time: int)
    ensures |DropOld(sentAt, time)| <= |sentAt|
    ensures |DropOld(sentAt, time)| == |sentAt| ==> DropOld(sentAt, time) == sentAt
  {
    if sentAt != [] && time - sentAt[0] >= RATE_WINDOW_MS {
      DropOldSame(sentAt[1..], time);
    }
  }

  lemma SentLast(sent: seq<Sent>, last: Sent)
    ensures SentReports(sent + [last]) == SentReports(sent) + [last.report]
    ensures Times(sent + [last]) == Times(sent) + [last.time]
  {
    assert (sent + [last])[..|sent|] == sent;
  }

  lemma ReportKeepsRate(o: Outbox, next: NavReport, clock: int, time: int)
    requires RateInv(o, clock) && clock <= time
    ensures RateInv(Report(o, next, time), time)
  {
    hide Sorted, Spaced, RecentEnd, Times;
    var recent := DropOld(o.sentAt, time);
    DropOldKeeps(o.sentAt, Times(o.sent), clock, time);
    DropOldSame(o.sentAt, time);
    if |recent| < REPORT_LIMIT && o.deferTimer.None? {
      SendKeepsSpacing(recent, Times(o.sent), time);
      SentLast(o.sent, Sent(time, next));
    }
  }

  lemma NextInBlocks(reports: seq<NavReport>, changes: seq<NavReport>, next: NavReport)
    requires InBlocks(reports, changes)
    ensures InBlocks(reports + [next], changes + [next])
    ensures reports != [] ==>
      InBlocks(reports[..|reports| - 1] + [Merge(Some(reports[|reports| - 1]), next)], changes + [next])
  {
    var blocks :| Summarises(reports, blocks, changes);
    SummariseNext(reports, blocks, changes, next);
    assert InBlocks(reports + [next], changes + [next]);
    if reports != [] {
      var n := |reports| - 1;
      assert Summarises(reports[..n] + [Merge(Some(reports[n]), next)],
                        blocks[..n] + [blocks[n] + [next]], changes + [next]);
    }
  }

  /** A report joins the deferred one, or follows the reports sent. */
  lemma ReportAdds(o: Outbox, next: NavReport, time: int)
    requires o.deferTimer.Some? <==> o.deferred.Some?
    ensures AllReports(Report(o, next, time)) ==
            if o.deferred.Some? then SentReports(o.sent) + [Merge(o.deferred, next)] else SentReports(o.sent) + [next]
  {
    SentLast(o.sent, Sent(time, next));
  }

  /** Reporting a change adds it to the last block while a report is deferred, and starts a new block otherwise. */
  lemma ReportKeeps(o: Outbox, changes: seq<NavReport>, next: NavReport, clock: int, time: int)
    requires OutboxInv(o, changes, clock) && clock <= time
    ensures OutboxInv(Report(o, next, time), changes + [next], time)
  {
    hide RateInv, InBlocks, SentReports, DropOld, Merge;
    var reports := AllReports(o);
    ReportKeepsRate(o, next, clock, time);
    ReportAdds(o, next, time);
    NextInBlocks(reports, changes, next);
    if o.deferred.Some? {
      assert reports[|reports| - 1] == o.deferred.value && o.deferred == Some(o.deferred.value);
      assert reports[..|reports| - 1] == SentReports(o.sent);
    } else {
      assert reports == SentReports(o.sent);
    }
  }

  /** The window has room again once the timer is due. */
  lemma RoomWhenDue(o: Outbox, clock: int, time: int)
    requires RateInv(o, clock) && clock <= time && TimerDue(o, time)
    ensures |DropOld(o.sentAt, time)| < REPORT_LIMIT
    ensures RateInv(o.(deferTimer := None, deferred := None), clock)
  {
    hide Sorted, Spaced;
    DropOldSame(o.sentAt, time);
    if |o.sentAt| == REPORT_LIMIT {
      assert o.sentAt[0] == Times(o.sent)[|o.sent| - REPORT_LIMIT];
      DropOldSame(o.sentAt[1..], time);
    }
  }

  /** The first firing of a due timer sends the deferred report. */
  lemma {:induction false} DueTimerSends(o: Outbox, changes: seq<NavReport>, clock: int, time: int)
    requires OutboxInv(o, changes, clock) && clock <= time && TimerDue(o, time)
    ensures var fired := Report(o.(deferTimer := None, deferred := None), o.deferred.value, time);
            && fired.sent == o.sent + [Sent(time, o.deferred.value)]
            && fired.deferred.None? && fired.deferTimer.None?
            && OutboxInv(fired, changes, time)
  {
    hide InBlocks, SentReports, RateInv;
    var idle := o.(deferTimer := None, deferred := None);
    RoomWhenDue(o, clock, time);
    ReportKeepsRate(idle, o.deferred.value, clock, time);
    ReportAdds(idle, o.deferred.value, time);
  }

  lemma LaterKeeps(o: Outbox, changes: seq<NavReport>, clock: int, time: int)
    requires OutboxInv(o, changes, clock) && clock <= time
    ensures OutboxInv(o, changes, time)
  {
    hide InBlocks;
  }

  /** Steps that touch neither the reports nor the limiter keep the invariant. */
  lemma QuietKeeps(s: State, t: State, clock: int, time: int)
    requires Inv(s, clock) && clock <= time
    requires t.out == s.out && t.changes == s.changes && t.installed && (s.connected ==> t.connected)
    ensures Inv(t, time)
  {
    LaterKeeps(s.out, s.changes, clock, time);
  }

  lemma TimerKeeps(s: State, clock: int, time: int)
    requires Inv(s, clock) && clock <= time
    ensures Inv(Step(s, TimerCallback, time), time)
    ensures s.out.deferTimer.Some? && time >= s.out.deferTimer.value ==>
              s.out.deferred.Some? && TimerFires(s, time).out.sent == s.out.sent + [Sent(time, s.out.deferred.value)]
  {
    if TimerDue(s.out, time) {
      DueTimerSends(s.out, s.changes, clock, time);
    } else {
      QuietKeeps(s, s, clock, time);
    }
  }

  lemma ChangeKeeps(s: State, next: NavReport, clock: int, time: int)
    requires Inv(s, clock) && s.connected && clock <= time
    ensures Inv(Change(s, next, time), time)
  {
    ReportKeeps(s.out, s.changes, next, clock, time);
  }

  lemma NoticedKeeps(s: State, path: Option<Text>, replace: bool, clock: int, time: int)
    requires Inv(s, clock) && clock <= time
    ensures Inv(Noticed(s, path, replace, time), time)
  {
    hide OutboxInv;
    if path.Some? && path != s.lastPath && s.connected {
      ChangeKeeps(s, NavReport(path.value, replace), clock, time);
    } else {
      QuietKeeps(s, Noticed(s, path, replace, time), clock, time);
    }
  }

  lemma PageMovesKeeps(s: State, location: Location, replace: bool, clock: int, time: int)
    requires Inv(s, clock) && clock <= time
    ensures Inv(Step(s, PageMoved(location, replace), time), time)
  {
    hide LocationToNavPath, Canonical, OutboxInv;
    var moved := s.(location := location);
    QuietKeeps(s, moved, clock, clock);
    NoticedKeeps(moved, ReadPath(moved), replace, clock, time);
  }

  lemma NavigateKeeps(s: State, path: Text, clock: int, time: int)
    requires Inv(s, clock) && clock <= time
    ensures Inv(Navigate(s, path, time), time)
    ensures Inv(Step(s, HostNavigates(path), time), time)
  {
    hide LocationToNavPath, Canonical, OutboxInv;
    NavigateNeverEchoes(s, path, time);
    if Canonical(path).Some? {
      QuietKeeps(s, Arrived(s, Canonical(path).value), clock, time);
    } else {
      QuietKeeps(s, s, clock, time);
    }
  }

  lemma CatchUpKeeps(s: State, shown: Text, current: Option<Text>, replace: bool, clock: int, time: int)
    requires Inv(s, clock) && s.connected && clock <= time
    ensures Inv(CatchUp(s, shown, current, replace, time), time)
  {
    hide OutboxInv;
    var known := Known(s, shown);
    QuietKeeps(s, known, clock, time);
    QuietKeeps(s, known, clock, clock);
    if current.Some? && current != Some(shown) {
      ChangeKeeps(known, NavReport(current.value, replace), clock, time);
    }
  }

  lemma ConnectKeeps(s: State, hostPath: Text, clock: int, time: int)
    requires Inv(s, clock) && clock <= time
    ensures Inv(Step(s, HostConnects(hostPath), time), time)
  {
    hide LocationToNavPath, Canonical, OutboxInv;
    var shown := Shown(hostPath);
    var ready := s.(connected := true, queued := None);
    QuietKeeps(s, ready, clock, clock);
    if Some(shown) != s.initialPath {
      NavigateKeeps(ready, shown, clock, time);
    } else {
      CatchUpKeeps(ready, shown, ReadPath(s), if s.queued.Some? then s.queued.value.replace else true, clock, time);
    }
  }

  /** Every step but `uninstall` keeps the invariant. */
  lemma {:induction false} StepKeeps(s: State, e: Event, clock: int, time: int)
    requires Inv(s, clock) && clock <= time && !e.Uninstalls?
    ensures Inv(Step(s, e, time), time)
  {
    hide LocationToNavPath, Canonical, OutboxInv;
    match e
    case PageMoved(location, replace) => PageMovesKeeps(s, location, replace, clock, time);
    case TimerCallback => TimerKeeps(s, clock, time);
    case HostNavigates(path) => NavigateKeeps(s, path, clock, time);
    case HostConnects(hostPath) => ConnectKeeps(s, hostPath, clock, time);
  }

  // ---------------------------------------------------------------- the main results, over whole runs

  predicate NoUninstall(run: seq<Timed>) { forall i :: 0 <= i < |run| ==> !run[i].event.Uninstalls? }

  ghost predicate RunOk(run: seq<Timed>) { ClockOk(run) && NoUninstall(run) }

  lemma {:induction false} RunKeeps(s: State, run: seq<Timed>, start: int)
    requires Inv(s, start) && RunOk(run) && (run != [] ==> start <= run[0].time)
    ensures Inv(Run(s, run), if run == [] then start else run[|run| - 1].time)
  {
    hide OutboxInv;
    if run != [] {
      var init, last := run[..|run| - 1], run[|run| - 1];
      RunKeeps(s, init, start);
      StepKeeps(Run(s, init), last.event, if init == [] then start else init[|init| - 1].time, last.time);
    }
  }

  lemma LaterRate(o: Outbox, clock: int, time: int)
    requires RateInv(o, clock) && clock <= time
    ensures RateInv(o, time)
  {
    hide Sorted, Spaced, Times;
  }

  lemma PostRate(s: State, next: NavReport, clock: int, time: int)
    requires RateInv(s.out, clock) && clock <= time
    ensures RateInv(Post(s, next, time).out, time) && RateInv(Change(s, next, time).out, time)
  {
    hide RateInv, Report;
    ReportKeepsRate(s.out, next, clock, time);
  }

  lemma NoticedRate(s: State, path: Option<Text>, replace: bool, clock: int, time: int)
    requires RateInv(s.out, clock) && clock <= time
    ensures RateInv(Noticed(s, path, replace, time).out, time)
  {
    hide RateInv, Change;
    LaterRate(s.out, clock, time);
    if path.Some? {
      PostRate(s, NavReport(path.value, replace), clock, time);
    }
  }

  lemma TimerRate(s: State, clock: int, time: int)
    requires RateInv(s.out, clock) && clock <= time
    ensures RateInv(TimerFires(s, time).out, time)
  {
    LaterRate(s.out, clock, time);
    var idle := s.(out := s.out.(deferTimer := None, deferred := None));
    assert RateInv(idle.out, clock) && RateInv(idle.out, time);
    hide RateInv, Post;
    if s.out.deferred.Some? {
      PostRate(idle, s.out.deferred.value, clock, time);
    }
  }

  lemma NavigateRate(s: State, path: Text, clock: int, time: int)
    requires RateInv(s.out, clock) && clock <= time
    ensures RateInv(Navigate(s, path, time).out, time)
  {
    hide LocationToNavPath, Canonical, RateInv, Navigate;
    LaterRate(s.out, clock, time);
    NavigateNeverEchoes(s, path, time);
  }

  lemma CatchUpRate(s: State, shown: Text, current: Option<Text>, replace: bool, clock: int, time: int)
    requires RateInv(s.out, clock) && clock <= time
    ensures RateInv(CatchUp(s, shown, current, replace, time).out, time)
  {
    hide RateInv, Change;
    LaterRate(s.out, clock, time);
    if current.Some? {
      PostRate(Known(s, shown), NavReport(current.value, replace), clock, time);
    }
  }

  /** Every step keeps the rate limit, uninstalling included. */
  lemma StepKeepsRate(s: State, e: Event, clock: int, time: int)
    requires RateInv(s.out, clock) && clock <= time
    ensures RateInv(Step(s, e, time).out, time)
  {
    hide LocationToNavPath, Canonical, Navigate, CatchUp, Noticed, TimerFires;
    match e
    case PageMoved(location, replace) =>
      hide RateInv;
      var moved := s.(location := location);
      LaterRate(s.out, clock, time);
      NoticedRate(moved, ReadPath(moved), replace, clock, time);
    case TimerCallback => TimerRate(s, clock, time);
    case HostNavigates(path) => NavigateRate(s, path, clock, time);
    case HostConnects(hostPath) =>
      hide RateInv;
      var ready, shown := s.(connected := true, queued := None), Shown(hostPath);
      NavigateRate(ready, shown, clock, time);
      CatchUpRate(ready, shown, ReadPath(s), if s.queued.Some? then s.queued.value.replace else true, clock, time);
    case Uninstalls => LaterRate(s.out, clock, time);
  }

  lemma {:induction false} RunKeepsRate(s: State, run: seq<Timed>, start: int)
    requires RateInv(s.out, start) && ClockOk(run) && (run != [] ==> start <= run[0].time)
    ensures RateInv(Run(s, run).out, if run == [] then start else run[|run| - 1].time)
  {
    hide RateInv, Step;
    if run != [] {
      var init, last := run[..|run| - 1], run[|run| - 1];
      RunKeepsRate(s, init, start);
      StepKeepsRate(Run(s, init), last.event, if init == [] then start else init[|init| - 1].time, last.time);
    }
  }

  lemma RateMeans(o: Outbox, clock: int, windowStart: int)
    requires RateInv(o, clock)
    ensures SentWithin(Times(o.sent), windowStart) <= 110
    ensures o.deferTimer.Some? ==> |o.sent| >= 110 && o.deferTimer.value == o.sent[|o.sent| - 110].time + 60_001
  {
    SpacedMeansLimited(Times(o.sent), windowStart);
  }

  /**
   * After any run from installation, no 60-second window holds more than 110 sent reports, and the timer, while it is
   * set, is due as soon as the 110th last report has left the window. Until it is uninstalled, the reports sent and the
   * one deferred are the blocks of the changes, in order, and a report is deferred exactly while the timer is set.
   */
  lemma {:induction false} EveryRun(
    mode: RoutingMode, customNavigate: bool, location: Location, run: seq<Timed>, windowStart: int)
    requires ClockOk(run)
    ensures var s := Run(Installed(mode, customNavigate, location), run);
            && SentWithin(Times(s.out.sent), windowStart) <= 110
            && (s.out.deferTimer.Some? ==>
                  |s.out.sent| >= 110 && s.out.deferTimer.value == s.out.sent[|s.out.sent| - 110].time + 60_001)
            && (NoUninstall(run) ==> InBlocks(AllReports(s.out), s.changes))
            && (NoUninstall(run) ==> (s.out.deferTimer.Some? <==> s.out.deferred.Some?))
  {
    var s := Installed(mode, customNavigate, location);
    var start := if run == [] then 0 else run[0].time;
    InstalledInv(mode, customNavigate, location, start);
    RunKeepsRate(s, run, start);
    RateMeans(Run(s, run).out, if run == [] then start else run[|run| - 1].time, windowStart);
    hide RateInv, SentWithin, Run;
    if NoUninstall(run) {
      RunKeeps(s, run, start);
    }
  }

  /** The reports the limiter remembers once it forgot the old ones are those of the window that ends at `time`. */
  lemma {:induction false} RecentAreWithin(times: seq<int>, recent: seq<int>, time: int)
    requires Sorted(times) && RecentEnd(recent, times, time) && (recent == [] || time - recent[0] < RATE_WINDOW_MS)
    ensures SentWithin(times, time - RATE_WINDOW_MS + 1) == |recent|
    decreases |times|
  {
    if times != [] {
      if |recent| < |times| {
        RecentAreWithin(times[1..], recent, time);
      } else {
        assert recent == times;
        assert times[1..] == [] || times[1..][0] >= times[0];
        RecentAreWithin(times[1..], recent[1..], time);
      }
    }
  }

  lemma ReportSendsExactly(o: Outbox, next: NavReport, clock: int, time: int)
    requires RateInv(o, clock) && clock <= time
    ensures var sends := o.deferTimer.None? && SentWithin(Times(o.sent), time - RATE_WINDOW_MS + 1) < REPORT_LIMIT;
            Report(o, next, time).sent == if sends then o.sent + [Sent(time, next)] else o.sent
  {
    hide SentWithin, Spaced;
    DropOldKeeps(o.sentAt, Times(o.sent), clock, time);
    RecentAreWithin(Times(o.sent), DropOld(o.sentAt, time), time);
  }

  /**
   * After any run, a change is sent at once exactly if the timer is not set and fewer than 110 reports were sent in the
   * 60 seconds before.
   */
  lemma {:induction false} SentAtOnceExactly(
    mode: RoutingMode, customNavigate: bool, location: Location, run: seq<Timed>, next: NavReport, time: int)
    requires ClockOk(run) && (run != [] ==> run[|run| - 1].time <= time)
    ensures var s := Run(Installed(mode, customNavigate, location), run);
            var sends := s.out.deferTimer.None? && SentWithin(Times(s.out.sent), time - 59_999) < 110;
            Change(s, next, time).out.sent == if sends then s.out.sent + [Sent(time, next)] else s.out.sent
  {
    hide Run, RateInv;
    var s := Installed(mode, customNavigate, location);
    var start := if run == [] then time else run[0].time;
    assert RateInv(s.out, start) by { EmptyRate(start); }
    RunKeepsRate(s, run, start);
    var clock := if run == [] then start else run[|run| - 1].time;
    ReportSendsExactly(Run(s, run).out, next, clock, time);
  }

  lemma EmptyRate(clock: int)
    ensures RateInv(EMPTY_OUTBOX, clock)
  {
    assert Times([]) == [];
  }

  // ---------------------------------------------------------------- before the connection, and after the uninstall

  predicate NoConnect(run: seq<Timed>) { forall i :: 0 <= i < |run| ==> !run[i].event.HostConnects? }

  /** The event gives the page an address whose path the sync did not know: that path, and how it was moved to. */
  function Notices(s: State, e: Event): seq<NavReport> {
    if !e.PageMoved? || !s.installed then []
    else
      var path := LocationToNavPath(e.location, s.mode);
      if path.None? || path == s.lastPath then [] else [NavReport(path.value, e.replace)]
  }

  /** What the sync noticed in a run. */
  function NoticedIn(s: State, run: seq<Timed>): seq<NavReport> {
    if run == [] then []
    else NoticedIn(s, run[..|run| - 1]) + Notices(Run(s, run[..|run| - 1]), run[|run| - 1].event)
  }

  /** What is kept for the connection sums up what was noticed before it. */
  predicate QueueReads(queued: Option<NavReport>, noticed: seq<NavReport>) {
    queued == if noticed == [] then None else Some(Summary(noticed))
  }

  lemma QueueNext(queued: Option<NavReport>, noticed: seq<NavReport>, next: NavReport)
    requires QueueReads(queued, noticed)
    ensures QueueReads(Some(Merge(queued, next)), noticed + [next])
  {
    if noticed == [] {
      assert [] + [next] == [next];
      assert Summary([next]) == next;
    } else {
      SummaryExtends(noticed, next);
    }
  }

  lemma StepBeforeConnect(s: State, e: Event, time: int)
    requires !s.connected && s.out == EMPTY_OUTBOX && !e.HostConnects?
    ensures var t := Step(s, e, time);
            && !t.connected && t.out == EMPTY_OUTBOX && t.changes == s.changes && t.initialPath == s.initialPath
            && t.queued == if Notices(s, e) == [] then s.queued else Some(Merge(s.queued, Notices(s, e)[0]))
  {
    hide LocationToNavPath, Canonical;
    if e.HostNavigates? {
      NavigateNeverEchoes(s, e.path, time);
    }
  }

  /** Until the host connects nothing is sent, deferred or reported; what was noticed is kept, summed up. */
  lemma {:induction false} BeforeConnect(mode: RoutingMode, customNavigate: bool, location: Location, run: seq<Timed>)
    requires NoConnect(run)
    ensures var first := Installed(mode, customNavigate, location);
            var s := Run(first, run);
            && s.out == EMPTY_OUTBOX && s.changes == [] && !s.connected
            && s.initialPath == LocationToNavPath(location, mode)
            && QueueReads(s.queued, NoticedIn(first, run))
  {
    hide LocationToNavPath, Step, Notices;
    if run != [] {
      var first, init, last := Installed(mode, customNavigate, location), run[..|run| - 1], run[|run| - 1];
      assert forall i :: 0 <= i < |init| ==> init[i] == run[i];
      BeforeConnect(mode, customNavigate, location, init);
      var s := Run(first, init);
      StepBeforeConnect(s, last.event, last.time);
      assert |Notices(s, last.event)| <= 1 by { AtMostOne(s, last.event); }
      if Notices(s, last.event) != [] {
        QueueNext(s.queued, NoticedIn(first, init), Notices(s, last.event)[0]);
        assert Notices(s, last.event) == [Notices(s, last.event)[0]];
      } else {
        assert NoticedIn(first, init) + [] == NoticedIn(first, init);
      }
    }
  }

  lemma AtMostOne(s: State, e: Event)
    ensures |Notices(s, e)| <= 1
  {
  }

  /**
   * The host connects. If it shows another page than the one this page began on, it moves the page there and nothing is
   * reported; else the page's own path, if it is another one, is reported, and replaces what the host shows exactly if
   * all that was noticed meanwhile did.
   */
  lemma {:induction false} ConnectMeans(
    mode: RoutingMode, customNavigate: bool, location: Location, run: seq<Timed>, hostPath: Text, time: int)
    requires NoConnect(run) && Canonical(hostPath).Some?
    ensures var first := Installed(mode, customNavigate, location);
            var s := Run(first, run);
            var t, shown, path := Connect(s, hostPath, time), Canonical(hostPath).value, ReadPath(s);
            && t.connected && t.queued.None?
            && (s.initialPath != Some(shown) ==>
                  && t.out == s.out && t.changes == [] && t.lastPath == Some(shown) && t.shownByHost == Some(shown)
                  && (!s.customNavigate ==> ReadPath(t) == Some(shown)))
            && (s.initialPath == Some(shown) && (path.None? || path == Some(shown)) ==>
                  t.out == s.out && t.changes == [] && t.lastPath == Some(shown) && t.shownByHost == Some(shown))
            && (s.initialPath == Some(shown) && path.Some? && path != Some(shown) ==>
                  var report := NavReport(path.value, forall r | r in NoticedIn(first, run) :: r.replace);
                  t.out.sent == [Sent(time, report)] && t.changes == [report] && t.shownByHost == path)
  {
    hide LocationToNavPath, Canonical;
    BeforeConnect(mode, customNavigate, location, run);
    var first := Installed(mode, customNavigate, location);
    var s := Run(first, run);
    hide Run, NoticedIn;
    var ready := s.(connected := true, queued := None);
    CanonicalIdempotent(hostPath);
    NavigateNeverEchoes(ready, Canonical(hostPath).value, time);
    assert Shown(hostPath) == Canonical(hostPath).value;
  }

  /** A path without a canonical form is shown as the root. */
  lemma BadHostPath(s: State, hostPath: Text, time: int)
    requires Canonical(hostPath).None?
    ensures Connect(s, hostPath, time) == Connect(s, "/", time)
  {
    hide LocationToNavPath;
    RootIsCanonical();
    hide Canonical;
  }

  predicate NoHost(run: seq<Timed>) {
    forall i :: 0 <= i < |run| ==> !run[i].event.HostConnects? && !run[i].event.HostNavigates?
  }

  /** Uninstalled, the sync sends nothing more on its own: the page may move and timers may fire. */
  lemma {:induction false} SilentAfterUninstall(s: State, more: seq<Timed>, time: int)
    requires NoHost(more)
    ensures var t := Run(Step(s, Uninstalls, time), more);
            && !t.installed && !t.connected && t.out.deferTimer.None?
            && t.out.sent == s.out.sent && t.changes == s.changes && t.shownByHost == s.shownByHost
  {
    hide LocationToNavPath;
    if more != [] {
      var init := more[..|more| - 1];
      assert forall i :: 0 <= i < |init| ==> init[i] == more[i];
      SilentAfterUninstall(s, init, time);
    }
  }

  /** EpicStaff shows the path of the report just sent; a step of the page that sends none leaves it as it was. */
  lemma {:induction false} HostShowsSent(s: State, e: Event, time: int)
    requires e.PageMoved? || e.TimerCallback?
    ensures var t := Step(s, e, time);
            && s.out.sent <= t.out.sent && |t.out.sent| <= |s.out.sent| + 1
            && t.shownByHost == if t.out.sent == s.out.sent then s.shownByHost
                                else Some(t.out.sent[|s.out.sent|].report.path)
  {
    hide LocationToNavPath, DropOld;
  }

  // ---------------------------------------------------------------- EpicStaff and the page stay in step

  /** EpicStaff shows the path the sync knows, or will once the deferred report is sent. */
  predicate HostInStep(s: State) {
    s.connected ==>
      if s.out.deferred.Some? then s.lastPath == Some(s.out.deferred.value.path) else s.lastPath == s.shownByHost
  }

  /** The sync knows the path the address shows, if it shows one; a page that routes itself may be on its way. */
  predicate AddressKnown(s: State) {
    s.installed && !s.customNavigate && ReadPath(s).Some? ==> s.lastPath == ReadPath(s)
  }

  /** The page's address and EpicStaff agree, or will once the deferred report is sent. */
  predicate InStep(s: State) { HostInStep(s) && AddressKnown(s) }

  /**
   * While a report is deferred, the host moves the page elsewhere: that report is out of date. A host that connects
   * where the page began moves nothing, and the page's own path, if it has another one, joins the report.
   */
  predicate Overtakes(s: State, e: Event) {
    s.out.deferred.Some? &&
    var path := s.out.deferred.value.path;
    match e
    case HostNavigates(target) => Canonical(target).Some? && Canonical(target) != Some(path)
    case HostConnects(hostPath) =>
      var shown := Shown(hostPath);
      shown != path && (Some(shown) == s.initialPath ==> ReadPath(s).None? || ReadPath(s) == Some(shown))
    case _ => false
  }

  lemma NoticedInStep(s: State, replace: bool, time: int)
    requires HostInStep(s) && (s.out.deferTimer.Some? <==> s.out.deferred.Some?)
    ensures InStep(Noticed(s, ReadPath(s), replace, time))
  {
    hide LocationToNavPath;
  }

  /** A step keeps EpicStaff and the page in step exactly if it is no move that overtakes a deferred report. */
  lemma {:induction false} StepKeepsInStep(s: State, e: Event, clock: int, time: int)
    requires Inv(s, clock) && InStep(s) && clock <= time && !e.Uninstalls?
    ensures InStep(Step(s, e, time)) <==> !Overtakes(s, e)
  {
    hide LocationToNavPath, Canonical, RateInv, InBlocks, Shown;
    match e
    case PageMoved(location, replace) => PageMovesInStep(s, location, replace, time);
    case TimerCallback =>
      if TimerDue(s.out, time) {
        DueTimerSends(s.out, s.changes, clock, time);
      }
    case HostNavigates(path) => NavigateInStep(s, path, time);
    case HostConnects(hostPath) => ConnectInStep(s, hostPath, time);
  }

  lemma PageMovesInStep(s: State, location: Location, replace: bool, time: int)
    requires InStep(s) && (s.out.deferTimer.Some? <==> s.out.deferred.Some?)
    ensures InStep(PageMoves(s, location, replace, time))
  {
    hide LocationToNavPath, Canonical, OutboxInv;
    var moved := s.(location := location);
    NoticedInStep(moved, replace, time);
  }

  lemma CatchUpInStep(s: State, shown: Text, replace: bool, time: int)
    requires s.connected && (s.out.deferTimer.Some? <==> s.out.deferred.Some?)
    ensures var current := ReadPath(s);
            InStep(CatchUp(s, shown, current, replace, time)) <==>
            (s.out.deferred.Some? && (current.None? || current == Some(shown)) ==> s.out.deferred.value.path == shown)
  {
    hide LocationToNavPath;
  }

  lemma NavigateInStep(s: State, path: Text, time: int)
    requires Canonical(path).None? ==> InStep(s)
    requires s.out.deferred.Some? ==> s.connected
    ensures InStep(Navigate(s, path, time)) <==>
            (s.out.deferred.Some? && Canonical(path).Some? ==> Canonical(path) == Some(s.out.deferred.value.path))
  {
    hide LocationToNavPath, Canonical, OutboxInv;
    NavigateNeverEchoes(s, path, time);
  }

  lemma ConnectInStep(s: State, hostPath: Text, time: int)
    requires (s.out.deferTimer.Some? <==> s.out.deferred.Some?) && (s.out.deferred.Some? ==> s.connected)
    ensures InStep(Connect(s, hostPath, time)) <==> !Overtakes(s, HostConnects(hostPath))
  {
    hide LocationToNavPath, Canonical, OutboxInv, Shown;
    var shown := Shown(hostPath);
    var ready := s.(connected := true, queued := None);
    if Some(shown) != s.initialPath {
      ShownIsCanonicalPath(hostPath);
      NavigateInStep(ready, shown, time);
    } else {
      CatchUpInStep(ready, shown, if s.queued.Some? then s.queued.value.replace else true, time);
    }
  }

  /** While a report is deferred, a host navigation keeps the two in step exactly when it goes where the report goes. */
  lemma {:induction false} OvertakingNavigation(s: State, path: Text, clock: int, time: int)
    requires Inv(s, clock) && s.out.deferred.Some? && Canonical(path).Some?
    ensures InStep(Navigate(s, path, time)) <==> Canonical(path) == Some(s.out.deferred.value.path)
  {
    hide LocationToNavPath, Canonical, OutboxInv;
    NavigateInStep(s, path, time);
  }

  // A concrete run: 111 changes at once, so the last report is deferred, and then the host moves elsewhere.

  const HOME := Location("/", "", "")

  lemma LetterIsCanonical(letter: Text)
    requires letter == "a" || letter == "b" || letter == "c"
    ensures Canonical("/" + letter) == Some("/" + letter)
  {
    LetterPrints(letter);
    hide Print, ProperSegment, Canonical;
    PlainPageCanonical([letter]);
  }

  lemma LetterPrints(letter: Text)
    requires letter == "a" || letter == "b" || letter == "c"
    ensures ProperSegment(letter) && Print([letter], []) == "/" + letter
  {
    assert Encode(letter) == letter;
    assert EncodeAll([letter]) == [letter];
  }

  /** The pages the run goes to, in turn. */
  function Page(i: nat): Text { if i % 2 == 0 then "/" + "a" else "/" + "b" }

  function MoveEvent(i: nat): Event { PageMoved(Moved(HOME, PathnameRouting, Page(i)), false) }

  /** The host connects, and the page moves `n` times, all at time 0. */
  function Burst(n: nat): seq<Timed> {
    if n == 0 then [Timed(0, HostConnects("/"))] else Burst(n - 1) + [Timed(0, MoveEvent(n - 1))]
  }

  function AfterBurst(n: nat): State { Run(Installed(PathnameRouting, false, HOME), Burst(n)) }

  lemma PageShown(i: nat)
    ensures LocationToNavPath(Moved(HOME, PathnameRouting, Page(i)), PathnameRouting) == Some(Page(i))
  {
    hide LocationToNavPath, Canonical, Moved;
    LetterIsCanonical(if i % 2 == 0 then "a" else "b");
    CanonicalAddressReadsBack(HOME, PathnameRouting, Page(i));
  }

  /** After at most 110 moves nothing is deferred, and the next move is reported at once. */
  predicate Bursting(s: State, n: nat) {
    && s.mode == PathnameRouting && !s.customNavigate && s.installed && s.connected
    && s.out.deferTimer.None? && s.out.deferred.None?
    && |s.out.sentAt| == n && AllZero(s.out.sentAt)
    && s.lastPath == Some(if n == 0 then "/" else Page(n - 1))
  }

  lemma HomeShown()
    ensures LocationToNavPath(HOME, PathnameRouting) == Some("/")
  {
    RootIsCanonical();
    CanonicalAddressReadsBack(HOME, PathnameRouting, "/");
    assert Moved(HOME, PathnameRouting, "/") == HOME;
  }

  lemma BurstBegins()
    ensures Bursting(AfterBurst(0), 0)
  {
    HomeShown();
    RootIsCanonical();
    hide LocationToNavPath, Canonical, Navigate;
    var s := Installed(PathnameRouting, false, HOME);
    assert Burst(0)[..0] == [];
    assert Run(s, Burst(0)) == Step(s, HostConnects("/"), 0);
  }

  lemma RunNext(s: State, run: seq<Timed>, last: Timed)
    ensures Run(s, run + [last]) == Step(Run(s, run), last.event, last.time)
  {
    hide Step;
    assert (run + [last])[..|run|] == run;
  }

  lemma BurstNext(n: nat)
    ensures AfterBurst(n + 1) == Step(AfterBurst(n), MoveEvent(n), 0)
  {
    assert Burst(n + 1) == Burst(n) + [Timed(0, MoveEvent(n))] by {
      hide MoveEvent;
    }
    hide Step, MoveEvent, Burst, Run;
    RunNext(Installed(PathnameRouting, false, HOME), Burst(n), Timed(0, MoveEvent(n)));
  }

  lemma PagesDiffer(n: nat)
    ensures Page(n) != "/" && Page(n) != Page(n + 1)
  {
    assert Page(n)[1] != Page(n + 1)[1];
  }

  predicate AllZero(times: seq<int>) { forall i :: 0 <= i < |times| ==> times[i] == 0 }

  lemma ReportAtZero(o: Outbox, next: NavReport)
    requires o.deferTimer.None? && o.deferred.None? && AllZero(o.sentAt)
    ensures var r := Report(o, next, 0);
            if |o.sentAt| < REPORT_LIMIT then
              r.deferTimer.None? && r.deferred.None? && r.sentAt == o.sentAt + [0] && AllZero(r.sentAt)
            else r.deferred == Some(next)
  {
    assert DropOld(o.sentAt, 0) == o.sentAt;
  }

  lemma MoveIsChange(s: State, n: nat)
    requires s.mode == PathnameRouting && s.installed && s.connected && s.lastPath != Some(Page(n))
    ensures Step(s, MoveEvent(n), 0) ==
            Change(s.(location := Moved(HOME, PathnameRouting, Page(n))), NavReport(Page(n), false), 0)
  {
    PageShown(n);
    hide LocationToNavPath, Canonical, Moved, Page, Change;
  }

  lemma BurstGoesOn(s: State, n: nat)
    requires Bursting(s, n) && n <= REPORT_LIMIT
    ensures var t := Step(s, MoveEvent(n), 0);
            if n < REPORT_LIMIT then Bursting(t, n + 1)
            else t.connected && t.out.deferred == Some(NavReport(Page(n), false))
  {
    hide Page, Moved, Step, MoveEvent, Report, AllZero, LocationToNavPath;
    PagesDiffer(if n > 0 then n - 1 else 0);
    MoveIsChange(s, n);
    ReportAtZero(s.out, NavReport(Page(n), false));
  }

  lemma {:induction false} BurstReaches(n: nat)
    requires n <= REPORT_LIMIT
    ensures Bursting(AfterBurst(n), n)
  {
    hide Bursting, AfterBurst, MoveEvent, Step;
    if n == 0 {
      BurstBegins();
    } else {
      BurstReaches(n - 1);
      BurstNext(n - 1);
      BurstGoesOn(AfterBurst(n - 1), n - 1);
    }
  }

  predicate AtZero(run: seq<Timed>) {
    forall i :: 0 <= i < |run| ==> run[i].time == 0 && !run[i].event.Uninstalls?
  }

  lemma {:induction false} BurstAtZero(n: nat)
    ensures AtZero(Burst(n)) && Burst(n) != []
  {
    assert !MoveEvent(n).Uninstalls?;
    if n > 0 {
      assert !MoveEvent(n - 1).Uninstalls?;
      hide MoveEvent;
      BurstAtZero(n - 1);
    }
  }

  lemma BurstOk(n: nat)
    ensures RunOk(Burst(n)) && Burst(n) != [] && Burst(n)[0].time == 0 && Burst(n)[|Burst(n)| - 1].time == 0
  {
    BurstAtZero(n);
    hide Burst;
  }

  /** The host's move overtakes the deferred report, which then goes out and shows the wrong page. */
  lemma {:induction false} HostOvertakes()
    ensures !InStep(Step(AfterBurst(REPORT_LIMIT + 1), HostNavigates("/c"), 0))
  {
    hide Bursting, MoveEvent, InStep, Inv, LocationToNavPath, Canonical, Navigate, Burst, Run;
    BurstReaches(REPORT_LIMIT);
    BurstNext(REPORT_LIMIT);
    BurstGoesOn(AfterBurst(REPORT_LIMIT), REPORT_LIMIT);
    var s := AfterBurst(REPORT_LIMIT + 1);
    assert Inv(s, 0) by {
      BurstOk(REPORT_LIMIT + 1);
      InstalledInv(PathnameRouting, false, HOME, 0);
      RunKeeps(Installed(PathnameRouting, false, HOME), Burst(REPORT_LIMIT + 1), 0);
    }
    LetterIsCanonical("c");
    assert "/" + "c" == "/c" && Page(REPORT_LIMIT) == "/a";
    OvertakingNavigation(s, "/c", 0, 0);
  }

  /** No step of the run overtakes a deferred report. */
  ghost predicate NeverOvertaken(s: State, run: seq<Timed>) {
    forall i :: 0 <= i < |run| ==> !Overtakes(Run(s, run[..i]), run[i].event)
  }

  /** EpicStaff and the page are in step after every part of the run. */
  ghost predicate AlwaysInStep(s: State, run: seq<Timed>) {
    forall n :: 0 <= n <= |run| ==> InStep(Run(s, run[..n]))
  }

  lemma AlwaysInStepNext(s: State, run: seq<Timed>)
    requires run != []
    ensures var init := run[..|run| - 1];
            && (AlwaysInStep(s, run) <==> AlwaysInStep(s, init) && InStep(Run(s, run)))
            && (AlwaysInStep(s, init) ==> InStep(Run(s, init)))
            && (NeverOvertaken(s, run) <==>
                  NeverOvertaken(s, init) && !Overtakes(Run(s, init), run[|run| - 1].event))
  {
    hide InStep, Overtakes, Run;
    var init := run[..|run| - 1];
    assert run[..|run|] == run && init[..|init|] == init;
    assert forall n :: 0 <= n <= |init| ==> init[..n] == run[..n];
    assert forall n :: 0 <= n < |init| ==> init[n] == run[n];
    if AlwaysInStep(s, run) {
      forall n | 0 <= n <= |init| ensures InStep(Run(s, init[..n])) {
        assert init[..n] == run[..n];
      }
    }
    if NeverOvertaken(s, run) {
      forall n | 0 <= n < |init| ensures !Overtakes(Run(s, init[..n]), init[n].event) {
        assert init[..n] == run[..n] && init[n] == run[n];
      }
    }
  }

  lemma NothingOvertaken(s: State)
    requires InStep(s)
    ensures AlwaysInStep(s, []) && NeverOvertaken(s, [])
  {
    hide InStep;
    var run: seq<Timed> := [];
    assert run[..0] == run;
  }

  /** Throughout a run EpicStaff and the page stay in step exactly if the host never overtakes a deferred report. */
  lemma {:induction false} RunStaysInStep(s: State, run: seq<Timed>, start: int)
    requires Inv(s, start) && InStep(s) && RunOk(run) && (run != [] ==> start <= run[0].time)
    ensures AlwaysInStep(s, run) <==> NeverOvertaken(s, run)
  {
    hide OutboxInv, InStep, Overtakes, Step, AlwaysInStep, NeverOvertaken;
    if run == [] {
      NothingOvertaken(s);
    } else {
      var init, last := run[..|run| - 1], run[|run| - 1];
      RunStaysInStep(s, init, start);
      RunKeeps(s, init, start);
      AlwaysInStepNext(s, run);
      if AlwaysInStep(s, init) {
        StepKeepsInStep(Run(s, init), last.event, if init == [] then start else init[|init| - 1].time, last.time);
      }
    }
  }

  // ---------------------------------------------------------------- the sync as an object

  /** The closures of `installNavSync` and the variables they share; the ghost fields are the histories. */
  class Sync {
    const mode: RoutingMode
    const customNavigate: bool
    const initialPath: Option<Text>
    var location: Location
    var lastPath: Option<Text>
    var connected: bool
    var queued: Option<NavReport>
    var installed: bool
    var deferred: Option<NavReport>
    var deferTimer: Option<int>
    var sentAt: seq<int>
    ghost var sent: seq<Sent>
    ghost var changes: seq<NavReport>
    ghost var shownByHost: Option<Text>

    ghost function Out(): Outbox
      reads this
    {
      Outbox(deferred, deferTimer, sentAt, sent)
    }

    ghost function View(): State
      reads this
    {
      State(mode, customNavigate, initialPath, location, lastPath, connected, queued, installed,
            Out(), changes, shownByHost)
    }

    constructor (mode: RoutingMode, customNavigate: bool, location: Location)
      ensures View() == Installed(mode, customNavigate, location)
    {
      var path := LocationToNavPath(location, mode);
      this.mode, this.customNavigate, this.location := mode, customNavigate, location;
      this.initialPath, this.lastPath := path, path;
      this.connected, this.queued, this.installed := false, None, true;
      this.deferred, this.deferTimer, this.sentAt := None, None, [];
      this.sent, this.changes, this.shownByHost := [], [], None;
    }

    method ScheduleDeferred(time: int)
      modifies this`deferTimer
      ensures deferTimer == if old(deferTimer).Some? then old(deferTimer) else Some(DueTime(sentAt, time))
    {
      if deferTimer.Some? {
        return;
      }
      var oldest := if sentAt == [] then time else sentAt[0];
      var wait := oldest + RATE_WINDOW_MS - time + 1;
      if wait < 0 {
        wait := 0;
      }
      deferTimer := Some(time + wait);
    }

    method PostReport(next: NavReport, time: int)
      modifies this`deferred, this`deferTimer, this`sentAt, this`sent, this`shownByHost
      ensures View() == Post(old(View()), next, time)
    {
      while sentAt != [] && time - sentAt[0] >= RATE_WINDOW_MS
        invariant DropOld(sentAt, time) == DropOld(old(sentAt), time)
        modifies this`sentAt
        decreases |sentAt|
      {
        sentAt := sentAt[1..];
      }
      if |sentAt| >= REPORT_LIMIT || deferTimer.Some? {
        deferred := Some(NavReport(next.path,
                                   if deferred.None? then next.replace
                                   else deferred.value.replace && next.replace));
        ScheduleDeferred(time);
      } else {
        sentAt := sentAt + [time];
        sent := sent + [Sent(time, next)];
        shownByHost := Some(next.path);
      }
    }

    method OnLocationChanged(replace: bool, time: int)
      modifies this
      ensures View() == LocationChanged(old(View()), replace, time)
    {
      hide LocationToNavPath;
      var path := LocationToNavPath(location, mode);
      if path.None? || path == lastPath {
        return;
      }
      lastPath := path;
      if !connected {
        queued := Some(NavReport(path.value, if queued.None? then replace else queued.value.replace && replace));
        return;
      }
      changes := changes + [NavReport(path.value, replace)];
      PostReport(NavReport(path.value, replace), time);
    }

    /** `pushState` and `replaceState` after the address moved, and the `popstate` and `hashchange` listeners. */
    method PageMoved(newLocation: Location, replace: bool, time: int)
      modifies this
      ensures View() == Step(old(View()), Event.PageMoved(newLocation, replace), time)
    {
      location := newLocation;
      if installed {
        OnLocationChanged(replace, time);
      }
    }

    method OnTimer(time: int)
      modifies this
      ensures View() == Step(old(View()), TimerCallback, time)
    {
      if deferTimer.None? || time < deferTimer.value {
        return;
      }
      deferTimer := None;
      var next := deferred;
      deferred := None;
      if next.Some? {
        PostReport(next.value, time);
      }
    }

    method NavigateTo(path: Text, time: int)
      modifies this
      ensures View() == Step(old(View()), HostNavigates(path), time)
    {
      hide LocationToNavPath, Canonical;
      var target := Canonical(path);
      if target.None? {
        return;
      }
      lastPath := target;
      shownByHost := target;
      if customNavigate || LocationToNavPath(location, mode) == target {
        return;
      }
      location := Moved(location, mode, target.value);
      if installed {
        OnLocationChanged(true, time);
        if mode.HashRouting? {
          OnLocationChanged(true, time);
        }
      }
    }

    method ConnectTo(hostPath: Text, time: int)
      modifies this
      ensures View() == Step(old(View()), HostConnects(hostPath), time)
    {
      hide LocationToNavPath, Canonical;
      connected := true;
      var pending := queued;
      queued := None;
      var shown := Shown(hostPath);
      if Some(shown) != initialPath {
        NavigateTo(shown, time);
        return;
      }
      lastPath := Some(shown);
      shownByHost := Some(shown);
      var current := LocationToNavPath(location, mode);
      if current.Some? && current != Some(shown) {
        lastPath := current;
        var catchUp := NavReport(current.value, if pending.Some? then pending.value.replace else true);
        changes := changes + [catchUp];
        PostReport(catchUp, time);
      }
    }

    method Close()
      modifies this
      ensures View() == Step(old(View()), Uninstalls, 0)
    {
      installed := false;
      deferTimer := None;
      connected := false;
    }
  }
}
