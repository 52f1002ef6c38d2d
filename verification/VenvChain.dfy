/**
 * Shared virtual environments: any number of runs create, fill and use the environments of their library sets.
 *
 * A run is cut at its awaits into steps, which interleave freely. An environment is named by the hash of its library
 * set; two sets have the same hash only if they are equal, so here the set itself is the name.
 */
module VenvChain {
  import opened Options

  type Libraries = set<string>

  const BASE_LIBRARIES: Libraries :=
    {"/app/src/shared/dotdict", "/app/src/shared/epicstaff_secrets", "/app/src/shared/epicstaff_common"}
  const STORAGE_LIBRARY := "/app/src/shared/epicstaff_storage"

  /** The libraries a run gets: those it asks for and the predefined ones. */
  function LibrarySet(requested: seq<string>, useStorage: bool): Libraries {
    (set l | l in requested) + BASE_LIBRARIES + if useStorage then {STORAGE_LIBRARY} else {}
  }

  /** An environment's directory, the libraries pip has in it, and the content of its `libhash` file. */
  datatype Venv = Venv(made: bool, installed: Libraries, libhash: Option<Libraries>)

  /** Where a run stands. From `Creating` to `Installing`, but for `WaitInstall`, it is inside the lock. */
  datatype Phase =
    | Hashing
    | WaitCreate
    | Creating
    | WaitInstall
    | Upgrading
    | Freezing
    | Uninstalling(packages: nat)
    | Installing(todo: Libraries)
    | Executing
    | Finished

  datatype Run = Run(libraries: Libraries, phase: Phase)

  type Lock = nat

  /** The lock registry, who holds which lock, the environments on disk, and the runs. */
  datatype State = State(registry: map<Libraries, Lock>, holders: map<Lock, int>,
                         venvs: map<Libraries, Venv>, runs: map<int, Run>)

  const START := State(map[], map[], map[], map[])

  const NO_VENV := Venv(false, {}, None)

  // ---------------------------------------------------------------- the steps

  function VenvOf(s: State, k: Libraries): Venv { if k in s.venvs then s.venvs[k] else NO_VENV }

  /** The run inside the lock of an environment. */
  function HolderOf(s: State, k: Libraries): Option<int> {
    if k in s.registry && s.registry[k] in s.holders then Some(s.holders[s.registry[k]]) else None
  }

  function Move(s: State, r: int, phase: Phase): State
    requires r in s.runs
  {
    s.(runs := s.runs[r := s.runs[r].(phase := phase)])
  }

  function SetVenv(s: State, k: Libraries, v: Venv): State { s.(venvs := s.venvs[k := v]) }

  function Acquire(s: State, k: Libraries, r: int): State
    requires k in s.registry
  {
    s.(holders := s.holders[s.registry[k] := r])
  }

  function Release(s: State, k: Libraries): State
    requires k in s.registry
  {
    s.(holders := s.holders - {s.registry[k]})
  }

  /** Leaves the lock for `phase`. */
  function Leave(s: State, r: int, phase: Phase): State
    requires r in s.runs
  {
    var k := s.runs[r].libraries;
    if k in s.registry then Move(Release(s, k), r, phase) else s
  }

  /** Whether the install stage must install: there is no `libhash`, or it names another set. */
  predicate HashChanged(v: Venv, k: Libraries) { v.libhash != Some(k) }

  datatype Event =
    | Begins(requested: seq<string>, useStorage: bool)
    | HashReady
    | GetsCreateLock
    | VenvMade(made: bool)
    | GetsInstallLock
    | PipUpgraded(ok: bool)
    | PipFroze(ok: bool, packages: nat)
    // `lost`: what the environment lost by it.
    | PackageUninstalled(ok: bool, lost: Libraries)
    // `written`: if this was the last library, whether `libhash` could be written.
    | LibraryInstalled(library: string, ok: bool, lost: Libraries, written: bool)
    | CodeFinished
    // An exception, wherever the run stands.
    | Fails

  function Begin(s: State, r: int, requested: seq<string>, useStorage: bool): State {
    if r in s.runs then s else s.(runs := s.runs[r := Run(LibrarySet(requested, useStorage), Hashing)])
  }

  /** `_get_venv_lock`: one lock per environment, made when first asked for. */
  function WithLock(s: State, k: Libraries): State {
    if k in s.registry then s else s.(registry := s.registry[k := |s.registry|])
  }

  predicate InsideLock(phase: Phase) {
    phase.Creating? || phase.Upgrading? || phase.Freezing? || phase.Uninstalling? || phase.Installing?
  }

  /** The whole library list is installed: `libhash` is written and the lock left. */
  function InstallDone(s: State, r: int, written: bool): State
    requires r in s.runs
  {
    var k := s.runs[r].libraries;
    var v := VenvOf(s, k);
    if written then Leave(SetVenv(s, k, v.(libhash := Some(k))), r, Executing)
    else Leave(SetVenv(s, k, v.(libhash := None)), r, Finished)
  }

  function InstallFrom(s: State, r: int, todo: Libraries, written: bool): State
    requires r in s.runs
  {
    if todo == {} then InstallDone(s, r, written) else Move(s, r, Installing(todo))
  }

  function UninstallFrom(s: State, r: int, packages: nat): State
    requires r in s.runs
  {
    if packages == 0 then Move(s, r, Installing(s.runs[r].libraries)) else Move(s, r, Uninstalling(packages))
  }

  function CreateStep(s: State, r: int, e: Event): State
    requires r in s.runs
  {
    var Run(k, phase) := s.runs[r];
    var v := VenvOf(s, k);
    match e
    case HashReady => if phase.Hashing? then Move(WithLock(s, k), r, WaitCreate) else s
    case GetsCreateLock =>
      if !(phase.WaitCreate? && k in s.registry && HolderOf(s, k).None?) then s
      else if v.made then Leave(Acquire(s, k, r), r, WaitInstall)
      else Move(Acquire(s, k, r), r, Creating)
    // The exit code is not looked at: the install stage finds out.
    case VenvMade(made) =>
      if phase.Creating? then Leave(SetVenv(s, k, v.(made := v.made || made)), r, WaitInstall) else s
    case _ => s
  }

  function InstallStep(s: State, r: int, e: Event): State
    requires r in s.runs
  {
    var Run(k, phase) := s.runs[r];
    var v := VenvOf(s, k);
    match e
    case GetsInstallLock =>
      if !(phase.WaitInstall? && k in s.registry && HolderOf(s, k).None?) then s
      else if HashChanged(v, k) then Move(Acquire(s, k, r), r, Upgrading)
      else Leave(Acquire(s, k, r), r, Executing)
    // Without an environment there is no pip to run.
    case PipUpgraded(ok) =>
      if !phase.Upgrading? then s else if ok && v.made then Move(s, r, Freezing) else Leave(s, r, Finished)
    case PipFroze(ok, packages) =>
      if !phase.Freezing? then s else if ok then UninstallFrom(s, r, packages) else Leave(s, r, Finished)
    case PackageUninstalled(ok, lost) =>
      if !(phase.Uninstalling? && phase.packages > 0) then s
      else
        var after := SetVenv(s, k, v.(installed := v.installed - lost));
        if ok then UninstallFrom(after, r, phase.packages - 1) else Leave(after, r, Finished)
    case LibraryInstalled(library, ok, lost, written) =>
      if !(phase.Installing? && library in phase.todo) then s
      else if ok then
        InstallFrom(SetVenv(s, k, v.(installed := v.installed + {library})), r, phase.todo - {library}, written)
      else Leave(SetVenv(s, k, v.(installed := v.installed - lost)), r, Finished)
    case _ => s
  }

  function EndStep(s: State, r: int, e: Event): State
    requires r in s.runs
  {
    var phase := s.runs[r].phase;
    match e
    case CodeFinished => if phase.Executing? then Move(s, r, Finished) else s
    case Fails => if InsideLock(phase) then Leave(s, r, Finished) else Move(s, r, Finished)
    case _ => s
  }

  /** One step of run `r`; a step that is not its next one does nothing. */
  function Step(s: State, r: int, e: Event): State {
    if e.Begins? then Begin(s, r, e.requested, e.useStorage)
    else if r !in s.runs then s
    else if e.HashReady? || e.GetsCreateLock? || e.VenvMade? then CreateStep(s, r, e)
    else if e.CodeFinished? || e.Fails? then EndStep(s, r, e)
    else InstallStep(s, r, e)
  }

  datatype Taken = Taken(run: int, event: Event)

  function Steps(s: State, taken: seq<Taken>): State {
    if taken == [] then s else Step(Steps(s, taken[..|taken| - 1]), taken[|taken| - 1].run, taken[|taken| - 1].event)
  }

  // ---------------------------------------------------------------- the invariant

  /** Exactly the environment's library set is installed, and `libhash` says so. */
  predicate Complete(v: Venv, k: Libraries) { v.made && v.installed == k && v.libhash == Some(k) }

  /** What is installed belongs there, and `libhash` is only written when all of it is. */
  predicate VenvOk(v: Venv, k: Libraries) { v.installed <= k && (v.libhash.Some? ==> Complete(v, k)) }

  /** What a run's phase says about its environment. */
  predicate PhaseOk(phase: Phase, v: Venv, k: Libraries) {
    match phase
    case Upgrading => HashChanged(v, k)
    case Freezing => v.made && HashChanged(v, k)
    case Uninstalling(packages) => v.made && HashChanged(v, k) && packages > 0
    case Installing(todo) => v.made && HashChanged(v, k) && todo != {} && todo <= k && k <= v.installed + todo
    case Executing => Complete(v, k)
    case _ => true
  }

  predicate RunOk(s: State, r: int, run: Run) {
    && BASE_LIBRARIES <= run.libraries
    && PhaseOk(run.phase, VenvOf(s, run.libraries), run.libraries)
    && (!run.phase.Hashing? && !run.phase.Finished? ==> run.libraries in s.registry)
    && (InsideLock(run.phase) <==> HolderOf(s, run.libraries) == Some(r))
  }

  predicate LocksOk(s: State) {
    && (forall k :: k in s.registry ==> s.registry[k] < |s.registry|)
    && (forall k, m :: k in s.registry && m in s.registry && s.registry[k] == s.registry[m] ==> k == m)
    && (forall l :: l in s.holders ==> l < |s.registry|)
  }

  /** The run inside a lock exists, and it is this environment's. */
  predicate HolderOk(s: State, k: Libraries) {
    var h := HolderOf(s, k);
    h.Some? ==> h.value in s.runs && s.runs[h.value].libraries == k
  }

  ghost predicate Inv(s: State) {
    && LocksOk(s)
    && (forall k :: HolderOk(s, k))
    && (forall k :: VenvOk(VenvOf(s, k), k))
    && (forall r :: r in s.runs ==> RunOk(s, r, s.runs[r]))
  }

  // ---------------------------------------------------------------- every step keeps it

  /** Run `r` in a new phase, its environment changed, and inside its lock exactly if the phase says so. */
  ghost predicate Local(s: State, t: State, r: int, phase: Phase, v: Venv)
    requires r in s.runs
  {
    var k := s.runs[r].libraries;
    && t.registry == s.registry
    && (forall m :: m != k ==> HolderOf(t, m) == HolderOf(s, m))
    && HolderOf(t, k) == (if InsideLock(phase) then Some(r)
                          else if HolderOf(s, k) == Some(r) then None
                          else HolderOf(s, k))
    && (forall l :: l in t.holders ==> l < |t.registry|)
    && VenvOf(t, k) == v
    && (forall m :: m != k ==> VenvOf(t, m) == VenvOf(s, m))
    && t.runs == s.runs[r := Run(k, phase)]
  }

  /**
   * A run may change its environment only inside the lock, and only while it is not complete; making it changes nothing
   * else.
   */
  predicate MayChange(s: State, r: int, v: Venv)
    requires r in s.runs
  {
    var current := VenvOf(s, s.runs[r].libraries);
    || v == current || v == current.(made := true)
    || (InsideLock(s.runs[r].phase) && HashChanged(current, s.runs[r].libraries))
  }

  /** The environment is free for `r` to enter, or `r` is in it. */
  predicate MayEnter(s: State, r: int)
    requires r in s.runs
  {
    var h := HolderOf(s, s.runs[r].libraries);
    h.None? || h == Some(r)
  }

  /** The invariant still holds, and every complete environment is as it was. */
  ghost predicate Keeps(s: State, t: State) {
    Inv(t) && forall k :: Complete(VenvOf(s, k), k) ==> VenvOf(t, k) == VenvOf(s, k)
  }

  lemma OthersKeep(s: State, t: State, r: int, phase: Phase, v: Venv, q: int)
    requires Inv(s) && r in s.runs && Local(s, t, r, phase, v) && MayChange(s, r, v)
    requires InsideLock(phase) ==> MayEnter(s, r)
    requires q in s.runs && q != r
    ensures RunOk(t, q, t.runs[q])
  {
    hide LocksOk, HolderOk, HolderOf, VenvOf;
    assert t.runs[q] == s.runs[q];
    assert RunOk(s, q, s.runs[q]) && RunOk(s, r, s.runs[r]);
  }

  /** A local change keeps the invariant if it respects the lock and fits the new phase. */
  lemma LocalKeeps(s: State, t: State, r: int, phase: Phase, v: Venv)
    requires Inv(s) && r in s.runs && Local(s, t, r, phase, v) && MayChange(s, r, v)
    requires phase.Finished? || (!phase.Hashing? && s.runs[r].libraries in s.registry)
    requires InsideLock(phase) ==> MayEnter(s, r)
    requires VenvOk(v, s.runs[r].libraries) && PhaseOk(phase, v, s.runs[r].libraries)
    ensures Keeps(s, t)
  {
    forall q | q in t.runs ensures RunOk(t, q, t.runs[q]) {
      if q != r {
        OthersKeep(s, t, r, phase, v, q);
      }
    }
    hide RunOk, VenvOk, PhaseOk, VenvOf;
    forall k ensures HolderOk(t, k) {
      assert HolderOk(s, k);
    }
  }

  lemma MovesLocally(s: State, r: int, phase: Phase)
    requires LocksOk(s) && r in s.runs
    requires InsideLock(phase) <==> HolderOf(s, s.runs[r].libraries) == Some(r)
    ensures Local(s, Move(s, r, phase), r, phase, VenvOf(s, s.runs[r].libraries))
  {
  }

  lemma EntersLocally(s: State, r: int, phase: Phase)
    requires LocksOk(s) && r in s.runs && s.runs[r].libraries in s.registry && InsideLock(phase)
    ensures Local(s, Move(Acquire(s, s.runs[r].libraries, r), r, phase), r, phase, VenvOf(s, s.runs[r].libraries))
  {
    var k := s.runs[r].libraries;
    var t := Move(Acquire(s, k, r), r, phase);
    forall m | m != k ensures HolderOf(t, m) == HolderOf(s, m) {
      assert m in s.registry ==> s.registry[m] != s.registry[k];
    }
  }

  lemma LeavesLocally(s: State, r: int, phase: Phase)
    requires LocksOk(s) && r in s.runs && s.runs[r].libraries in s.registry && !InsideLock(phase)
    requires HolderOf(s, s.runs[r].libraries) == Some(r)
    ensures Local(s, Leave(s, r, phase), r, phase, VenvOf(s, s.runs[r].libraries))
  {
    var k := s.runs[r].libraries;
    var t := Leave(s, r, phase);
    forall m | m != k ensures HolderOf(t, m) == HolderOf(s, m) {
      assert m in s.registry ==> s.registry[m] != s.registry[k];
    }
  }

  /** Finding nothing to do inside the lock, a run enters and leaves in one step. */
  lemma PassesLocally(s: State, r: int, phase: Phase)
    requires LocksOk(s) && r in s.runs && s.runs[r].libraries in s.registry && !InsideLock(phase)
    requires HolderOf(s, s.runs[r].libraries).None?
    ensures Local(s, Leave(Acquire(s, s.runs[r].libraries, r), r, phase), r, phase, VenvOf(s, s.runs[r].libraries))
  {
    var k := s.runs[r].libraries;
    var t := Leave(Acquire(s, k, r), r, phase);
    forall m | m != k ensures HolderOf(t, m) == HolderOf(s, m) {
      assert m in s.registry ==> s.registry[m] != s.registry[k];
    }
  }

  /** Changing the environment first and then moving is one local change. */
  lemma ChangesLocally(s: State, t: State, r: int, phase: Phase, v: Venv)
    requires r in s.runs && Local(SetVenv(s, s.runs[r].libraries, v), t, r, phase, v)
    ensures Local(s, t, r, phase, v)
  {
  }

  lemma MoveKeeps(s: State, r: int, phase: Phase, v: Venv)
    requires Inv(s) && r in s.runs && InsideLock(s.runs[r].phase) && InsideLock(phase) && MayChange(s, r, v)
    requires VenvOk(v, s.runs[r].libraries) && PhaseOk(phase, v, s.runs[r].libraries)
    ensures Keeps(s, Move(SetVenv(s, s.runs[r].libraries, v), r, phase))
    ensures v == VenvOf(s, s.runs[r].libraries) ==> Keeps(s, Move(s, r, phase))
  {
    hide VenvOk, PhaseOk, MayChange;
    var after := SetVenv(s, s.runs[r].libraries, v);
    MovesLocally(after, r, phase);
    ChangesLocally(s, Move(after, r, phase), r, phase, v);
    MovesLocally(s, r, phase);
    hide Local, HolderOk, Keeps;
    LocalKeeps(s, Move(after, r, phase), r, phase, v);
    if v == VenvOf(s, s.runs[r].libraries) {
      LocalKeeps(s, Move(s, r, phase), r, phase, v);
    }
  }

  lemma LeaveKeeps(s: State, r: int, phase: Phase, v: Venv)
    requires Inv(s) && r in s.runs && InsideLock(s.runs[r].phase) && !InsideLock(phase) && MayChange(s, r, v)
    requires !phase.Hashing? && VenvOk(v, s.runs[r].libraries) && PhaseOk(phase, v, s.runs[r].libraries)
    ensures Keeps(s, Leave(SetVenv(s, s.runs[r].libraries, v), r, phase))
    ensures v == VenvOf(s, s.runs[r].libraries) ==> Keeps(s, Leave(s, r, phase))
  {
    hide VenvOk, PhaseOk, MayChange;
    var after := SetVenv(s, s.runs[r].libraries, v);
    LeavesLocally(after, r, phase);
    ChangesLocally(s, Leave(after, r, phase), r, phase, v);
    LeavesLocally(s, r, phase);
    hide Local, HolderOk, Keeps;
    LocalKeeps(s, Leave(after, r, phase), r, phase, v);
    if v == VenvOf(s, s.runs[r].libraries) {
      LocalKeeps(s, Leave(s, r, phase), r, phase, v);
    }
  }

  lemma SameKeeps(s: State)
    requires Inv(s)
    ensures Keeps(s, s)
  {
  }

  lemma WithLockGrows(s: State, k: Libraries)
    requires k !in s.registry
    ensures |WithLock(s, k).registry| == |s.registry| + 1
  {
    assert WithLock(s, k).registry.Keys == s.registry.Keys + {k};
    assert |s.registry.Keys| == |s.registry|;
    assert |WithLock(s, k).registry.Keys| == |WithLock(s, k).registry|;
  }

  /** Nothing is known about locks and environments but what was known. */
  ghost predicate SameWorld(s: State, t: State) {
    && (forall k :: k in s.registry ==> k in t.registry)
    && (forall k :: HolderOf(t, k) == HolderOf(s, k) && VenvOf(t, k) == VenvOf(s, k))
  }

  predicate RunsStay(s: State, t: State) { forall q :: q in s.runs ==> q in t.runs && t.runs[q] == s.runs[q] }

  lemma RunStays(s: State, t: State, q: int)
    requires RunsStay(s, t) && q in s.runs
    ensures q in t.runs && t.runs[q] == s.runs[q]
  {
  }

  lemma HolderStays(s: State, t: State, k: Libraries)
    requires HolderOk(s, k) && RunsStay(s, t) && HolderOf(t, k) == HolderOf(s, k)
    ensures HolderOk(t, k)
  {
    hide HolderOf, RunsStay;
    var h := HolderOf(s, k);
    if h.Some? {
      RunStays(s, t, h.value);
    }
  }

  lemma SameWorldKeeps(s: State, t: State)
    requires Inv(s) && LocksOk(t) && SameWorld(s, t)
    requires RunsStay(s, t) && OthersNew(s, t)
    ensures Keeps(s, t)
  {
    hide HolderOf, VenvOf, LocksOk, VenvOk, PhaseOk, Complete;
    forall k ensures HolderOk(t, k) && VenvOk(VenvOf(t, k), k) {
      assert HolderOf(t, k) == HolderOf(s, k) && VenvOf(t, k) == VenvOf(s, k);
      assert HolderOk(s, k) && VenvOk(VenvOf(s, k), k);
      HolderStays(s, t, k);
    }
    forall q | q in t.runs ensures RunOk(t, q, t.runs[q]) {
      if q in s.runs {
        assert RunOk(s, q, s.runs[q]);
      } else {
        assert HolderOk(s, t.runs[q].libraries);
        HashingOk(VenvOf(t, t.runs[q].libraries), t.runs[q].libraries);
      }
    }
  }

  lemma HashingOk(v: Venv, k: Libraries)
    ensures PhaseOk(Hashing, v, k)
  {
  }

  /** The runs of `t` that are not in `s` have just begun. */
  predicate OthersNew(s: State, t: State) {
    forall q :: q in t.runs && q !in s.runs ==> t.runs[q].phase.Hashing? && BASE_LIBRARIES <= t.runs[q].libraries
  }

  /** A new lock is nobody's. */
  lemma WithLockWorld(s: State, k: Libraries)
    requires LocksOk(s)
    ensures var t := WithLock(s, k); LocksOk(t) && SameWorld(s, t) && RunsStay(s, t) && OthersNew(s, t)
  {
    if k !in s.registry {
      WithLockGrows(s, k);
      var t := WithLock(s, k);
      forall m ensures HolderOf(t, m) == HolderOf(s, m) && VenvOf(t, m) == VenvOf(s, m) {
      }
      hide HolderOf, VenvOf;
    }
  }

  lemma WithLockKeeps(s: State, k: Libraries)
    requires Inv(s)
    ensures Keeps(s, WithLock(s, k)) && SameWorld(s, WithLock(s, k))
  {
    hide RunOk, HolderOk, VenvOk, LocksOk, SameWorld, RunsStay, OthersNew, WithLock, Keeps;
    WithLockWorld(s, k);
    SameWorldKeeps(s, WithLock(s, k));
  }

  lemma BeginWorld(s: State, r: int, requested: seq<string>, useStorage: bool)
    requires LocksOk(s)
    ensures var t := Begin(s, r, requested, useStorage);
            LocksOk(t) && SameWorld(s, t) && RunsStay(s, t) && OthersNew(s, t)
  {
    hide LibrarySet, InsideLock;
    BaseIncluded(requested, useStorage);
    var t := Begin(s, r, requested, useStorage);
    assert t.registry == s.registry && t.holders == s.holders && t.venvs == s.venvs;
  }

  lemma BaseIncluded(requested: seq<string>, useStorage: bool)
    ensures BASE_LIBRARIES <= LibrarySet(requested, useStorage)
  {
  }

  lemma BeginKeeps(s: State, r: int, requested: seq<string>, useStorage: bool)
    requires Inv(s)
    ensures Keeps(s, Begin(s, r, requested, useStorage))
  {
    hide RunOk, HolderOk, VenvOk, LocksOk, SameWorld, RunsStay, OthersNew, Begin, Keeps;
    BeginWorld(s, r, requested, useStorage);
    SameWorldKeeps(s, Begin(s, r, requested, useStorage));
  }

  lemma HashReadyKeeps(s: State, r: int)
    requires Inv(s) && r in s.runs
    ensures Keeps(s, CreateStep(s, r, HashReady))
  {
    if s.runs[r].phase.Hashing? {
      var k := s.runs[r].libraries;
      var t := WithLock(s, k);
      WithLockKeeps(s, k);
      assert RunOk(t, r, t.runs[r]) && VenvOk(VenvOf(t, k), k);
      MovesLocally(t, r, WaitCreate);
      hide HolderOf, VenvOf, Local;
      LocalKeeps(t, Move(t, r, WaitCreate), r, WaitCreate, VenvOf(t, k));
    } else {
      SameKeeps(s);
    }
  }

  lemma CreateLockKeeps(s: State, r: int)
    requires Inv(s) && r in s.runs
    ensures Keeps(s, CreateStep(s, r, GetsCreateLock))
  {
    var k := s.runs[r].libraries;
    var v := VenvOf(s, k);
    assert RunOk(s, r, s.runs[r]) && VenvOk(v, k);
    hide VenvOf, HolderOk, Keeps, Local;
    if s.runs[r].phase.WaitCreate? && HolderOf(s, k).None? {
      if v.made {
        PassesLocally(s, r, WaitInstall);
        LocalKeeps(s, Leave(Acquire(s, k, r), r, WaitInstall), r, WaitInstall, v);
      } else {
        EntersLocally(s, r, Creating);
        LocalKeeps(s, Move(Acquire(s, k, r), r, Creating), r, Creating, v);
      }
    } else {
      SameKeeps(s);
    }
  }

  lemma InstallLockKeeps(s: State, r: int)
    requires Inv(s) && r in s.runs
    ensures Keeps(s, InstallStep(s, r, GetsInstallLock))
  {
    var k := s.runs[r].libraries;
    var v := VenvOf(s, k);
    assert RunOk(s, r, s.runs[r]) && VenvOk(v, k);
    hide VenvOf, HolderOk, Keeps, Local;
    if s.runs[r].phase.WaitInstall? && HolderOf(s, k).None? {
      if HashChanged(v, k) {
        EntersLocally(s, r, Upgrading);
        LocalKeeps(s, Move(Acquire(s, k, r), r, Upgrading), r, Upgrading, v);
      } else {
        PassesLocally(s, r, Executing);
        LocalKeeps(s, Leave(Acquire(s, k, r), r, Executing), r, Executing, v);
      }
    } else {
      SameKeeps(s);
    }
  }

  lemma UninstallFromKeeps(s: State, r: int, packages: nat, v: Venv)
    requires Inv(s) && r in s.runs && (s.runs[r].phase.Freezing? || s.runs[r].phase.Uninstalling?)
    requires VenvOk(v, s.runs[r].libraries) && v.made && HashChanged(v, s.runs[r].libraries)
    requires HashChanged(VenvOf(s, s.runs[r].libraries), s.runs[r].libraries)
    ensures Keeps(s, UninstallFrom(SetVenv(s, s.runs[r].libraries, v), r, packages))
    ensures v == VenvOf(s, s.runs[r].libraries) ==> Keeps(s, UninstallFrom(s, r, packages))
  {
    hide VenvOf, HolderOf, HolderOk, Keeps, VenvOk;
    assert BASE_LIBRARIES <= s.runs[r].libraries by { assert RunOk(s, r, s.runs[r]); }
    MoveKeeps(s, r, if packages == 0 then Installing(s.runs[r].libraries) else Uninstalling(packages), v);
  }

  lemma UpgradedKeeps(s: State, r: int, ok: bool)
    requires Inv(s) && r in s.runs
    ensures Keeps(s, InstallStep(s, r, PipUpgraded(ok)))
  {
    hide VenvOf, HolderOf, HolderOk, Keeps;
    var v := VenvOf(s, s.runs[r].libraries);
    assert RunOk(s, r, s.runs[r]);
    if !s.runs[r].phase.Upgrading? {
      SameKeeps(s);
    } else if ok && v.made {
      MoveKeeps(s, r, Freezing, v);
    } else {
      LeaveKeeps(s, r, Finished, v);
    }
  }

  lemma FrozeKeeps(s: State, r: int, ok: bool, packages: nat)
    requires Inv(s) && r in s.runs
    ensures Keeps(s, InstallStep(s, r, PipFroze(ok, packages)))
  {
    hide VenvOf, HolderOf, HolderOk, Keeps, UninstallFrom;
    var v := VenvOf(s, s.runs[r].libraries);
    assert RunOk(s, r, s.runs[r]);
    if !s.runs[r].phase.Freezing? {
      SameKeeps(s);
    } else if ok {
      UninstallFromKeeps(s, r, packages, v);
    } else {
      LeaveKeeps(s, r, Finished, v);
    }
  }

  lemma UninstalledKeeps(s: State, r: int, ok: bool, lost: Libraries)
    requires Inv(s) && r in s.runs
    ensures Keeps(s, InstallStep(s, r, PackageUninstalled(ok, lost)))
  {
    hide VenvOf, HolderOf, HolderOk, Keeps, UninstallFrom;
    var v := VenvOf(s, s.runs[r].libraries);
    var less := v.(installed := v.installed - lost);
    assert RunOk(s, r, s.runs[r]) && VenvOk(v, s.runs[r].libraries);
    if !s.runs[r].phase.Uninstalling? {
      SameKeeps(s);
    } else if ok {
      UninstallFromKeeps(s, r, s.runs[r].phase.packages - 1, less);
    } else {
      LeaveKeeps(s, r, Finished, less);
    }
  }

  lemma LibraryKeeps(s: State, r: int, library: string, ok: bool, lost: Libraries, written: bool)
    requires Inv(s) && r in s.runs
    ensures Keeps(s, InstallStep(s, r, LibraryInstalled(library, ok, lost, written)))
  {
    var k, phase := s.runs[r].libraries, s.runs[r].phase;
    var v := VenvOf(s, k);
    assert RunOk(s, r, s.runs[r]) && VenvOk(v, k);
    if !(phase.Installing? && library in phase.todo) {
      SameKeeps(s);
    } else if !ok {
      hide VenvOf, HolderOf, HolderOk, Keeps;
      LeaveKeeps(s, r, Finished, v.(installed := v.installed - lost));
    } else {
      var todo, more := phase.todo - {library}, v.(installed := v.installed + {library});
      if todo == {} {
        SetTwice(s, k, more, more.(libhash := if written then Some(k) else None));
        hide VenvOf, HolderOf, HolderOk, Keeps;
        LeaveKeeps(s, r, if written then Executing else Finished, more.(libhash := if written then Some(k) else None));
      } else {
        hide VenvOf, HolderOf, HolderOk, Keeps;
        MoveKeeps(s, r, Installing(todo), more);
      }
    }
  }

  lemma SetTwice(s: State, k: Libraries, v: Venv, w: Venv)
    ensures SetVenv(SetVenv(s, k, v), k, w) == SetVenv(s, k, w) && VenvOf(SetVenv(s, k, v), k) == v
  {
    assert s.venvs[k := v][k := w] == s.venvs[k := w];
  }

  lemma CreateStepKeeps(s: State, r: int, e: Event)
    requires Inv(s) && r in s.runs && (e.HashReady? || e.GetsCreateLock? || e.VenvMade?)
    ensures Keeps(s, CreateStep(s, r, e))
  {
    match e
    case HashReady => HashReadyKeeps(s, r);
    case GetsCreateLock => CreateLockKeeps(s, r);
    case VenvMade(made) =>
      var k := s.runs[r].libraries;
      var v := VenvOf(s, k);
      assert VenvOk(v, k);
      hide VenvOf, HolderOf, HolderOk, Keeps;
      if s.runs[r].phase.Creating? {
        LeaveKeeps(s, r, WaitInstall, v.(made := v.made || made));
      } else {
        SameKeeps(s);
      }
  }

  lemma InstallStepKeeps(s: State, r: int, e: Event)
    requires Inv(s) && r in s.runs
    ensures Keeps(s, InstallStep(s, r, e))
  {
    hide Inv, Keeps;
    match e
    case GetsInstallLock => InstallLockKeeps(s, r);
    case PipUpgraded(ok) => UpgradedKeeps(s, r, ok);
    case PipFroze(ok, packages) => FrozeKeeps(s, r, ok, packages);
    case PackageUninstalled(ok, lost) => UninstalledKeeps(s, r, ok, lost);
    case LibraryInstalled(library, ok, lost, written) => LibraryKeeps(s, r, library, ok, lost, written);
    case _ => SameKeeps(s);
  }

  lemma EndStepKeeps(s: State, r: int, e: Event)
    requires Inv(s) && r in s.runs
    ensures Keeps(s, EndStep(s, r, e))
  {
    var k, phase := s.runs[r].libraries, s.runs[r].phase;
    var v := VenvOf(s, k);
    assert RunOk(s, r, s.runs[r]) && VenvOk(v, k);
    SameKeeps(s);
    hide VenvOf, HolderOk, Keeps;
    if InsideLock(phase) {
      if e.Fails? {
        LeaveKeeps(s, r, Finished, v);
      }
    } else if e.CodeFinished? || e.Fails? {
      MovesLocally(s, r, Finished);
      hide Local, HolderOf;
      LocalKeeps(s, Move(s, r, Finished), r, Finished, v);
    }
  }

  /** Every step of every run keeps the invariant and leaves complete environments alone. */
  lemma StepKeeps(s: State, r: int, e: Event)
    requires Inv(s)
    ensures Keeps(s, Step(s, r, e))
  {
    hide Inv, Keeps, Begin, CreateStep, InstallStep, EndStep;
    if e.Begins? {
      BeginKeeps(s, r, e.requested, e.useStorage);
    } else if r !in s.runs {
      SameKeeps(s);
    } else if e.HashReady? || e.GetsCreateLock? || e.VenvMade? {
      CreateStepKeeps(s, r, e);
    } else if e.CodeFinished? || e.Fails? {
      EndStepKeeps(s, r, e);
    } else {
      InstallStepKeeps(s, r, e);
    }
  }

  // ---------------------------------------------------------------- the main results, over all interleavings

  lemma StartOk()
    ensures Inv(START)
  {
  }

  lemma {:induction false} StepsKeep(s: State, taken: seq<Taken>)
    requires Inv(s)
    ensures Keeps(s, Steps(s, taken))
  {
    if taken == [] {
      SameKeeps(s);
    } else {
      var before, last := Steps(s, taken[..|taken| - 1]), taken[|taken| - 1];
      StepsKeep(s, taken[..|taken| - 1]);
      StepKeeps(before, last.run, last.event);
      hide Inv, Complete, VenvOf, Step;
    }
  }

  /**
   * Once an environment's `libhash` is written, no step of any run installs into it, uninstalls from it or rewrites it.
   */
  lemma WrittenForGood(before: seq<Taken>, after: seq<Taken>, k: Libraries)
    requires VenvOf(Steps(START, before), k).libhash.Some?
    ensures Complete(VenvOf(Steps(START, before), k), k)
    ensures VenvOf(Steps(Steps(START, before), after), k) == VenvOf(Steps(START, before), k)
  {
    hide Steps;
    StepsKeep(START, before);
    var s := Steps(START, before);
    assert VenvOk(VenvOf(s, k), k);
    StepsKeep(s, after);
  }

  /** In every interleaving of any number of runs, code executes only where exactly its library set is installed. */
  lemma {:induction false} ExecutesComplete(taken: seq<Taken>, r: int)
    requires r in Steps(START, taken).runs && Steps(START, taken).runs[r].phase.Executing?
    ensures var s := Steps(START, taken);
            var v := VenvOf(s, s.runs[r].libraries);
            v.made && v.installed == s.runs[r].libraries && v.libhash == Some(s.runs[r].libraries)
  {
    hide Steps;
    StepsKeep(START, taken);
    var s := Steps(START, taken);
    assert RunOk(s, r, s.runs[r]);
  }

  /** Runs are never forgotten, and keep the libraries they began with. */
  predicate SameLibraries(s: State, t: State, q: int) {
    q in s.runs && q in t.runs && t.runs[q].libraries == s.runs[q].libraries
  }

  lemma InstallKeepsLibraries(s: State, r: int, e: Event, q: int)
    requires r in s.runs && q in s.runs
    ensures SameLibraries(s, InstallStep(s, r, e), q)
  {
    hide HolderOf, VenvOf;
  }

  lemma StepKeepsLibraries(s: State, r: int, e: Event, q: int)
    requires q in s.runs
    ensures SameLibraries(s, Step(s, r, e), q)
  {
    hide LibrarySet, HolderOf, VenvOf, InstallStep;
    if r in s.runs {
      InstallKeepsLibraries(s, r, e, q);
    }
  }

  lemma {:induction false} StepsKeepLibraries(s: State, taken: seq<Taken>, q: int)
    requires q in s.runs
    ensures SameLibraries(s, Steps(s, taken), q)
  {
    hide Step;
    if taken != [] {
      var last := taken[|taken| - 1];
      StepsKeepLibraries(s, taken[..|taken| - 1], q);
      StepKeepsLibraries(Steps(s, taken[..|taken| - 1]), last.run, last.event, q);
    }
  }

  /** Asked for, or one of the three every run gets, or the storage library if storage was asked for. */
  predicate Wanted(requested: seq<string>, useStorage: bool, library: string) {
    || library in requested
    || library == "/app/src/shared/dotdict"
    || library == "/app/src/shared/epicstaff_secrets"
    || library == "/app/src/shared/epicstaff_common"
    || (useStorage && library == "/app/src/shared/epicstaff_storage")
  }

  lemma LibrarySetIs(requested: seq<string>, useStorage: bool)
    ensures forall library :: library in LibrarySet(requested, useStorage) <==> Wanted(requested, useStorage, library)
  {
  }

  /**
   * A run executes, if it ever does, in an environment where a library is installed exactly if the run asked for it, or
   * it is predefined.
   */
  lemma {:induction false} ExecutesWhatItAskedFor(before: seq<Taken>, r: int, requested: seq<string>, useStorage: bool,
      after: seq<Taken>)
    requires r !in Steps(START, before).runs
    ensures var t := Steps(Step(Steps(START, before), r, Begins(requested, useStorage)), after);
            && r in t.runs
            && (t.runs[r].phase.Executing? ==>
                  var v := VenvOf(t, t.runs[r].libraries);
                  v.made && forall library :: library in v.installed <==> Wanted(requested, useStorage, library))
  {
    LibrarySetIs(requested, useStorage);
    hide Steps, VenvOf, LibrarySet, HolderOf, LocksOk, Wanted;
    StartOk();
    StepsKeep(START, before);
    var began := Step(Steps(START, before), r, Begins(requested, useStorage));
    StepKeeps(Steps(START, before), r, Begins(requested, useStorage));
    StepsKeep(began, after);
    StepsKeepLibraries(began, after, r);
    assert RunOk(Steps(began, after), r, Steps(began, after).runs[r]);
  }

  /** No two runs are inside the create or install stage of one environment. */
  lemma {:induction false} OneInside(taken: seq<Taken>, r: int, q: int)
    requires r in Steps(START, taken).runs && q in Steps(START, taken).runs
    requires var s := Steps(START, taken);
             && s.runs[r].libraries == s.runs[q].libraries
             && InsideLock(s.runs[r].phase) && InsideLock(s.runs[q].phase)
    ensures r == q
  {
    hide Steps;
    StepsKeep(START, taken);
    var s := Steps(START, taken);
    assert RunOk(s, r, s.runs[r]) && RunOk(s, q, s.runs[q]);
  }

  ghost predicate CanMove(s: State, r: int) { exists e: Event :: !e.Fails? && Step(s, r, e) != s }

  lemma Moves(s: State, r: int, e: Event)
    requires !e.Fails? && Step(s, r, e) != s
    ensures CanMove(s, r)
  {
  }

  lemma PhaseMoves(s: State, r: int, e: Event)
    requires !e.Fails? && r in s.runs && r in Step(s, r, e).runs && Step(s, r, e).runs[r].phase != s.runs[r].phase
    ensures CanMove(s, r)
  {
    hide Step;
    Moves(s, r, e);
  }

  /** A run that does not wait for a lock can take its next step, whatever the other runs do. */
  lemma InsideMoves(s: State, r: int)
    requires Inv(s) && r in s.runs
    requires var phase := s.runs[r].phase; !phase.WaitCreate? && !phase.WaitInstall? && !phase.Finished?
    ensures CanMove(s, r)
  {
    assert RunOk(s, r, s.runs[r]);
    hide CanMove, VenvOk, HolderOf, HolderOk, LocksOk;
    match s.runs[r].phase
    case Hashing => PhaseMoves(s, r, HashReady);
    case Creating => PhaseMoves(s, r, VenvMade(true));
    case Upgrading => PhaseMoves(s, r, PipUpgraded(true));
    case Freezing => PhaseMoves(s, r, PipFroze(true, 0));
    case Uninstalling(_) => PhaseMoves(s, r, PackageUninstalled(true, {}));
    case Installing(todo) =>
      var l :| l in todo;
      PhaseMoves(s, r, LibraryInstalled(l, false, {}, true));
    case Executing => PhaseMoves(s, r, CodeFinished);
  }

  lemma WaitingMoves(s: State, r: int)
    requires Inv(s) && r in s.runs && (s.runs[r].phase.WaitCreate? || s.runs[r].phase.WaitInstall?)
    requires HolderOf(s, s.runs[r].libraries).None?
    ensures CanMove(s, r)
  {
    assert RunOk(s, r, s.runs[r]);
    hide CanMove;
    Moves(s, r, if s.runs[r].phase.WaitCreate? then GetsCreateLock else GetsInstallLock);
  }

  /** No deadlock: every unfinished run can move, or waits for a run of the same environment that can. */
  lemma {:induction false} NoDeadlock(taken: seq<Taken>, r: int)
    requires r in Steps(START, taken).runs && !Steps(START, taken).runs[r].phase.Finished?
    ensures var s := Steps(START, taken);
            || CanMove(s, r)
            || (exists q :: q in s.runs && s.runs[q].libraries == s.runs[r].libraries
                            && InsideLock(s.runs[q].phase) && CanMove(s, q))
  {
    hide Steps, CanMove;
    StepsKeep(START, taken);
    var s := Steps(START, taken);
    var phase := s.runs[r].phase;
    if !phase.WaitCreate? && !phase.WaitInstall? {
      InsideMoves(s, r);
    } else {
      var h := HolderOf(s, s.runs[r].libraries);
      if h.None? {
        WaitingMoves(s, r);
      } else {
        assert HolderOk(s, s.runs[r].libraries) && RunOk(s, h.value, s.runs[h.value]);
        InsideMoves(s, h.value);
      }
    }
  }

  // ---------------------------------------------------------------- the handlers as an object

  /** The handlers of the chain, cut at their awaits, over the registry, the locks, the disk and the runs they share. */
  class Sandbox {
    var registry: map<Libraries, Lock>
    var holders: map<Lock, int>
    var venvs: map<Libraries, Venv>
    var runs: map<int, Run>

    ghost function View(): State
      reads this
    {
      State(registry, holders, venvs, runs)
    }

    constructor ()
      ensures View() == START
    {
      registry, holders, venvs, runs := map[], map[], map[], map[];
    }

    method GetVenvLock(k: Libraries) returns (lock: Lock)
      modifies this`registry
      ensures View() == WithLock(old(View()), k) && k in registry && lock == registry[k]
    {
      if k !in registry {
        registry := registry[k := |registry|];
      }
      lock := registry[k];
    }

    method ReadVenv(k: Libraries) returns (v: Venv)
      ensures v == VenvOf(View(), k)
    {
      v := if k in venvs then venvs[k] else NO_VENV;
    }

    method SetPhase(r: int, phase: Phase)
      requires r in runs
      modifies this`runs
      ensures View() == Move(old(View()), r, phase)
    {
      runs := runs[r := runs[r].(phase := phase)];
    }

    method LeaveLock(r: int, phase: Phase)
      requires r in runs
      modifies this`runs, this`holders
      ensures View() == Leave(old(View()), r, phase)
    {
      var k := runs[r].libraries;
      if k in registry {
        holders := holders - {registry[k]};
        SetPhase(r, phase);
      }
    }

    method BeginRun(r: int, requested: seq<string>, useStorage: bool)
      modifies this`runs
      ensures View() == Step(old(View()), r, Begins(requested, useStorage))
    {
      if r !in runs {
        var libraries := set l | l in requested;
        libraries := libraries + BASE_LIBRARIES;
        if useStorage {
          libraries := libraries + {STORAGE_LIBRARY};
        }
        assert libraries == LibrarySet(requested, useStorage);
        runs := runs[r := Run(libraries, Hashing)];
      }
    }

    method FinishHash(r: int)
      modifies this
      ensures View() == Step(old(View()), r, HashReady)
    {
      if r in runs && runs[r].phase.Hashing? {
        var _ := GetVenvLock(runs[r].libraries);
        SetPhase(r, WaitCreate);
      }
    }

    method EnterCreate(r: int)
      modifies this
      ensures View() == Step(old(View()), r, GetsCreateLock)
    {
      if r !in runs || !runs[r].phase.WaitCreate? {
        return;
      }
      var k := runs[r].libraries;
      if k !in registry || registry[k] in holders {
        return;
      }
      holders := holders[registry[k] := r];
      var v := ReadVenv(k);
      if v.made {
        LeaveLock(r, WaitInstall);
      } else {
        SetPhase(r, Creating);
      }
    }

    method FinishCreate(r: int, made: bool)
      modifies this
      ensures View() == Step(old(View()), r, VenvMade(made))
    {
      if r in runs && runs[r].phase.Creating? {
        var k := runs[r].libraries;
        var v := ReadVenv(k);
        venvs := venvs[k := v.(made := v.made || made)];
        LeaveLock(r, WaitInstall);
      }
    }

    method EnterInstall(r: int)
      modifies this
      ensures View() == Step(old(View()), r, GetsInstallLock)
    {
      if r !in runs || !runs[r].phase.WaitInstall? {
        return;
      }
      var k := runs[r].libraries;
      if k !in registry || registry[k] in holders {
        return;
      }
      holders := holders[registry[k] := r];
      var v := ReadVenv(k);
      if HashChanged(v, k) {
        SetPhase(r, Upgrading);
      } else {
        LeaveLock(r, Executing);
      }
    }

    method FinishUpgrade(r: int, ok: bool)
      modifies this
      ensures View() == Step(old(View()), r, PipUpgraded(ok))
    {
      if r in runs && runs[r].phase.Upgrading? {
        var v := ReadVenv(runs[r].libraries);
        if ok && v.made {
          SetPhase(r, Freezing);
        } else {
          LeaveLock(r, Finished);
        }
      }
    }

    /** The next package to uninstall, or the first library to install. */
    method NextPackage(r: int, packages: nat)
      requires r in runs
      modifies this`runs
      ensures View() == UninstallFrom(old(View()), r, packages)
    {
      if packages == 0 {
        SetPhase(r, Installing(runs[r].libraries));
      } else {
        SetPhase(r, Uninstalling(packages));
      }
    }

    method FinishFreeze(r: int, ok: bool, packages: nat)
      modifies this
      ensures View() == Step(old(View()), r, PipFroze(ok, packages))
    {
      if r in runs && runs[r].phase.Freezing? {
        if ok {
          NextPackage(r, packages);
        } else {
          LeaveLock(r, Finished);
        }
      }
    }

    method FinishUninstall(r: int, ok: bool, lost: Libraries)
      modifies this
      ensures View() == Step(old(View()), r, PackageUninstalled(ok, lost))
    {
      if r in runs && runs[r].phase.Uninstalling? && runs[r].phase.packages > 0 {
        var k := runs[r].libraries;
        var v := ReadVenv(k);
        venvs := venvs[k := v.(installed := v.installed - lost)];
        if ok {
          NextPackage(r, runs[r].phase.packages - 1);
        } else {
          LeaveLock(r, Finished);
        }
      }
    }

    method FinishInstall(r: int, library: string, ok: bool, lost: Libraries, written: bool)
      modifies this
      ensures View() == Step(old(View()), r, LibraryInstalled(library, ok, lost, written))
    {
      if r !in runs || !runs[r].phase.Installing? || library !in runs[r].phase.todo {
        return;
      }
      var k := runs[r].libraries;
      var v := ReadVenv(k);
      if !ok {
        venvs := venvs[k := v.(installed := v.installed - lost)];
        LeaveLock(r, Finished);
        return;
      }
      v := v.(installed := v.installed + {library});
      venvs := venvs[k := v];
      var todo := runs[r].phase.todo - {library};
      if todo != {} {
        SetPhase(r, Installing(todo));
      } else {
        venvs := venvs[k := v.(libhash := if written then Some(k) else None)];
        LeaveLock(r, if written then Executing else Finished);
      }
    }

    method FinishCode(r: int)
      modifies this
      ensures View() == Step(old(View()), r, CodeFinished)
    {
      if r in runs && runs[r].phase.Executing? {
        SetPhase(r, Finished);
      }
    }

    method Fail(r: int)
      modifies this
      ensures View() == Step(old(View()), r, Fails)
    {
      if r in runs {
        if InsideLock(runs[r].phase) {
          LeaveLock(r, Finished);
        } else {
          SetPhase(r, Finished);
        }
      }
    }
  }
}
