/**
 * Refresh-rate switching: the configuration state of a display
 * (src/Display.cpp) composed with its vsync worker.
 *
 * A configuration call holds the display's mutex while it calls into the
 * thread, whose mutex it takes only for that inner call. The machine therefore
 * splits a call in two atomic steps, and the worker may run between them. The
 * worker's applied-callback takes the display's mutex, so it waits for the
 * call to finish.
 */
module RefreshSwitch {
  import opened Basics
  import V = VsyncThread

  /** The inner call still to be made by the holder of the display's mutex. */
  datatype Call =
    | Idle
    | Immediate(period: int)
    | Deferred(newPeriod: int, applyTime: int, ticket: nat)

  datatype Display = Display(modes: seq<int>, active: nat, current: int, generation: nat)

  datatype State = State(display: Display, thread: V.State, call: Call)

  datatype Event =
    | SetActiveConfig(config: int)
    | SetConstrained(constrained: int, applyTime: int)
    | FinishCall
    | Thread(e: V.Event)

  function Start(modes: seq<int>, active: nat, clock: int): State
    requires active < |modes|
  {
    State(Display(modes, active, modes[active], 0), V.Start(modes[active], clock), Idle)
  }

  // Regions under the display's mutex.

  function Chosen(d: Display, config: nat): Display
    requires config < |d.modes|
  {
    d.(active := config, generation := d.generation + 1)
  }

  /** The outer half of SetActiveConfig: switch at once, then tell the thread. */
  function ImmediatePart(d: Display, config: nat): (Display, Call)
    requires config < |d.modes|
  {
    (Chosen(d, config).(current := d.modes[config]), Immediate(d.modes[config]))
  }

  /** The outer half of SetActiveConfigWithConstraints: the current period is kept. */
  function ConstrainedPart(d: Display, config: nat, applyTime: int): (Display, Call)
    requires config < |d.modes|
  {
    if d.current == d.modes[config] then ImmediatePart(d, config)
    else (Chosen(d, config), Deferred(d.modes[config], applyTime, d.generation + 1))
  }

  /** The applied-callback: a stale ticket is ignored. */
  function Applied(d: Display, ticket: nat, period: int): Display {
    if ticket == d.generation then d.(current := period) else d
  }

  /** The inner half of a call, as the thread sees it. */
  function Inner(c: Call): V.Event
    requires !c.Idle?
  {
    match c
    case Immediate(p) => V.Event.SetPeriod(p)
    case Deferred(p, t, g) => V.Event.SetPeriodAt(p, t, g)
  }

  predicate Possible(st: State, e: Event) {
    match e
    case SetActiveConfig(config) => st.call.Idle? && 0 <= config < |st.display.modes|
    case SetConstrained(config, _) => st.call.Idle? && 0 <= config < |st.display.modes|
    case FinishCall => !st.call.Idle?
    case Thread(t) =>
      && !t.SetPeriod? && !t.SetPeriodAt?
      && V.Possible(st.thread, t)
      && (t.RunApplied? && st.thread.worker.pc.ticket.Some? ==> st.call.Idle?)
  }

  function Act(st: State, e: Event): State
    requires Possible(st, e)
  {
    match e
    case SetActiveConfig(config) =>
      var (d, c) := ImmediatePart(st.display, config);
      st.(display := d, call := c)
    case SetConstrained(config, t) =>
      var (d, c) := ConstrainedPart(st.display, config, t);
      st.(display := d, call := c)
    case FinishCall =>
      st.(thread := V.Step(st.thread, Inner(st.call)), call := Idle)
    case Thread(t) =>
      var pc := st.thread.worker.pc;
      var d := if t.RunApplied? && pc.ticket.Some?
               then Applied(st.display, pc.ticket.value, pc.applied)
               else st.display;
      st.(display := d, thread := V.Step(st.thread, t))
  }

  function Step(st: State, e: Event): State {
    if Possible(st, e) then Act(st, e) else st
  }

  function Exec(st: State, es: seq<Event>): State {
    if es == [] then st else Step(Exec(st, es[..|es| - 1]), es[|es| - 1])
  }

  lemma ExecSnoc(st: State, es: seq<Event>, e: Event)
    ensures Exec(st, es + [e]) == Step(Exec(st, es), e)
  {
    assert (es + [e])[..|es|] == es;
  }

  lemma TwoSteps(st: State, e: Event, f: Event)
    ensures Exec(st, [e, f]) == Step(Step(st, e), f)
  {
    ExecSnoc(st, [], e);
    ExecSnoc(st, [e], f);
    assert [] + [e] == [e] && [e] + [f] == [e, f];
  }

  // Agreement.

  function Target(d: Display): int
    requires d.active < |d.modes|
  {
    d.modes[d.active]
  }

  /** A callback of the current configuration generation has been taken but not run. */
  predicate InFlight(st: State) {
    var pc := st.thread.worker.pc;
    pc.Applying? && pc.ticket == Some(st.display.generation)
  }

  ghost predicate Inv(st: State) {
    var State(d, t, c) := st;
    var s, pc := t.shared, t.worker.pc;
    && d.active < |d.modes|
    // tickets never come from the future, and an in-flight one is older than a pending one
    && (s.pending ==> s.callback.Some? && s.callback.value <= d.generation)
    && (pc.Applying? && pc.ticket.Some? ==> pc.ticket.value <= d.generation)
    && (s.pending && pc.Applying? && pc.ticket.Some? ==> pc.ticket.value < s.callback.value)
    && match c
       case Idle =>
         && (s.pending ==> s.callback == Some(d.generation) && s.pendingPeriod == Target(d) && d.current != Target(d))
         && (InFlight(st) ==> !s.pending && pc.applied == s.period == Target(d))
         && (!s.pending && !InFlight(st) ==> d.current == s.period == Target(d))
       case Immediate(p) =>
         && p == d.current == Target(d)
         && (s.pending ==> s.callback.value < d.generation)
         && !InFlight(st)
       case Deferred(p, _, g) =>
         && p == Target(d) && g == d.generation && d.current != p
         && (s.pending ==> s.callback.value < d.generation)
         && !InFlight(st)
  }

  lemma InvStep(st: State, e: Event)
    requires Inv(st)
    ensures Inv(Step(st, e))
  {}

  lemma {:induction false} InvExec(st: State, es: seq<Event>)
    requires Inv(st)
    ensures Inv(Exec(st, es))
  {
    if es != [] {
      InvExec(st, es[..|es| - 1]);
      InvStep(Exec(st, es[..|es| - 1]), es[|es| - 1]);
    }
  }

  /**
   * Agreement, whenever the display's mutex is free: with no change pending or
   * in flight, the reported period, the thread's period and the active mode are
   * one; otherwise the change under way leads to the active mode.
   */
  lemma Agreement(modes: seq<int>, active: nat, clock: int, es: seq<Event>)
    requires active < |modes|
    ensures
      var st := Exec(Start(modes, active, clock), es);
      var s := st.thread.shared;
      && st.display.active < |st.display.modes|
      && (st.call.Idle? ==>
            && (!s.pending && !InFlight(st) ==> st.display.current == s.period == Target(st.display))
            && (s.pending ==> !InFlight(st) && s.pendingPeriod == Target(st.display))
            && (InFlight(st) ==> st.thread.worker.pc.applied == s.period == Target(st.display)))
  {
    InvExec(Start(modes, active, clock), es);
  }

  // The thread's own guarantees hold inside the composition.

  /** What the thread does in a step of the composition. */
  function ThreadTurn(st: State, e: Event): seq<V.Event> {
    if !Possible(st, e) then []
    else match e
      case FinishCall => [Inner(st.call)]
      case Thread(t) => [t]
      case _ => []
  }

  /** The thread events of a run of the composition. */
  ghost function Project(st: State, es: seq<Event>): seq<V.Event> {
    if es == [] then []
    else Project(st, es[..|es| - 1]) + ThreadTurn(Exec(st, es[..|es| - 1]), es[|es| - 1])
  }

  ghost predicate ModesWithin(modes: seq<int>, lo: int, hi: int) {
    forall i :: 0 <= i < |modes| ==> lo <= modes[i] <= hi
  }

  lemma ThreadStep(st: State, e: Event, lo: int, hi: int)
    requires Inv(st) && ModesWithin(st.display.modes, lo, hi)
    ensures
      var turn := ThreadTurn(st, e);
      && |turn| <= 1
      && Step(st, e).thread == (if turn == [] then st.thread else V.Step(st.thread, turn[0]))
      && Step(st, e).display.modes == st.display.modes
      && V.PeriodsWithin(turn, lo, hi)
  {}

  lemma {:induction false} ThreadRun(st: State, es: seq<Event>, lo: int, hi: int)
    requires Inv(st) && ModesWithin(st.display.modes, lo, hi)
    ensures Exec(st, es).thread == V.Exec(st.thread, Project(st, es))
    ensures Exec(st, es).display.modes == st.display.modes
    ensures V.PeriodsWithin(Project(st, es), lo, hi)
  {
    if es != [] {
      var prefix, e := es[..|es| - 1], es[|es| - 1];
      ThreadRun(st, prefix, lo, hi);
      InvExec(st, prefix);
      ThreadStep(Exec(st, prefix), e, lo, hi);
      var run, turn := Project(st, prefix), ThreadTurn(Exec(st, prefix), e);
      if turn == [] {
        assert run + turn == run;
      } else {
        assert run + turn == run + [turn[0]];
        V.ExecSnoc(st.thread, run, turn[0]);
      }
    }
  }

  /** Under any switching among the modes, vsyncs stay within the rate of the fastest mode. */
  lemma DisplayRateBound(modes: seq<int>, active: nat, clock: int, es: seq<Event>, lo: int, hi: int, a: int, b: int)
    requires active < |modes| && 0 < lo <= hi && ModesWithin(modes, lo, hi) && a <= b
    ensures V.InWindow(Exec(Start(modes, active, clock), es).thread.history.log, a, b) <= (b - a + 2 * hi) / lo + 1
  {
    var st := Start(modes, active, clock);
    ThreadRun(st, es, lo, hi);
    V.RateBound(modes[active], clock, Project(st, es), lo, hi, a, b);
  }

  // What a call does.

  /** The display reports, and the thread runs at, the period of the mode asked for. */
  ghost predicate RunsAt(st: State, modes: seq<int>, config: nat)
    requires config < |modes|
  {
    && Inv(st) && st.call.Idle? && st.display.modes == modes && st.display.active == config
    && st.display.current == modes[config] == st.thread.shared.period
    && !st.thread.shared.pending
  }

  /** An immediate switch goes to the mode asked for, at once, and drops any change under way. */
  lemma ImmediateSwitch(st: State, config: nat)
    requires Inv(st) && st.call.Idle? && config < |st.display.modes|
    ensures RunsAt(Exec(st, [SetActiveConfig(config), FinishCall]), st.display.modes, config)
  {
    var es := [SetActiveConfig(config), FinishCall];
    TwoSteps(st, es[0], es[1]);
    InvExec(st, es);
  }

  /**
   * A constrained switch makes the mode asked for the active one. If it has the
   * period already reported it is immediate; otherwise the periods stay, and
   * that change alone is pending, for its time.
   */
  lemma ConstrainedSwitch(st: State, config: nat, applyTime: int)
    requires Inv(st) && st.call.Idle? && config < |st.display.modes|
    ensures
      var end := Exec(st, [SetConstrained(config, applyTime), FinishCall]);
      && Inv(end) && end.call.Idle? && end.display.modes == st.display.modes && end.display.active == config
      && (if st.display.current == st.display.modes[config] then RunsAt(end, st.display.modes, config)
          else
            && end.display.current == st.display.current
            && end.thread.shared.period == st.thread.shared.period
            && end.thread.shared.pending && end.thread.shared.pendingPeriod == st.display.modes[config]
            && end.thread.shared.pendingApply == applyTime)
  {
    var es := [SetConstrained(config, applyTime), FinishCall];
    TwoSteps(st, es[0], es[1]);
    InvExec(st, es);
  }

  lemma {:induction false} ActiveKept(st: State, es: seq<Event>)
    requires NoConfigCall(es)
    ensures Exec(st, es).display.active == st.display.active && Exec(st, es).display.modes == st.display.modes
  {
    if es != [] { ActiveKept(st, es[..|es| - 1]); }
  }

  // Deferred changes.

  ghost predicate NoConfigCall(es: seq<Event>) {
    forall i :: 0 <= i < |es| ==> !es[i].SetActiveConfig? && !es[i].SetConstrained?
  }

  /** A deferred change is still under way, and has not started before its time. */
  ghost predicate Awaiting(st: State, due: int, kept: int) {
    && st.call.Idle?
    && st.display.current == kept
    && if st.thread.shared.pending then st.thread.shared.pendingApply == due
       else InFlight(st) && due <= st.thread.history.clock
  }

  /** The reported period is the old one until the change has been applied, never before its time. */
  lemma {:induction false} OldPeriodUntilDue(st: State, es: seq<Event>, due: int)
    requires Inv(st) && Awaiting(st, due, st.display.current) && NoConfigCall(es)
    ensures
      var end := Exec(st, es);
      && end.display.active == st.display.active < |st.display.modes|
      && end.display.modes == st.display.modes
      && (Awaiting(end, due, st.display.current)
          || (due <= end.thread.history.clock && end.call.Idle?
              && end.display.current == Target(st.display)))
  {
    InvExec(st, es);
    if es != [] {
      var prefix := es[..|es| - 1];
      assert NoConfigCall(prefix);
      OldPeriodUntilDue(st, prefix, due);
      InvExec(st, prefix);
      assert !es[|es| - 1].SetActiveConfig? && !es[|es| - 1].SetConstrained?;
    }
  }

  /** A constrained switch to another period leaves the display awaiting exactly that change. */
  lemma ConstrainedSwitchAwaits(st: State, config: nat, applyTime: int)
    requires Inv(st) && st.call.Idle? && config < |st.display.modes|
    requires st.display.current != st.display.modes[config]
    ensures
      var end := Exec(st, [SetConstrained(config, applyTime), FinishCall]);
      && Inv(end) && Awaiting(end, applyTime, st.display.current)
      && end.display.active == config
  {
    var es := [SetConstrained(config, applyTime), FinishCall];
    TwoSteps(st, es[0], es[1]);
    InvExec(st, es);
  }

  function WorkerTurns(st: State, now: int): seq<Event> {
    match st.thread.worker.pc
    case Head => [Thread(V.Loop(now, now)), Thread(V.RunApplied)]
    case Waiting => [Thread(V.Wake(now, now)), Thread(V.Loop(now, now)), Thread(V.RunApplied)]
    case Applying(_, _) =>
      if InFlight(st) then [Thread(V.RunApplied)]
      else [Thread(V.RunApplied), Thread(V.Loop(now, now)), Thread(V.RunApplied)]
    case Launching(_) =>
      [Thread(V.Deliver), Thread(V.Return(now)), Thread(V.Loop(now, now)), Thread(V.RunApplied)]
    case Launched(_) =>
      [Thread(V.Return(now)), Thread(V.Loop(now, now)), Thread(V.RunApplied)]
    case Exited => []
  }

  ghost function ExecForward(st: State, es: seq<Event>): State
    decreases |es|
  {
    if es == [] then st else ExecForward(Step(st, es[0]), es[1..])
  }

  lemma {:induction false} ForwardIsExec(st: State, es: seq<Event>)
    ensures ExecForward(st, es) == Exec(st, es)
    decreases |es|
  {
    if es != [] {
      ForwardIsExec(Step(st, es[0]), es[1..]);
      ExecShift(st, es);
    }
  }

  lemma {:induction false} ExecShift(st: State, es: seq<Event>)
    requires es != []
    ensures Exec(st, es) == Exec(Step(st, es[0]), es[1..])
    decreases |es|
  {
    var n := |es| - 1;
    if n == 0 {
      assert es[..0] == [] && es[1..] == [];
    } else {
      ExecShift(st, es[..n]);
      assert es[..n][1..] == es[1..][..n - 1];
    }
  }

  /** A blocked worker sleeps past the apply time by the time between its two clock readings. */
  function Skew(st: State): int {
    if st.thread.worker.pc.Waiting? then st.thread.history.seenSteady - st.thread.history.seenNow else 0
  }

  /** A change is under way whose time has come, and only the worker has to act. */
  ghost predicate Due(st: State, now: int) {
    && Inv(st) && V.WakeInv(st.thread) && st.call.Idle?
    && !st.thread.shared.stopped && !st.thread.worker.pc.Exited?
    && (st.thread.shared.pending || InFlight(st))
    && st.thread.history.clock <= now
    && (st.thread.shared.pending ==> st.thread.shared.pendingApply + Skew(st) <= now)
  }

  ghost predicate Settled(st: State, active: nat) {
    && st.display.active == active < |st.display.modes|
    && !st.thread.shared.pending && !InFlight(st)
    && st.display.current == st.thread.shared.period == Target(st.display)
  }

  /** The wait computed by the worker ends for a due change: by a wake-up, or by its own wake time. */
  lemma DueWaitEnds(st: State, now: int)
    requires Due(st, now) && st.thread.worker.pc.Waiting?
    ensures V.MayEnd(st.thread.shared, st.thread.worker, now)
    ensures Possible(st, WorkerTurns(st, now)[0])
  {}

  lemma InFlightSettles(st: State, now: int)
    requires Due(st, now) && InFlight(st)
    ensures Settled(Step(st, Thread(V.RunApplied)), st.display.active)
  {}

  lemma HeadSettles(st: State, now: int)
    requires Due(st, now) && st.thread.worker.pc.Head?
    ensures Settled(ExecForward(st, [Thread(V.Loop(now, now)), Thread(V.RunApplied)]), st.display.active)
  {
    var next := Step(st, Thread(V.Loop(now, now)));
    InvStep(st, Thread(V.Loop(now, now)));
    V.WakeInvStep(st.thread, V.Loop(now, now));
    InFlightSettles(next, now);
    assert [Thread(V.Loop(now, now)), Thread(V.RunApplied)][1..] == [Thread(V.RunApplied)];
    assert [Thread(V.RunApplied)][1..] == [];
  }

  /** One more turn of the worker keeps the change due, and brings it closer to the loop head. */
  lemma TurnKeepsDue(st: State, now: int)
    requires Due(st, now) && !InFlight(st) && !st.thread.worker.pc.Head?
    ensures
      var next := Step(st, WorkerTurns(st, now)[0]);
      && Due(next, now) && !InFlight(next) && next.display.active == st.display.active
      && WorkerTurns(next, now) == WorkerTurns(st, now)[1..]
      && (next.thread.worker.pc.Head? || (st.thread.worker.pc.Launching? && next.thread.worker.pc.Launched?))
  {
    var e := WorkerTurns(st, now)[0];
    InvStep(st, e);
    V.WakeInvStep(st.thread, e.e);
    if st.thread.worker.pc.Waiting? { DueWaitEnds(st, now); }
  }

  /**
   * A due change is never stuck, nor slept past: from any reachable state of a
   * running thread with the display's mutex free, at any time from the due time
   * on the wait of a blocked worker has ended, and the worker's own next turns
   * alone bring the three periods together.
   */
  lemma DueChangeSettles(st: State, now: int)
    requires Due(st, now)
    ensures Settled(Exec(st, WorkerTurns(st, now)), st.display.active)
  {
    var es := WorkerTurns(st, now);
    ForwardIsExec(st, es);
    if InFlight(st) {
      InFlightSettles(st, now);
      assert es[1..] == [];
    } else if st.thread.worker.pc.Head? {
      HeadSettles(st, now);
    } else {
      TurnKeepsDue(st, now);
      var s1 := Step(st, es[0]);
      if s1.thread.worker.pc.Head? {
        HeadSettles(s1, now);
      } else {
        TurnKeepsDue(s1, now);
        HeadSettles(Step(s1, es[1]), now);
        assert es[1..][1..] == es[2..];
      }
    }
  }

  lemma {:induction false} WakeInvKept(st: State, es: seq<Event>)
    requires V.WakeInv(st.thread)
    ensures V.WakeInv(Exec(st, es).thread)
  {
    if es != [] {
      WakeInvKept(st, es[..|es| - 1]);
      var before, e := Exec(st, es[..|es| - 1]), es[|es| - 1];
      if Possible(before, e) {
        match e
        case FinishCall => V.WakeInvStep(before.thread, Inner(before.call));
        case Thread(t) => V.WakeInvStep(before.thread, t);
        case SetActiveConfig(_) =>
        case SetConstrained(_, _) =>
      }
    }
  }

  /**
   * A constrained switch takes effect: whatever the thread and its callers do
   * after it, unless there is another switch, once its time has come either the
   * display reports the mode asked for, or the worker's own next turns make it.
   */
  lemma SwitchTakesEffect(st: State, config: nat, applyTime: int, es: seq<Event>, now: int)
    requires Inv(st) && V.WakeInv(st.thread) && st.call.Idle? && config < |st.display.modes| && NoConfigCall(es)
    ensures
      var mid := Exec(Exec(st, [SetConstrained(config, applyTime), FinishCall]), es);
      && mid.call.Idle? && mid.display.active == config && mid.display.modes == st.display.modes
      && (mid.thread.shared.pending || InFlight(mid) || mid.display.current == st.display.modes[config])
      && (mid.thread.shared.pending ==> mid.thread.shared.pendingPeriod == st.display.modes[config])
      && (Due(mid, now) ==>
            var end := Exec(mid, WorkerTurns(mid, now));
            Settled(end, config) && end.display.current == st.display.modes[config])
  {
    var call := [SetConstrained(config, applyTime), FinishCall];
    ConstrainedSwitch(st, config, applyTime);
    WakeInvKept(st, call);
    var set1 := Exec(st, call);
    ActiveKept(set1, es);
    IdleKept(set1, es);
    InvExec(set1, es);
    var mid := Exec(set1, es);
    if Due(mid, now) {
      DueChangeSettles(mid, now);
      TurnsKeepModes(mid, now);
    }
  }

  lemma {:induction false} IdleKept(st: State, es: seq<Event>)
    requires st.call.Idle? && NoConfigCall(es)
    ensures Exec(st, es).call.Idle?
  {
    if es != [] { IdleKept(st, es[..|es| - 1]); }
  }

  lemma TurnsKeepModes(st: State, now: int)
    ensures Exec(st, WorkerTurns(st, now)).display.modes == st.display.modes
  {
    ActiveKept(st, WorkerTurns(st, now));
  }

  /** The same, for every reachable state. */
  lemma ReachableDueChangeSettles(modes: seq<int>, active: nat, clock: int, es: seq<Event>, now: int)
    requires active < |modes|
    ensures
      var st := Exec(Start(modes, active, clock), es);
      var s := st.thread.shared;
      && st.call.Idle? && (s.pending || InFlight(st)) && (s.pending ==> s.pendingApply + Skew(st) <= now)
      && st.thread.history.clock <= now && !s.stopped && !st.thread.worker.pc.Exited?
      ==> Settled(Exec(st, WorkerTurns(st, now)), st.display.active)
  {
    var start := Start(modes, active, clock);
    var st := Exec(start, es);
    InvExec(start, es);
    var lo, hi := Bounds(modes);
    ThreadRun(start, es, lo, hi);
    V.WakeInvExec(start.thread, Project(start, es));
    if Due(st, now) { DueChangeSettles(st, now); }
  }

  lemma {:induction false} Bounds(modes: seq<int>) returns (lo: int, hi: int)
    ensures ModesWithin(modes, lo, hi)
  {
    lo, hi := 0, 0;
    if modes != [] {
      var n := |modes| - 1;
      lo, hi := Bounds(modes[..n]);
      lo, hi := Min(lo, modes[n]), Max(hi, modes[n]);
      assert modes == modes[..n] + [modes[n]];
    }
  }

  // The class.

  datatype Error = NoError | BadParameter | BadConfig

  /** The configuration fields of a display and the worker it owns. */
  class DisplayModes {
    const modes: seq<int>
    var active: nat
    var current: int
    var generation: nat
    const thread: V.VsyncThread

    ghost function Current(): State
      reads this, thread
    {
      State(Display(modes, active, current, generation), thread.Current(), Idle)
    }

    constructor (modes: seq<int>, initial: nat, ghost clock: int)
      requires initial < |modes|
      ensures Current() == Start(modes, initial, clock) && fresh(thread)
    {
      this.modes := modes;
      active, current, generation := initial, modes[initial], 0;
      thread := new V.VsyncThread(modes[initial], clock);
    }

    method ApplyActiveConfigLocked(config: nat)
      requires config < |modes|
      modifies this, thread
      ensures Current() == Exec(old(Current()), [Event.SetActiveConfig(config), FinishCall])
    {
      ghost var st := Current();
      active := config;
      current := modes[config];
      generation := generation + 1;
      thread.SetPeriod(modes[config]);
      TwoSteps(st, Event.SetActiveConfig(config), FinishCall);
    }

    method ApplyActiveConfigAt(config: nat, applyTimeNanos: int)
      requires config < |modes|
      modifies this, thread
      ensures Current() == Exec(old(Current()), [SetConstrained(config, applyTimeNanos), FinishCall])
    {
      ghost var st := Current();
      TwoSteps(st, SetConstrained(config, applyTimeNanos), FinishCall);
      TwoSteps(st, Event.SetActiveConfig(config), FinishCall);
      if current == modes[config] {
        ApplyActiveConfigLocked(config);
        return;
      }
      active := config;
      generation := generation + 1;
      thread.SetPeriodAt(modes[config], applyTimeNanos, generation);
    }

    method SetActiveConfig(config: nat) returns (error: Error)
      modifies this, thread
      ensures error == if config < |modes| then NoError else BadConfig
      ensures Current() == if error.NoError?
                           then Exec(old(Current()), [Event.SetActiveConfig(config), FinishCall])
                           else old(Current())
    {
      if config >= |modes| { return BadConfig; }
      ApplyActiveConfigLocked(config);
      return NoError;
    }

    /** `desired` is None when the constraints or the timeline are missing. */
    method SetActiveConfigWithConstraints(config: nat, desired: Option<int>, now: int)
      returns (error: Error, appliedTime: int)
      modifies this, thread
      ensures error == if desired.None? then BadParameter else if config < |modes| then NoError else BadConfig
      ensures error.NoError? ==> appliedTime >= now && appliedTime >= desired.value
      ensures error.NoError? ==> appliedTime == now || appliedTime == desired.value
      ensures Current() == if error.NoError?
                           then Exec(old(Current()), [SetConstrained(config, appliedTime), FinishCall])
                           else old(Current())
    {
      appliedTime := now;
      if desired.None? { return BadParameter, appliedTime; }
      if config >= |modes| { return BadConfig, appliedTime; }
      appliedTime := Max(now, desired.value);
      ApplyActiveConfigAt(config, appliedTime);
      error := NoError;
    }

    /** The worker's unlocked window after a change was applied. */
    method RunAppliedCallback()
      requires V.Possible(thread.Current(), V.RunApplied)
      modifies this, thread
      ensures Current() == Step(old(Current()), Thread(V.RunApplied))
    {
      var pc := thread.worker.pc;
      if pc.ticket.Some? && pc.ticket.value == generation {
        current := pc.applied;
      }
      thread.AfterApplied();
    }
  }
}
