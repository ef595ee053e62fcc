/**
 * The vsync worker (src/VsyncThread.cpp).
 *
 * `Shared` holds the fields guarded by the thread's mutex and `Worker` the
 * locals of the worker's loop. Every region that runs with the mutex held is
 * one atomic function; every point where the worker has dropped the mutex is a
 * `Pc`, so any other thread may act there. `Step` adds a clock and a history
 * and is total: an event that cannot happen in a state leaves it unchanged, so
 * every event sequence is a schedule and `Exec` ranges over all interleavings.
 */
module VsyncThread {
  import opened Basics

  /** `callback` is the ticket captured by the pending applied-callback. */
  datatype Shared = Shared(
    period: int,
    pending: bool,
    pendingPeriod: int,
    pendingApply: int,
    callback: Option<nat>,
    enabled: bool,
    stopped: bool,
    wakeGeneration: nat,
    periodGeneration: nat)

  datatype Pc =
    | Head                                          // about to test the loop condition
    | Applying(ticket: Option<nat>, applied: int)   // unlocked, applied-callback not yet run
    | Waiting                                       // blocked on the condition variable
    | Launching(launched: int)                      // unlocked, vsync callback not yet run
    | Launched(returned: int)                       // vsync callback has returned, mutex not retaken
    | Exited

  datatype Worker = Worker(
    pc: Pc,
    nextVsync: Option<int>,
    observedPeriod: nat,
    wakeTime: Option<int>,
    observedWake: nat)

  function Initial(period: int): (Shared, Worker) {
    (Shared(period, false, 0, 0, None, false, false, 0, 0), Worker(Head, None, 0, None, 0))
  }

  // Regions run by callers, each under the mutex.

  function EnabledSet(s: Shared, enabled: bool): Shared {
    if s.enabled == enabled then s
    else s.(enabled := enabled,
            wakeGeneration := s.wakeGeneration + 1,
            periodGeneration := s.periodGeneration + 1)
  }

  function PeriodSet(s: Shared, period: int): Shared {
    if s.period == period && !s.pending then s
    else s.(period := period, pending := false, callback := None,
            wakeGeneration := s.wakeGeneration + 1,
            periodGeneration := s.periodGeneration + 1)
  }

  function PeriodScheduled(s: Shared, period: int, applyTime: int, ticket: nat): Shared {
    s.(pending := true, pendingPeriod := period, pendingApply := applyTime,
       callback := Some(ticket), wakeGeneration := s.wakeGeneration + 1)
  }

  function Stopping(s: Shared): Shared {
    s.(stopped := true, wakeGeneration := s.wakeGeneration + 1)
  }

  // Regions run by the worker.

  /** The time at which the wait ends by itself; None means only a wake-up ends it. */
  function WakeTime(s: Shared, nextVsync: Option<int>, now: int, steady: int): Option<int> {
    if !s.pending then nextVsync
    else
      var change := steady + Max(0, s.pendingApply - now);
      if nextVsync.None? || change < nextVsync.value then Some(change) else nextVsync
  }

  /** From the loop condition to the next unlock: apply a due period, or go to sleep. */
  function LoopHead(s: Shared, w: Worker, now: int, steady: int): (Shared, Worker) {
    if s.stopped then (s, w.(pc := Exited))
    else
      var kept := if w.observedPeriod != s.periodGeneration then None else w.nextVsync;
      if s.pending && now >= s.pendingApply then
        (s.(period := s.pendingPeriod, pending := false, callback := None,
            wakeGeneration := s.wakeGeneration + 1,
            periodGeneration := s.periodGeneration + 1),
         w.(pc := Applying(s.callback, s.pendingPeriod), nextVsync := kept,
            observedPeriod := s.periodGeneration))
      else
        var next := if !s.enabled then None
                    else if kept.None? then Some(steady + s.period)
                    else kept;
        (s, w.(pc := Waiting, nextVsync := next, observedPeriod := s.periodGeneration,
               wakeTime := WakeTime(s, next, now, steady), observedWake := s.wakeGeneration))
  }

  /** The wait ends only for a wake-up, or when its wake time has come. */
  predicate MayEnd(s: Shared, w: Worker, now: int) {
    || s.stopped
    || s.wakeGeneration != w.observedWake
    || (w.wakeTime.Some? && w.wakeTime.value <= now)
  }

  /** The wait returns: interrupted, or timed out and possibly due for a vsync. */
  function WaitReturns(s: Shared, w: Worker, mono: int, steady: int): Worker {
    if s.stopped || s.wakeGeneration != w.observedWake then w.(pc := Head)
    else if s.pending && mono >= s.pendingApply then w.(pc := Head)
    else if w.nextVsync.Some? && steady >= w.nextVsync.value then
      w.(pc := Launching(s.period), nextVsync := Some(w.nextVsync.value + s.period))
    else w.(pc := Head)
  }

  /** After the vsync callback: resynchronise when more than one period behind. */
  function Resync(w: Worker, period: int, now: int): Worker
    requires w.nextVsync.Some?
  {
    if w.nextVsync.value + period < now
    then w.(pc := Head, nextVsync := Some(now + period))
    else w.(pc := Head)
  }

  // The machine.

  /** One vsync launch. */
  datatype Emission = Emission(deadline: int, clock: int, period: int)

  /** What happened so far; `seen*` is what the worker saw when it last computed a wake time. */
  datatype History = History(
    clock: int,
    log: seq<Emission>,
    delivered: nat,
    seen: Shared,
    seenNow: int,
    seenSteady: int)

  datatype State = State(shared: Shared, worker: Worker, history: History)

  datatype Event =
    | Enable(enabled: bool)
    | SetPeriod(period: int)
    | SetPeriodAt(newPeriod: int, applyTime: int, ticket: nat)
    | Stop
    | Loop(now: int, steady: int)
    | RunApplied
    | Wake(mono: int, wakeSteady: int)
    | Deliver
    | Return(returnTime: int)

  function Start(period: int, clock: int): State {
    var (s, w) := Initial(period);
    State(s, w, History(clock, [], 0, s, clock, clock))
  }

  /** What the program counter, the mutex discipline and a monotone clock allow. */
  predicate Possible(st: State, e: Event) {
    var State(s, w, h) := st;
    match e
    case Loop(now, steady) => w.pc.Head? && h.clock <= now <= steady
    case RunApplied => w.pc.Applying?
    case Wake(mono, steady) => w.pc.Waiting? && MayEnd(s, w, mono) && h.clock <= mono <= steady
    case Deliver => w.pc.Launching?
    case Return(now) => w.pc.Launched? && w.nextVsync.Some? && h.clock <= now
    case _ => true
  }

  function Step(st: State, e: Event): State {
    if Possible(st, e) then Act(st, e) else st
  }

  function Act(st: State, e: Event): State
    requires Possible(st, e)
  {
    var State(s, w, h) := st;
    match e
    case Enable(b) => st.(shared := EnabledSet(s, b))
    case SetPeriod(p) => st.(shared := PeriodSet(s, p))
    case SetPeriodAt(p, t, ticket) => st.(shared := PeriodScheduled(s, p, t, ticket))
    case Stop => st.(shared := Stopping(s))
    case Loop(now, steady) =>
      var (s', w') := LoopHead(s, w, now, steady);
      State(s', w', h.(clock := steady, seen := s, seenNow := now, seenSteady := steady))
    case RunApplied => st.(worker := w.(pc := Head))
    case Wake(mono, steady) =>
      var w' := WaitReturns(s, w, mono, steady);
      if w'.pc.Launching? then
        State(s, w', h.(clock := steady, log := h.log + [Emission(w.nextVsync.value, steady, s.period)]))
      else State(s, w', h.(clock := steady))
    case Deliver =>
      State(s, w.(pc := Launched(w.pc.launched)), h.(delivered := h.delivered + 1))
    case Return(now) =>
      State(s, Resync(w, w.pc.returned, now), h.(clock := now))
  }

  function Exec(st: State, es: seq<Event>): State {
    if es == [] then st else Step(Exec(st, es[..|es| - 1]), es[|es| - 1])
  }

  // Waking up.

  /**
   * The wake generation is a version number of every shared field: a blocked
   * worker whose observed generation is current still sees exactly the fields
   * its wake time was computed from.
   */
  ghost predicate WakeInv(st: State) {
    var State(s, w, h) := st;
    && (w.pc.Launching? || w.pc.Launched? ==> w.nextVsync.Some?)
    && (w.pc.Waiting? ==>
          && w.observedWake <= s.wakeGeneration
          && h.seen.wakeGeneration == w.observedWake
          && !h.seen.stopped
          && (s.wakeGeneration == w.observedWake ==> s == h.seen)
          && (w.nextVsync.Some? <==> h.seen.enabled)
          && w.wakeTime == WakeTime(h.seen, w.nextVsync, h.seenNow, h.seenSteady)
          && (h.seen.pending ==> h.seenNow < h.seen.pendingApply)
          && h.seenNow <= h.seenSteady <= h.clock)
  }

  lemma WakeInvStep(st: State, e: Event)
    requires WakeInv(st)
    ensures WakeInv(Step(st, e))
  {}

  lemma {:induction false} WakeInvExec(st: State, es: seq<Event>)
    requires WakeInv(st)
    ensures WakeInv(Exec(st, es))
  {
    if es != [] {
      WakeInvExec(st, es[..|es| - 1]);
      WakeInvStep(Exec(st, es[..|es| - 1]), es[|es| - 1]);
    }
  }

  /**
   * No lost wake-up. In every reachable state where the worker is blocked with
   * no wake-up outstanding, the shared fields are those the wake time was
   * computed from, and the wake time is the earlier of the next vsync and
   * the pending period change (whose time carries only the skew between the two
   * clock readings); and with no wake time there is nothing to wait for.
   */
  lemma NoLostWakeup(period: int, clock: int, es: seq<Event>)
    ensures
      var State(s, w, h) := Exec(Start(period, clock), es);
      w.pc.Waiting? && w.observedWake == s.wakeGeneration ==>
        && s == h.seen && !s.stopped
        && (s.enabled <==> w.nextVsync.Some?)
        && (w.wakeTime.None? <==> !s.enabled && !s.pending)
        && (w.wakeTime.Some? ==>
              var change := s.pendingApply + (h.seenSteady - h.seenNow);
              && (s.enabled ==> w.wakeTime.value <= w.nextVsync.value)
              && (s.pending ==> w.wakeTime.value <= change)
              && ((s.enabled && w.wakeTime == w.nextVsync) || (s.pending && w.wakeTime.value == change)))
  {
    WakeInvExec(Start(period, clock), es);
  }

  // Delivery.

  /** A launch happens only from a locked state with vsync enabled and the thread not stopped. */
  lemma LaunchedOnlyWhileEnabled(period: int, clock: int, es: seq<Event>, e: Event)
    ensures
      var st := Exec(Start(period, clock), es);
      |Step(st, e).history.log| > |st.history.log| ==> st.shared.enabled && !st.shared.stopped
  {
    WakeInvExec(Start(period, clock), es);
  }

  ghost predicate NeverEnables(es: seq<Event>) {
    forall i :: 0 <= i < |es| ==> es[i] != Enable(true)
  }

  /**
   * Once vsync is off, until it is switched on again nothing is launched, and
   * the only callback that may still be delivered is one already past the unlock.
   */
  lemma {:induction false} QuietWhileDisabled(st: State, es: seq<Event>)
    requires WakeInv(st) && !st.shared.enabled
    requires NeverEnables(es)
    ensures
      var end := Exec(st, es);
      && !end.shared.enabled
      && end.history.log == st.history.log
      && end.history.delivered + (if end.worker.pc.Launching? then 1 else 0)
         == st.history.delivered + (if st.worker.pc.Launching? then 1 else 0)
  {
    if es != [] {
      var before := es[..|es| - 1];
      QuietWhileDisabled(st, before);
      WakeInvExec(st, before);
    }
  }

  /** After a call to SetEnabled(false) returns, at most one more callback is delivered. */
  lemma AtMostOneLateCallback(period: int, clock: int, es: seq<Event>, later: seq<Event>)
    requires NeverEnables(later)
    ensures
      var off := Step(Exec(Start(period, clock), es), Enable(false));
      && Exec(off, later).history.log == off.history.log
      && Exec(off, later).history.delivered <= off.history.delivered + 1
  {
    var st := Exec(Start(period, clock), es);
    WakeInvExec(Start(period, clock), es);
    WakeInvStep(st, Enable(false));
    QuietWhileDisabled(Step(st, Enable(false)), later);
  }

  /**
   * The end of a wait launches a vsync exactly if it is due: whatever else is
   * pending, the deadline has come, nobody woke the worker, and no period
   * change is due first. Then that deadline is logged and the next one set.
   */
  lemma DueVsyncLaunches(period: int, clock: int, es: seq<Event>, mono: int, steady: int)
    ensures
      var st := Exec(Start(period, clock), es);
      Possible(st, Wake(mono, steady)) ==>
      var State(s, w, h) := st;
      var next := Step(st, Wake(mono, steady));
      var due := s.enabled && !s.stopped && s.wakeGeneration == w.observedWake
                 && !(s.pending && mono >= s.pendingApply);
      && (due ==> w.nextVsync.Some?)
      && (next.worker.pc.Launching? <==> due && steady >= w.nextVsync.value)
      && (next.worker.pc.Launching? ==>
            && next.worker.pc.launched == s.period
            && next.worker.nextVsync == Some(w.nextVsync.value + s.period)
            && next.history.log == h.log + [Emission(w.nextVsync.value, steady, s.period)])
      && (!next.worker.pc.Launching? ==> next.worker.pc.Head? && next.history.log == h.log)
      && next.shared == s
  {
    WakeInvExec(Start(period, clock), es);
  }

  ghost predicate LaunchesDelivered(st: State) {
    st.history.delivered + (if st.worker.pc.Launching? then 1 else 0) == |st.history.log|
  }

  lemma LaunchesDeliveredStep(st: State, e: Event)
    requires LaunchesDelivered(st)
    ensures LaunchesDelivered(Step(st, e))
  {}

  /** Every vsync launched is delivered once, before the next one is launched. */
  lemma {:induction false} EveryLaunchDelivered(period: int, clock: int, es: seq<Event>)
    ensures LaunchesDelivered(Exec(Start(period, clock), es))
  {
    if es != [] {
      EveryLaunchDelivered(period, clock, es[..|es| - 1]);
      LaunchesDeliveredStep(Exec(Start(period, clock), es[..|es| - 1]), es[|es| - 1]);
    }
  }

  // Stopping.

  predicate OfWorker(e: Event) {
    e.Loop? || e.RunApplied? || e.Wake? || e.Deliver? || e.Return?
  }

  /** How far a stopped worker is from its end. */
  function ToGo(pc: Pc): nat {
    match pc
    case Exited => 0
    case Head => 1
    case Launching(_) => 3
    case _ => 2
  }

  /** The worker always has a next turn, at any time from its wake time on. */
  lemma WorkerNeverStuck(st: State, now: int) returns (e: Event)
    requires WakeInv(st) && !st.worker.pc.Exited? && now >= st.history.clock
    requires st.worker.pc.Waiting? ==> MayEnd(st.shared, st.worker, now)
    ensures OfWorker(e) && Possible(st, e)
  {
    match st.worker.pc
    case Head => e := Loop(now, now);
    case Applying(_, _) => e := RunApplied;
    case Waiting => e := Wake(now, now);
    case Launching(_) => e := Deliver;
    case Launched(_) => e := Return(now);
  }

  /**
   * After a stop nothing is launched, no wait holds the worker, and each of its
   * turns, whatever it reads and whatever callers do in between, brings it
   * closer to its end: after at most three it has exited.
   */
  lemma {:induction false} StopEnds(st: State, es: seq<Event>)
    requires WakeInv(st)
    ensures
      var end := Exec(Step(st, Stop), es);
      && end.shared.stopped && end.history.log == st.history.log && WakeInv(end)
      && (end.worker.pc.Waiting? ==> MayEnd(end.shared, end.worker, end.history.clock))
      && ToGo(end.worker.pc) + Turns(Step(st, Stop), es) <= ToGo(st.worker.pc)
  {
    WakeInvStep(st, Stop);
    if es != [] {
      StopEnds(st, es[..|es| - 1]);
      var before := Exec(Step(st, Stop), es[..|es| - 1]);
      WakeInvStep(before, es[|es| - 1]);
      StoppedTurn(before, es[|es| - 1]);
    }
  }

  lemma StoppedTurn(st: State, e: Event)
    requires WakeInv(st) && st.shared.stopped
    ensures Step(st, e).shared.stopped && Step(st, e).history.log == st.history.log
    ensures ToGo(Step(st, e).worker.pc) + (if OfWorker(e) && Possible(st, e) then 1 else 0) <= ToGo(st.worker.pc)
  {}

  /** The turns of the worker in a run. */
  function Turns(st: State, es: seq<Event>): nat {
    if es == [] then 0
    else
      var e := es[|es| - 1];
      Turns(st, es[..|es| - 1]) + (if OfWorker(e) && Possible(Exec(st, es[..|es| - 1]), e) then 1 else 0)
  }

  // Rate.

  ghost predicate PeriodsWithin(es: seq<Event>, lo: int, hi: int) {
    forall i :: 0 <= i < |es| ==>
      && (es[i].SetPeriod? ==> lo <= es[i].period <= hi)
      && (es[i].SetPeriodAt? ==> lo <= es[i].newPeriod <= hi)
  }

  /** `next` may follow the emission `e` when every period lies within [lo, hi]. */
  ghost predicate Follows(e: Emission, next: int, lo: int, hi: int) {
    && next >= e.deadline + lo
    && (next >= e.clock + lo || e.clock <= e.deadline + 2 * hi)
  }

  ghost predicate LogInv(log: seq<Emission>, lo: int, hi: int) {
    && (forall i :: 0 <= i < |log| ==>
          && log[i].deadline <= log[i].clock
          && lo <= log[i].period <= hi)
    && (forall i :: 0 < i < |log| ==>
          && log[i - 1].clock <= log[i].clock
          && Follows(log[i - 1], log[i].deadline, lo, hi))
  }

  ghost predicate RateInv(st: State, lo: int, hi: int) {
    var State(s, w, h) := st;
    && lo <= s.period <= hi
    && (s.pending ==> lo <= s.pendingPeriod <= hi)
    && LogInv(h.log, lo, hi)
    && (h.log != [] ==> h.log[|h.log| - 1].clock <= h.clock)
    && (w.pc.Launching? || w.pc.Launched? ==>
          && h.log != []
          && w.nextVsync == Some(h.log[|h.log| - 1].deadline + h.log[|h.log| - 1].period)
          && (if w.pc.Launching? then w.pc.launched else w.pc.returned) == h.log[|h.log| - 1].period)
    && (h.log != [] && w.nextVsync.Some? && (w.pc.Head? || w.pc.Applying? || w.pc.Waiting?) ==>
          Follows(h.log[|h.log| - 1], w.nextVsync.value, lo, hi))
  }

  lemma RateInvLoop(st: State, now: int, steady: int, lo: int, hi: int)
    requires 0 < lo && RateInv(st, lo, hi)
    ensures RateInv(Step(st, Loop(now, steady)), lo, hi)
  {
    var w := st.worker;
    if w.pc.Head? && st.history.clock <= now <= steady {
      var next := LoopHead(st.shared, w, now, steady).1.nextVsync;
      var log := st.history.log;
      if log != [] && next.Some? {
        assert log[|log| - 1].deadline <= log[|log| - 1].clock;
        assert Follows(log[|log| - 1], next.value, lo, hi);
      }
    }
  }

  lemma LogExtended(log: seq<Emission>, e: Emission, lo: int, hi: int)
    requires LogInv(log, lo, hi)
    requires e.deadline <= e.clock && lo <= e.period <= hi
    requires log != [] ==>
               var last := log[|log| - 1];
               && last.clock <= e.clock
               && Follows(last, e.deadline, lo, hi)
    ensures LogInv(log + [e], lo, hi)
  {
    var log' := log + [e];
    forall i | 0 < i < |log'|
      ensures
        && log'[i - 1].clock <= log'[i].clock
        && Follows(log'[i - 1], log'[i].deadline, lo, hi)
    {
      if i < |log| { assert log'[i] == log[i] && log'[i - 1] == log[i - 1]; }
    }
  }

  lemma RateInvWake(st: State, mono: int, steady: int, lo: int, hi: int)
    requires 0 < lo && RateInv(st, lo, hi)
    ensures RateInv(Step(st, Wake(mono, steady)), lo, hi)
  {
    var State(s, w, h) := st;
    var st' := Step(st, Wake(mono, steady));
    if Possible(st, Wake(mono, steady)) && WaitReturns(s, w, mono, steady).pc.Launching? {
      var e := Emission(w.nextVsync.value, steady, s.period);
      LogExtended(h.log, e, lo, hi);
      assert st'.history.log == h.log + [e];
    }
  }

  lemma RateInvReturn(st: State, now: int, lo: int, hi: int)
    requires 0 < lo && RateInv(st, lo, hi)
    ensures RateInv(Step(st, Return(now)), lo, hi)
  {
    var w := st.worker;
    if w.pc.Launched? && w.nextVsync.Some? && st.history.clock <= now {
      var last := st.history.log[|st.history.log| - 1];
      assert lo <= last.period <= hi;
      assert Follows(last, Resync(w, w.pc.returned, now).nextVsync.value, lo, hi);
    }
  }

  lemma RateInvStep(st: State, e: Event, lo: int, hi: int)
    requires 0 < lo && RateInv(st, lo, hi) && PeriodsWithin([e], lo, hi)
    ensures RateInv(Step(st, e), lo, hi)
  {
    assert [e][0] == e;
    match e
    case Loop(now, steady) => RateInvLoop(st, now, steady, lo, hi);
    case Wake(mono, steady) => RateInvWake(st, mono, steady, lo, hi);
    case Return(now) => RateInvReturn(st, now, lo, hi);
    case _ =>
  }

  lemma {:induction false} RateInvExec(st: State, es: seq<Event>, lo: int, hi: int)
    requires 0 < lo && RateInv(st, lo, hi) && PeriodsWithin(es, lo, hi)
    ensures RateInv(Exec(st, es), lo, hi)
  {
    if es != [] {
      RateInvExec(st, es[..|es| - 1], lo, hi);
      RateInvStep(Exec(st, es[..|es| - 1]), es[|es| - 1], lo, hi);
    }
  }

  /** Two emissions i <= j inside [a, b] are few periods apart. */
  lemma {:induction false} EmissionsSpread(log: seq<Emission>, lo: int, hi: int, i: nat, j: nat)
    requires 0 < lo <= hi && LogInv(log, lo, hi) && i <= j < |log|
    ensures log[j].deadline >= log[i].deadline + (j - i) * lo
    ensures i < j ==>
              || log[j].deadline >= log[i].clock + (j - i) * lo
              || log[i].clock <= log[i].deadline + 2 * hi
    decreases j
  {
    if i < j {
      EmissionsSpread(log, lo, hi, i, j - 1);
      assert Follows(log[j - 1], log[j].deadline, lo, hi);
      assert (j - i) * lo == (j - 1 - i) * lo + lo;
      if i == j - 1 { assert (j - 1 - i) * lo == 0; }
    }
  }

  function InWindow(log: seq<Emission>, a: int, b: int): nat {
    if log == [] then 0
    else InWindow(log[..|log| - 1], a, b) + (if a <= log[|log| - 1].clock <= b then 1 else 0)
  }

  /** The emissions of a window lie between a first and a last one. */
  lemma {:induction false} WindowEnds(log: seq<Emission>, a: int, b: int) returns (i: nat, j: nat)
    requires InWindow(log, a, b) > 0
    ensures i <= j < |log| && a <= log[i].clock && log[j].clock <= b
    ensures InWindow(log, a, b) <= j - i + 1
  {
    var n := |log| - 1;
    var init := log[..n];
    if InWindow(init, a, b) > 0 {
      i, j := WindowEnds(init, a, b);
      if a <= log[n].clock <= b { j := n; }
    } else {
      i, j := n, n;
    }
  }

  lemma WindowBound(log: seq<Emission>, lo: int, hi: int, a: int, b: int)
    requires 0 < lo <= hi && LogInv(log, lo, hi) && a <= b
    ensures InWindow(log, a, b) <= (b - a + 2 * hi) / lo + 1
  {
    QuotientBound(0, lo, b - a + 2 * hi);
    if InWindow(log, a, b) > 0 {
      var i, j := WindowEnds(log, a, b);
      EmissionsSpread(log, lo, hi, i, j);
      var k := (j - i) * lo;
      assert log[j].deadline <= log[j].clock <= b;
      assert i < j ==> k <= b - a + 2 * hi;
      assert i == j ==> k == 0;
      QuotientBound(j - i, lo, b - a + 2 * hi);
    }
  }

  /**
   * Rate bound. Whatever the interleaving, the stalls and the toggles, when
   * every period ever set lies within [lo, hi], a window [a, b] holds at most
   * (b - a + 2 * hi) / lo + 1 vsync launches.
   */
  lemma RateBound(period: int, clock: int, es: seq<Event>, lo: int, hi: int, a: int, b: int)
    requires 0 < lo <= period <= hi && PeriodsWithin(es, lo, hi) && a <= b
    ensures InWindow(Exec(Start(period, clock), es).history.log, a, b) <= (b - a + 2 * hi) / lo + 1
  {
    var st := Exec(Start(period, clock), es);
    RateInvExec(Start(period, clock), es, lo, hi);
    WindowBound(st.history.log, lo, hi, a, b);
  }

  /** With one constant period the bound is floor((b - a) / period) + 3. */
  lemma ConstantRateBound(period: int, clock: int, es: seq<Event>, a: int, b: int)
    requires 0 < period && PeriodsWithin(es, period, period) && a <= b
    ensures InWindow(Exec(Start(period, clock), es).history.log, a, b) <= (b - a) / period + 3
  {
    RateBound(period, clock, es, period, period, a, b);
    QuotientShift(b - a, period);
  }

  /** Deadlines never come closer than the shortest period. */
  lemma DeadlinesSpaced(period: int, clock: int, es: seq<Event>, lo: int, hi: int, i: nat)
    requires 0 < lo <= period <= hi && PeriodsWithin(es, lo, hi)
    requires 0 < i < |Exec(Start(period, clock), es).history.log|
    ensures
      var log := Exec(Start(period, clock), es).history.log;
      log[i].deadline >= log[i - 1].deadline + lo
  {
    RateInvExec(Start(period, clock), es, lo, hi);
    var log := Exec(Start(period, clock), es).history.log;
    assert Follows(log[i - 1], log[i].deadline, lo, hi);
  }

  // Drift.

  /**
   * The period generation is a version number too: an enabled worker without a
   * next vsync has one to fetch, and a blocked one without a wake-up has seen it.
   */
  ghost predicate SeenInv(st: State) {
    var State(s, w, h) := st;
    && w.observedPeriod <= s.periodGeneration
    && (s.enabled && w.nextVsync.None? ==> w.observedPeriod < s.periodGeneration || w.pc.Exited?)
    && (w.pc.Waiting? ==> h.seen.periodGeneration == w.observedPeriod)
  }

  lemma SeenInvStep(st: State, e: Event)
    requires WakeInv(st) && SeenInv(st)
    ensures SeenInv(Step(st, e))
  {}

  lemma {:induction false} SeenInvExec(st: State, es: seq<Event>)
    requires WakeInv(st) && SeenInv(st)
    ensures SeenInv(Exec(st, es))
  {
    if es != [] {
      SeenInvExec(st, es[..|es| - 1]);
      WakeInvExec(st, es[..|es| - 1]);
      SeenInvStep(Exec(st, es[..|es| - 1]), es[|es| - 1]);
    }
  }

  /** Nobody disables vsync or changes the period, and no callback returns more than a period late. */
  predicate OnTime(st: State, e: Event) {
    match e
    case Enable(enabled) => enabled
    case SetPeriod(period) => period == st.shared.period
    case SetPeriodAt(_, _, _) => false
    case Return(now) => st.worker.nextVsync.Some? && now <= st.worker.nextVsync.value + st.shared.period
    case _ => true
  }

  ghost predicate AlwaysOnTime(st: State, es: seq<Event>) {
    forall k :: 0 <= k < |es| ==> OnTime(Exec(st, es[..k]), es[k])
  }

  /** From entry n on, the deadlines are `first` and then one period after the other. */
  ghost predicate Evenly(log: seq<Emission>, n: nat, first: int, period: int) {
    forall i :: n <= i < |log| ==> log[i].deadline == first + (i - n) * period
  }

  /** From log entry n on, every deadline and the next one lie on the grid of `first` and the period. */
  ghost predicate OnGrid(st: State, first: int, n: nat, period: int) {
    var State(s, w, h) := st;
    && s.enabled && !s.pending && s.period == period
    && w.observedPeriod == s.periodGeneration
    && n <= |h.log|
    && w.nextVsync == Some(first + (|h.log| - n) * period)
    && (w.pc.Launching? ==> w.pc.launched == period)
    && (w.pc.Launched? ==> w.pc.returned == period)
    && Evenly(h.log, n, first, period)
  }

  lemma OnGridStep(st: State, e: Event, first: int, n: nat, period: int)
    requires OnGrid(st, first, n, period) && OnTime(st, e)
    ensures OnGrid(Step(st, e), first, n, period)
  {
    if e.Wake? {
      var k := |st.history.log| - n;
      assert (k + 1) * period == k * period + period;
    }
  }

  lemma {:induction false} OnGridExec(st: State, es: seq<Event>, first: int, n: nat, period: int)
    requires OnGrid(st, first, n, period) && AlwaysOnTime(st, es)
    ensures OnGrid(Exec(st, es), first, n, period)
  {
    if es != [] {
      var prefix := es[..|es| - 1];
      assert forall k :: 0 <= k < |prefix| ==> prefix[..k] == es[..k];
      OnGridExec(st, prefix, first, n, period);
      OnGridStep(Exec(st, prefix), es[|es| - 1], first, n, period);
    }
  }

  lemma LaunchOnGrid(st: State, wake: Event)
    requires WakeInv(st) && SeenInv(st)
    requires |Step(st, wake).history.log| == |st.history.log| + 1 && !Step(st, wake).shared.pending
    ensures
      var n, launched := |st.history.log|, Step(st, wake);
      OnGrid(launched, launched.history.log[n].deadline, n, st.shared.period)
  {
    assert wake.Wake?;
    assert Step(st, wake).worker.nextVsync == Some(st.worker.nextVsync.value + st.shared.period);
  }

  /**
   * No drift. From any launch with no change pending, while vsync stays enabled
   * at its period and no callback returns more than one period late, the n-th
   * later deadline is exactly n periods on, whatever the stalls of the thread.
   */
  lemma NoDrift(period: int, clock: int, es: seq<Event>, wake: Event, more: seq<Event>)
    ensures
      var st := Exec(Start(period, clock), es);
      var n, launched := |st.history.log|, Step(st, wake);
      |launched.history.log| == n + 1 && !launched.shared.pending && AlwaysOnTime(launched, more) ==>
        var log := Exec(launched, more).history.log;
        && n < |log| && log[n] == launched.history.log[n]
        && Evenly(log, n, log[n].deadline, st.shared.period)
  {
    var st := Exec(Start(period, clock), es);
    var n, launched := |st.history.log|, Step(st, wake);
    WakeInvExec(Start(period, clock), es);
    SeenInvExec(Start(period, clock), es);
    if |launched.history.log| == n + 1 && !launched.shared.pending && AlwaysOnTime(launched, more) {
      LaunchOnGrid(st, wake);
      OnGridExec(launched, more, launched.history.log[n].deadline, n, st.shared.period);
      LogGrows(launched, more);
    }
  }

  lemma {:induction false} LogGrows(st: State, es: seq<Event>)
    ensures st.history.log <= Exec(st, es).history.log
  {
    if es != [] { LogGrows(st, es[..|es| - 1]); }
  }

  /**
   * A callback that returns later skips: the next deadline is a period after
   * its return, so it leaves at least one vsync of the grid out.
   */
  lemma LateReturnSkips(st: State, now: int)
    requires Possible(st, Return(now)) && st.worker.pc.returned > 0
    requires now > st.worker.nextVsync.value + st.worker.pc.returned
    ensures Step(st, Return(now)).worker.nextVsync == Some(now + st.worker.pc.returned)
    ensures now + st.worker.pc.returned > st.worker.nextVsync.value + 2 * st.worker.pc.returned
  {}

  /**
   * In every reachable state the loop replaces a next vsync only for a disabled
   * thread or a period generation it has not seen: not even a fresh enable, or
   * an empty next vsync, is another cause.
   */
  lemma LoopKeepsNextVsync(period: int, clock: int, es: seq<Event>, now: int, steady: int)
    ensures
      var st := Exec(Start(period, clock), es);
      var next := Step(st, Loop(now, steady));
      st.shared.enabled && st.worker.observedPeriod == st.shared.periodGeneration ==>
        next.worker.nextVsync == st.worker.nextVsync && (st.worker.nextVsync.Some? || st.worker.pc.Exited?)
  {
    WakeInvExec(Start(period, clock), es);
    SeenInvExec(Start(period, clock), es);
  }

  /** A new grid is due: vsync was switched on, or the period was set or has just been changed. */
  ghost predicate Restarts(st: State, e: Event) {
    match e
    case Enable(enabled) => enabled && !st.shared.enabled
    case SetPeriod(period) => period != st.shared.period
    case Loop(now, _) => !st.shared.stopped && st.shared.pending && now >= st.shared.pendingApply && Possible(st, e)
    case _ => false
  }

  lemma {:induction false} UnseenStays(st: State, es: seq<Event>)
    requires WakeInv(st) && SeenInv(st) && st.worker.observedPeriod < st.shared.periodGeneration
    requires forall k :: 0 <= k < |es| ==> !es[k].Loop?
    ensures
      var end := Exec(st, es);
      end.worker.observedPeriod < end.shared.periodGeneration
  {
    if es != [] {
      UnseenStays(st, es[..|es| - 1]);
      WakeInvExec(st, es[..|es| - 1]);
    }
  }

  /**
   * A new grid. After vsync is switched on or its period changes, the worker's
   * next pass starts over: the next deadline is one current period after its
   * clock reading, whatever the old deadline was and whatever came in between.
   */
  lemma GridRestarts(period: int, clock: int, es: seq<Event>, e: Event, more: seq<Event>, now: int, steady: int)
    requires forall k :: 0 <= k < |more| ==> !more[k].Loop?
    ensures
      var st := Exec(Step(Exec(Start(period, clock), es), e), more);
      var next := Step(st, Loop(now, steady));
      Restarts(Exec(Start(period, clock), es), e)
      && Possible(st, Loop(now, steady)) && st.shared.enabled && !st.shared.stopped
      && !(st.shared.pending && now >= st.shared.pendingApply) ==>
        next.worker.pc.Waiting? && next.worker.nextVsync == Some(steady + st.shared.period)
  {
    var st := Exec(Start(period, clock), es);
    WakeInvExec(Start(period, clock), es);
    SeenInvExec(Start(period, clock), es);
    WakeInvStep(st, e);
    SeenInvStep(st, e);
    if Restarts(st, e) { UnseenStays(Step(st, e), more); }
  }

  lemma ExecSnoc(st: State, es: seq<Event>, e: Event)
    ensures Exec(st, es + [e]) == Step(Exec(st, es), e)
  {
    assert (es + [e])[..|es|] == es;
  }

  ghost predicate SetsNoPeriod(es: seq<Event>) {
    forall i :: 0 <= i < |es| ==> !es[i].SetPeriod? && !es[i].SetPeriodAt?
  }

  /** A worker one or more periods behind launches at once and goes back to wait. */
  lemma LaunchOnce(st0: State, es: seq<Event>, st: State, a: int, d: int, wake: nat)
    returns (es': seq<Event>, st': State)
    requires st == Exec(st0, es) && SetsNoPeriod(es)
    requires st.worker == Worker(Waiting, Some(d), st.shared.periodGeneration, Some(d), wake)
    requires st.shared.wakeGeneration == wake && !st.shared.pending && !st.shared.stopped && st.shared.enabled
    requires 0 < st.shared.period && d <= a <= d + 2 * st.shared.period && st.history.clock <= a
    ensures st' == Exec(st0, es') && SetsNoPeriod(es')
    ensures st'.shared == st.shared
    ensures st'.worker == Worker(Waiting, Some(d + st.shared.period), st.shared.periodGeneration,
                                 Some(d + st.shared.period), wake)
    ensures st'.history.clock == a
    ensures st'.history.log == st.history.log + [Emission(d, a, st.shared.period)]
  {
    es', st' := Extend(st0, es, st, Wake(a, a));
    es', st' := Extend(st0, es', st', Deliver);
    es', st' := Extend(st0, es', st', Return(a));
    es', st' := Extend(st0, es', st', Loop(a, a));
  }

  /**
   * The constant-period bound is attained for every length of window: after a
   * stall three launches share one clock reading, and the rest follow on the grid.
   */
  lemma RateBoundTight(period: int, clock: int, length: nat) returns (es: seq<Event>, a: int)
    requires 0 < period
    ensures PeriodsWithin(es, period, period)
    ensures InWindow(Exec(Start(period, clock), es).history.log, a, a + length) == length / period + 3
  {
    var st0 := Start(period, clock);
    a := clock + 3 * period;
    var d := clock + period;
    var st;
    es, st := Extend(st0, [], st0, Enable(true));
    es, st := Extend(st0, es, st, Loop(clock, clock));
    es, st := LaunchOnce(st0, es, st, a, d, 1);
    es, st := LaunchOnce(st0, es, st, a, d + period, 1);
    es, st := LaunchOnce(st0, es, st, a, d + 2 * period, 1);
    ThreeInWindow(st.history.log, a, a + length);
    var k := length / period;
    assert length == k * period + length % period;
    es, st := LaunchOften(st0, es, st, a + period, k, a, a + length);
  }

  lemma ThreeInWindow(log: seq<Emission>, a: int, b: int)
    requires |log| == 3 && log[0].clock == log[1].clock == log[2].clock == a <= b
    ensures InWindow(log, a, b) == 3
  {
    assert log[..2] == log[..1] + [log[1]];
    assert log[..2][..1] == log[..1];
    assert InWindow(log[..1], a, b) == 1;
    assert InWindow(log[..2], a, b) == 2;
  }

  /** Launches at k successive deadlines, from d on, all inside the window. */
  lemma {:induction false} LaunchOften(st0: State, es: seq<Event>, st: State, d: int, k: nat, a: int, b: int)
    returns (es': seq<Event>, st': State)
    requires st == Exec(st0, es) && SetsNoPeriod(es)
    requires st.worker == Worker(Waiting, Some(d), st.shared.periodGeneration, Some(d), st.shared.wakeGeneration)
    requires !st.shared.pending && !st.shared.stopped && st.shared.enabled
    requires 0 < st.shared.period && st.history.clock <= d && a <= d
    requires d + (k - 1) * st.shared.period <= b
    ensures st' == Exec(st0, es') && SetsNoPeriod(es')
    ensures InWindow(st'.history.log, a, b) == InWindow(st.history.log, a, b) + k
    decreases k
  {
    es', st' := es, st;
    if k > 0 {
      var p := st.shared.period;
      assert (k - 1) * p == (k - 2) * p + p && (k - 1) * p >= 0;
      es', st' := LaunchOnce(st0, es, st, d, d, st.shared.wakeGeneration);
      assert st'.history.log[..|st.history.log|] == st.history.log;
      es', st' := LaunchOften(st0, es', st', d + p, k - 1, a, b);
    }
  }

  lemma Extend(st0: State, es: seq<Event>, st: State, e: Event) returns (es': seq<Event>, st': State)
    requires st == Exec(st0, es) && SetsNoPeriod(es) && !e.SetPeriod? && !e.SetPeriodAt?
    ensures st' == Step(st, e) && st' == Exec(st0, es') && SetsNoPeriod(es')
  {
    ExecSnoc(st0, es, e);
    es', st' := es + [e], Step(st, e);
  }

  // The class.

  ghost predicate Schedulable(st: State, es: seq<Event>) {
    forall i :: 0 <= i < |es| ==> Possible(Exec(st, es[..i]), es[i])
  }

  lemma NextStep(st: State, es: seq<Event>, i: nat)
    requires i < |es|
    ensures Exec(st, es[..i + 1]) == Step(Exec(st, es[..i]), es[i])
  {
    assert es[..i + 1][..i] == es[..i];
  }

  class VsyncThread {
    var period: int
    var pending: bool
    var pendingPeriod: int
    var pendingApply: int
    var callback: Option<nat>
    var enabled: bool
    var stopped: bool
    var wakeGeneration: nat
    var periodGeneration: nat
    var worker: Worker
    ghost var history: History

    ghost function Fields(): Shared
      reads this
    {
      Shared(period, pending, pendingPeriod, pendingApply, callback,
             enabled, stopped, wakeGeneration, periodGeneration)
    }

    ghost function Current(): State
      reads this
    {
      State(Fields(), worker, history)
    }

    constructor (periodNanos: int, ghost clock: int)
      ensures Current() == Start(periodNanos, clock)
    {
      period, pending, pendingPeriod, pendingApply, callback := periodNanos, false, 0, 0, None;
      enabled, stopped, wakeGeneration, periodGeneration := false, false, 0, 0;
      worker := Worker(Head, None, 0, None, 0);
      history := Start(periodNanos, clock).history;
    }

    method SetEnabled(value: bool)
      modifies this
      ensures Current() == Step(old(Current()), Enable(value))
    {
      if enabled == value { return; }
      enabled := value;
      wakeGeneration := wakeGeneration + 1;
      periodGeneration := periodGeneration + 1;
    }

    method SetPeriod(periodNanos: int)
      modifies this
      ensures Current() == Step(old(Current()), Event.SetPeriod(periodNanos))
    {
      if period == periodNanos && !pending { return; }
      period := periodNanos;
      pending := false;
      callback := None;
      wakeGeneration := wakeGeneration + 1;
      periodGeneration := periodGeneration + 1;
    }

    method SetPeriodAt(periodNanos: int, applyTimeNanos: int, ticket: nat)
      modifies this
      ensures Current() == Step(old(Current()), Event.SetPeriodAt(periodNanos, applyTimeNanos, ticket))
    {
      pending := true;
      pendingPeriod := periodNanos;
      pendingApply := applyTimeNanos;
      callback := Some(ticket);
      wakeGeneration := wakeGeneration + 1;
    }

    method RequestStop()
      modifies this
      ensures Current() == Step(old(Current()), Stop)
    {
      stopped := true;
      wakeGeneration := wakeGeneration + 1;
    }

    /** Lines 102-148: one pass from the loop condition to the next unlock. */
    method EnterLoop(now: int, steady: int)
      requires Possible(Current(), Loop(now, steady))
      modifies this
      ensures Current() == Step(old(Current()), Loop(now, steady))
    {
      ghost var before := Current();
      if stopped {
        worker := worker.(pc := Exited);
      } else {
        var next := worker.nextVsync;
        var observed := worker.observedPeriod;
        if observed != periodGeneration {
          next := None;
          observed := periodGeneration;
        }
        if pending && now >= pendingApply {
          period := pendingPeriod;
          pending := false;
          var applied := callback;
          callback := None;
          periodGeneration := periodGeneration + 1;
          wakeGeneration := wakeGeneration + 1;
          worker := worker.(pc := Applying(applied, period), nextVsync := next, observedPeriod := observed);
        } else {
          if !enabled {
            next := None;
          } else if next.None? {
            next := Some(steady + period);
          }
          var wake := next;
          if pending {
            var change := steady + Max(0, pendingApply - now);
            if wake.None? || change < wake.value { wake := Some(change); }
          }
          worker := Worker(Waiting, next, observed, wake, wakeGeneration);
        }
      }
      history := Act(before, Loop(now, steady)).history;
    }

    /** Line 122: the mutex is retaken after the applied-callback. */
    method AfterApplied()
      requires Possible(Current(), RunApplied)
      modifies this
      ensures Current() == Step(old(Current()), RunApplied)
    {
      worker := worker.(pc := Head);
    }

    /** Lines 150-167: the wait ends; a due vsync is launched. */
    method EndWait(mono: int, steady: int)
      requires Possible(Current(), Wake(mono, steady))
      modifies this
      ensures Current() == Step(old(Current()), Wake(mono, steady))
    {
      ghost var before := Current();
      if stopped || wakeGeneration != worker.observedWake {
        worker := worker.(pc := Head);
      } else if pending && mono >= pendingApply {
        worker := worker.(pc := Head);
      } else if worker.nextVsync.Some? && steady >= worker.nextVsync.value {
        worker := worker.(pc := Launching(period), nextVsync := Some(worker.nextVsync.value + period));
      } else {
        worker := worker.(pc := Head);
      }
      history := Act(before, Wake(mono, steady)).history;
    }

    /** Lines 171-178: the mutex is retaken after the vsync callback. */
    method AfterCallback(now: int)
      requires Possible(Current(), Return(now))
      modifies this
      ensures Current() == Step(old(Current()), Return(now))
    {
      ghost var before := Current();
      var periodNanos := worker.pc.returned;
      if worker.nextVsync.value + periodNanos < now {
        worker := worker.(nextVsync := Some(now + periodNanos));
      }
      worker := worker.(pc := Head);
      history := Act(before, Return(now)).history;
    }

    /** The vsync callback runs, with the mutex released. */
    method RunCallback()
      requires Possible(Current(), Deliver)
      modifies this`worker, this`history
      ensures Current() == Step(old(Current()), Deliver)
    {
      worker := worker.(pc := Launched(worker.pc.launched));
      history := history.(delivered := history.delivered + 1);
    }

    /** A region of a caller. */
    method Call(e: Event)
      requires !OfWorker(e)
      modifies this
      ensures Current() == Step(old(Current()), e)
    {
      match e
      case Enable(b) => SetEnabled(b);
      case SetPeriod(p) => SetPeriod(p);
      case SetPeriodAt(p, t, ticket) => SetPeriodAt(p, t, ticket);
      case Stop => RequestStop();
    }

    /** The first i events of the schedule are done, and the next one is the worker's. */
    ghost predicate At(start: State, schedule: seq<Event>, i: nat)
      reads this
    {
      && i <= |schedule| && Current() == Exec(start, schedule[..i])
      && (i < |schedule| ==>
            && OfWorker(schedule[i]) && Possible(Current(), schedule[i])
            && Exec(start, schedule[..i + 1]) == Step(Current(), schedule[i]))
    }

    /** What runs from entry i on while the worker does not hold the mutex. */
    method Unlocked(ghost start: State, schedule: seq<Event>, i: nat) returns (j: nat)
      requires Schedulable(start, schedule) && i <= |schedule| && Current() == Exec(start, schedule[..i])
      modifies this
      ensures i <= j && At(start, schedule, j)
      ensures worker == old(worker)
    {
      j := i;
      while j < |schedule| && !OfWorker(schedule[j])
        invariant i <= j <= |schedule| && Current() == Exec(start, schedule[..j])
        invariant worker == old(worker)
      {
        NextStep(start, schedule, j);
        Call(schedule[j]);
        j := j + 1;
      }
      if j < |schedule| { NextStep(start, schedule, j); }
    }

    /**
     * The loop of the worker. The schedule gives what the callers do at its
     * unlocked points, and its clock readings; it may end at any of them.
     * Impossible events change nothing, so restricting a schedule to possible
     * ones loses no run.
     */
    method ThreadMain(schedule: seq<Event>)
      requires worker.pc.Head? && Schedulable(Current(), schedule)
      modifies this
      ensures Current() == Exec(old(Current()), schedule)
    {
      ghost var start := Current();
      var i := Unlocked(start, schedule, 0);
      var exited := false;
      while i < |schedule| && !exited
        invariant At(start, schedule, i)
        invariant !exited ==> i == |schedule| || worker.pc.Head?
        invariant exited ==> i == |schedule|
        decreases |schedule| - i
      {
        i, exited := Pass(start, schedule, i);
      }
      assert schedule[..i] == schedule;
    }

    /** One pass of the loop, from its condition to its end. */
    method Pass(ghost start: State, schedule: seq<Event>, i: nat) returns (j: nat, exited: bool)
      requires worker.pc.Head? && Schedulable(start, schedule) && At(start, schedule, i) && i < |schedule|
      modifies this
      ensures i < j && At(start, schedule, j) && (j == |schedule| || worker.pc.Head?)
      ensures exited ==> j == |schedule|
    {
      j := Enter(start, schedule, i);
      exited := worker.pc.Exited?;
      if j == |schedule| || exited { return; }
      if worker.pc.Applying? {
        AfterApplied();
        j := Unlocked(start, schedule, j + 1);
      } else {
        j := Sleep(start, schedule, j);
      }
    }

    method Enter(ghost start: State, schedule: seq<Event>, i: nat) returns (j: nat)
      requires worker.pc.Head? && Schedulable(start, schedule) && At(start, schedule, i) && i < |schedule|
      modifies this
      ensures i < j && At(start, schedule, j)
      ensures worker.pc.Applying? || worker.pc.Waiting? || (worker.pc.Exited? && j == |schedule|)
    {
      EnterLoop(schedule[i].now, schedule[i].steady);
      j := Unlocked(start, schedule, i + 1);
    }

    /** The wait, and the vsync callback if it launches one. */
    method Sleep(ghost start: State, schedule: seq<Event>, i: nat) returns (j: nat)
      requires worker.pc.Waiting? && Schedulable(start, schedule) && At(start, schedule, i) && i < |schedule|
      modifies this
      ensures i < j && At(start, schedule, j) && (j == |schedule| || worker.pc.Head?)
    {
      EndWait(schedule[i].mono, schedule[i].wakeSteady);
      j := Unlocked(start, schedule, i + 1);
      if j < |schedule| && worker.pc.Launching? { j := Launch(start, schedule, j); }
    }

    method Launch(ghost start: State, schedule: seq<Event>, i: nat) returns (j: nat)
      requires worker.pc.Launching? && Schedulable(start, schedule) && At(start, schedule, i) && i < |schedule|
      modifies this
      ensures i < j && At(start, schedule, j) && (j == |schedule| || worker.pc.Head?)
    {
      RunCallback();
      j := Unlocked(start, schedule, i + 1);
      if j == |schedule| { return; }
      AfterCallback(schedule[j].returnTime);
      j := Unlocked(start, schedule, j + 1);
    }
  }
}
