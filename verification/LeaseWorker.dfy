/**
 * The reconnect worker and its service-loss lease
 * (src/AidlDisplayTopologySubscriber.cpp, AidlDisplayTopologySubscription).
 *
 * The worker is the only writer of the lease; each of its locked regions and
 * each answer of the service is one event, and listeners and the destructor
 * may act between any two. An event that cannot happen changes nothing.
 * Times are nanoseconds on one timeline, the intervals of the waits milliseconds.
 */
module LeaseWorker {
  import opened Basics
  import opened DisplayTopology
  import RefreshRates
  import A = SnapshotApplier
  import R = DisplayRegistry

  const NANOS_PER_MILLI := 1_000_000

  // The lease.

  datatype Lease = Lease(authoritative: bool, deadline: Option<int>)

  function LeaseBegun(l: Lease, now: int, length: int): Lease {
    if !l.authoritative || l.deadline.Some? then l else l.(deadline := Some(now + length))
  }

  predicate Expired(l: Lease, now: int) {
    l.deadline.Some? && now >= l.deadline.value
  }

  /** The wait the worker allows itself: never past the deadline, and at most a millisecond short of it. */
  function BoundedWait(l: Lease, maximum: nat, now: int): (wait: nat)
    ensures wait <= maximum
    ensures l.deadline.None? ==> wait == maximum
    ensures l.deadline.Some? && now <= l.deadline.value ==> now + wait * NANOS_PER_MILLI <= l.deadline.value
    ensures l.deadline.Some? && now >= l.deadline.value ==> wait == 0
    ensures wait < maximum ==> l.deadline.value < now + (wait + 1) * NANOS_PER_MILLI
  {
    if l.deadline.None? then maximum
    else if now >= l.deadline.value then 0
    else Min(maximum, (l.deadline.value - now) / NANOS_PER_MILLI)
  }

  // The machine.

  datatype Pc =
    | Outer | Expiring | Connecting | Beginning
    | Registering(registering: nat)
    | Inner(epoch: nat)
    | Polling(polling: nat)
    | Polled(polled: nat)
    | InnerPause(pausing: nat)
    | InnerSleep(sleeping: nat, until: int)
    | Leaving(leaving: nat)
    | Losing | Retrying | OuterPause
    | OuterSleep(until: int)
    | Exited

  /** What happened to the lease: a poll that was applied, a failure, or a clear. */
  datatype Mark = Applied | Failure(failed: int) | Cleared(cleared: int)

  /** The length of the lease, and the longest wait of the outer and the inner loop. */
  datatype Config = Config(length: int, reconnect: nat, health: nat)

  /** `asked` and `slept` are the clock readings of the last wait: to bound it, and to start it. */
  datatype State = State(
    config: Config,
    pc: Pc,
    lease: Lease,
    stopping: bool,
    clock: int,
    asked: int,
    slept: int,
    applier: A.State,
    log: seq<Mark>)

  datatype Event =
    | CheckOuter
    | Expire(now: int)
    | Connect(found: bool)
    | BeginEpoch
    | Register(registered: bool, registerTime: int)
    | CheckInner
    | Poll(snapshot: Option<A.Snapshot>, pollTime: int)
    | EndEpoch
    | Lose(lossTime: int)
    | Retry
    | Pause(askTime: int, sleepTime: int)
    | Awake(awakeTime: int)
    | Listen(bound: nat, heard: A.Snapshot)
    | RequestStop
    | Destroy

  ghost function Start(config: Config, topology: Topology, clock: int): State {
    State(config, Outer, Lease(false, None), false, clock, clock, clock, A.Start(topology), [])
  }

  function TimeOf(e: Event): Option<int> {
    match e
    case Expire(t) => Some(t)
    case Register(_, t) => Some(t)
    case Poll(_, t) => Some(t)
    case Lose(t) => Some(t)
    case Pause(t, _) => Some(t)
    case Awake(t) => Some(t)
    case _ => None
  }

  /** A wait ends when its interval is over, or at once for the destructor. */
  predicate Possible(st: State, e: Event) {
    && (TimeOf(e).Some? ==> st.clock <= TimeOf(e).value)
    && match e
       case CheckOuter => st.pc.Outer?
       case Expire(_) => st.pc.Expiring? || st.pc.Polled?
       case Connect(_) => st.pc.Connecting?
       case BeginEpoch => st.pc.Beginning?
       case Register(_, _) => st.pc.Registering?
       case CheckInner => st.pc.Inner?
       case Poll(_, _) => st.pc.Polling?
       case EndEpoch => st.pc.Leaving?
       case Lose(_) => st.pc.Losing?
       case Retry => st.pc.Retrying?
       case Pause(asked, slept) => (st.pc.OuterPause? || st.pc.InnerPause?) && asked <= slept
       case Awake(now) => (st.pc.OuterSleep? || st.pc.InnerSleep?) && (st.stopping || now >= st.pc.until)
       case Listen(_, _) => true
       case RequestStop => true
       case Destroy => st.pc.Exited?
  }

  ghost function Applier(st: State, e: A.Event): State
    requires Valid(st.applier.topology)
  {
    st.(applier := A.Step(st.applier, e))
  }

  /** The lease after a mark. */
  function LeaseAfter(l: Lease, m: Mark, length: int): Lease {
    match m
    case Applied => Lease(true, None)
    case Failure(t) => LeaseBegun(l, t, length)
    case Cleared(_) => Lease(false, None)
  }

  function Marked(st: State, m: Mark, now: int): State {
    st.(lease := LeaseAfter(st.lease, m, st.config.length), log := st.log + [m], clock := now)
  }

  function Wait(st: State, asked: int): nat {
    var outer := st.pc.OuterPause? || st.pc.OuterSleep?;
    BoundedWait(st.lease, if outer then st.config.reconnect else st.config.health, asked)
  }

  ghost function Act(st: State, e: Event): State
    requires Possible(st, e) && Valid(st.applier.topology)
  {
    match e
    case CheckOuter => st.(pc := if st.stopping then Exited else Expiring)
    case Expire(now) =>
      var next := st.(pc := if st.pc.Expiring? then Connecting else InnerPause(st.pc.polled), clock := now);
      if Expired(st.lease, now)
      then Marked(Applier(next, A.Clear), Cleared(now), now)
      else next
    case Connect(found) => st.(pc := if found then Beginning else OuterPause)
    case BeginEpoch =>
      var next := Applier(st, A.Begin);
      next.(pc := Registering(if st.applier.stopping then 0 else next.applier.epoch))
    case Register(ok, now) =>
      var epoch := st.pc.registering;
      if epoch == 0 || !ok then Marked(Applier(st, A.End(epoch)), Failure(now), now).(pc := OuterPause)
      else st.(pc := Inner(epoch), clock := now)
    case CheckInner => st.(pc := if st.stopping then Leaving(st.pc.epoch) else Polling(st.pc.epoch))
    case Poll(snapshot, now) =>
      var epoch := st.pc.polling;
      if snapshot.None? then st.(pc := Leaving(epoch), clock := now)
      else
        var next := Applier(st, A.Apply(epoch, snapshot.value));
        if A.Answer(st.applier, epoch, snapshot.value)
        then Marked(next, Applied, now).(pc := Polled(epoch))
        else Marked(next, Failure(now), now).(pc := Polled(epoch))
    case EndEpoch => Applier(st, A.End(st.pc.leaving)).(pc := Losing)
    case Lose(now) => (if st.stopping then st.(clock := now) else Marked(st, Failure(now), now)).(pc := Retrying)
    case Retry => st.(pc := if st.stopping then Outer else OuterPause)
    case Pause(asked, slept) =>
      var until := slept + Wait(st, asked) * NANOS_PER_MILLI;
      st.(pc := if st.pc.OuterPause? then OuterSleep(until) else InnerSleep(st.pc.pausing, until),
          clock := slept, asked := asked, slept := slept)
    case Awake(now) =>
      if st.pc.OuterSleep? then st.(pc := if st.stopping then Exited else Outer, clock := now)
      else st.(pc := if st.stopping then Leaving(st.pc.sleeping) else Inner(st.pc.sleeping), clock := now)
    case Listen(bound, s) => Applier(st, A.Apply(bound, s))
    case RequestStop => st.(stopping := true)
    case Destroy => Applier(st, A.Stop)
  }

  ghost function Step(st: State, e: Event): State
    requires Valid(st.applier.topology)
  {
    if Possible(st, e) then Act(st, e) else st
  }

  lemma StepValid(st: State, e: Event)
    requires Valid(st.applier.topology)
    ensures Valid(Step(st, e).applier.topology)
  {
    match e
    case Expire(_) => A.StepValid(st.applier, A.Clear);
    case Poll(s, _) =>
      if s.Some? && st.pc.Polling? { A.StepValid(st.applier, A.Apply(st.pc.polling, s.value)); }
    case Listen(bound, s) => A.StepValid(st.applier, A.Apply(bound, s));
    case _ =>
  }

  ghost function Exec(st: State, es: seq<Event>): (end: State)
    requires Valid(st.applier.topology)
    ensures Valid(end.applier.topology)
  {
    if es == [] then st
    else
      var before := Exec(st, es[..|es| - 1]);
      StepValid(before, es[|es| - 1]);
      Step(before, es[|es| - 1])
  }

  // The life of an authority.

  datatype Phase = NoAuthority | Authoritative | Missing(since: int)

  /** Read off the log: the first failure since the last success starts the loss. */
  function PhaseOf(log: seq<Mark>): Phase {
    if log == [] then NoAuthority
    else
      var before := PhaseOf(log[..|log| - 1]);
      match log[|log| - 1]
      case Applied => Authoritative
      case Failure(t) => if before.Authoritative? then Missing(t) else before
      case Cleared(_) => NoAuthority
  }

  /** Every clear ends a loss that has lasted the whole lease. */
  ghost predicate Lawful(log: seq<Mark>, length: int) {
    forall k :: 0 <= k < |log| && log[k].Cleared? ==>
      PhaseOf(log[..k]).Missing? && log[k].cleared >= PhaseOf(log[..k]).since + length
  }

  ghost predicate Matches(l: Lease, phase: Phase, length: int) {
    match phase
    case NoAuthority => !l.authoritative && l.deadline.None?
    case Authoritative => l.authoritative && l.deadline.None?
    case Missing(since) => l.authoritative && l.deadline == Some(since + length)
  }

  /** Between the loss of one connection and the first poll of the next. */
  predicate Disconnected(pc: Pc) {
    pc.Outer? || pc.Expiring? || pc.Connecting? || pc.Beginning? || pc.Registering? || pc.Retrying?
    || pc.OuterPause? || pc.OuterSleep?
  }

  ghost predicate LeaseInv(l: Lease, log: seq<Mark>, length: int) {
    Matches(l, PhaseOf(log), length) && Lawful(log, length)
  }

  ghost predicate Inv(st: State) {
    && LeaseInv(st.lease, st.log, st.config.length)
    && (Disconnected(st.pc) && !st.stopping ==> (st.lease.authoritative <==> st.lease.deadline.Some?))
    && SleepInv(st)
  }

  /** A sleep lasts as long as the wait was bounded to. */
  ghost predicate SleepInv(st: State) {
    st.pc.OuterSleep? || st.pc.InnerSleep? ==>
      && st.asked <= st.slept <= st.clock
      && st.pc.until == st.slept + Wait(st, st.asked) * NANOS_PER_MILLI
  }

  lemma PhaseSnoc(log: seq<Mark>, m: Mark)
    ensures PhaseOf(log + [m]) ==
            match m
            case Applied => Authoritative
            case Failure(t) => if PhaseOf(log).Authoritative? then Missing(t) else PhaseOf(log)
            case Cleared(_) => NoAuthority
  {
    assert (log + [m])[..|log|] == log;
  }

  lemma LawfulSnoc(log: seq<Mark>, m: Mark, length: int)
    requires Lawful(log, length)
    requires m.Cleared? ==> PhaseOf(log).Missing? && m.cleared >= PhaseOf(log).since + length
    ensures Lawful(log + [m], length)
  {
    var log' := log + [m];
    forall k | 0 <= k < |log'| && log'[k].Cleared?
      ensures PhaseOf(log'[..k]).Missing? && log'[k].cleared >= PhaseOf(log'[..k]).since + length
    {
      if k < |log| { assert log'[..k] == log[..k] && log'[k] == log[k]; } else { assert log'[..k] == log; }
    }
  }

  lemma MarkKeeps(l: Lease, log: seq<Mark>, m: Mark, length: int)
    requires LeaseInv(l, log, length)
    requires m.Cleared? ==> Expired(l, m.cleared)
    ensures LeaseInv(LeaseAfter(l, m, length), log + [m], length)
  {
    PhaseSnoc(log, m);
    LawfulSnoc(log, m, length);
  }

  /** The mark an event leaves, if any. */
  ghost function MarkOf(st: State, e: Event): Option<Mark>
    requires Possible(st, e)
  {
    match e
    case Expire(now) => if Expired(st.lease, now) then Some(Cleared(now)) else None
    case Register(ok, now) => if st.pc.registering == 0 || !ok then Some(Failure(now)) else None
    case Poll(s, now) =>
      if s.None? then None
      else if A.Answer(st.applier, st.pc.polling, s.value) then Some(Applied)
      else Some(Failure(now))
    case Lose(now) => if st.stopping then None else Some(Failure(now))
    case _ => None
  }

  lemma MarkIs(st: State, e: Event)
    requires Possible(st, e) && Valid(st.applier.topology)
    ensures
      var next, m := Act(st, e), MarkOf(st, e);
      && next.config == st.config
      && (m.None? ==> next.lease == st.lease && next.log == st.log)
      && (m.Some? ==> next.lease == LeaseAfter(st.lease, m.value, st.config.length) && next.log == st.log + [m.value])
      && (st.stopping ==> next.stopping)
      && (Disconnected(next.pc) && !next.stopping ==> Disconnected(st.pc) || (m.Some? && m.value.Failure?))
  {}

  lemma SleepInvStep(st: State, e: Event)
    requires SleepInv(st) && Valid(st.applier.topology)
    ensures SleepInv(Step(st, e))
  {
    if Possible(st, e) && e.Pause? {
      var next := Step(st, e);
      assert Wait(next, next.asked) == Wait(st, e.askTime);
    }
  }

  lemma InvStep(st: State, e: Event)
    requires Inv(st) && Valid(st.applier.topology)
    ensures Inv(Step(st, e)) && Step(st, e).config == st.config
  {
    SleepInvStep(st, e);
    if Possible(st, e) {
      MarkIs(st, e);
      var m := MarkOf(st, e);
      if m.Some? { MarkKeeps(st.lease, st.log, m.value, st.config.length); }
    }
  }

  lemma {:induction false} InvExec(st: State, es: seq<Event>)
    requires Inv(st) && Valid(st.applier.topology)
    ensures Inv(Exec(st, es)) && Exec(st, es).config == st.config
  {
    if es != [] {
      InvExec(st, es[..|es| - 1]);
      InvStep(Exec(st, es[..|es| - 1]), es[|es| - 1]);
    }
  }

  ghost predicate PolledSinceClear(log: seq<Mark>) {
    exists s :: 0 <= s < |log| && log[s] == Applied && forall j :: s < j < |log| ==> !log[j].Cleared?
  }

  lemma {:induction false} AuthorityIs(log: seq<Mark>)
    ensures PhaseOf(log).NoAuthority? <==> !PolledSinceClear(log)
  {
    if log != [] {
      var n := |log| - 1;
      var init := log[..n];
      AuthorityIs(init);
      if log[n] == Applied { assert PolledSinceClear(log); }
      if PolledSinceClear(init) && !log[n].Cleared? {
        var s :| 0 <= s < n && init[s] == Applied && forall j :: s < j < n ==> !init[j].Cleared?;
        assert log[s] == Applied && forall j :: s < j < n ==> log[j] == init[j];
      }
      if PolledSinceClear(log) && log[n] != Applied {
        var s :| 0 <= s < |log| && log[s] == Applied && forall j :: s < j < |log| ==> !log[j].Cleared?;
        assert init[s] == Applied && forall j :: s < j < n ==> init[j] == log[j];
      }
    }
  }

  /**
   * In every reachable state the worker has authority exactly if a poll was
   * applied since the last clear; a set deadline implies authority and equals
   * the time of the first failure since the last applied poll plus the lease;
   * and while disconnected and not stopping, authority and deadline go together.
   */
  lemma LeaseFollowsLog(config: Config, topology: Topology, clock: int, es: seq<Event>)
    requires Valid(topology)
    ensures
      var st := Exec(Start(config, topology, clock), es);
      && Matches(st.lease, PhaseOf(st.log), config.length)
      && (st.lease.deadline.Some? ==> st.lease.authoritative)
      && (st.lease.authoritative <==> PolledSinceClear(st.log))
      && (Disconnected(st.pc) && !st.stopping ==> (st.lease.authoritative <==> st.lease.deadline.Some?))
  {
    InvExec(Start(config, topology, clock), es);
    AuthorityIs(Exec(Start(config, topology, clock), es).log);
  }

  /** A loss under way: one applied poll, the failure that dates it, and only failures since. */
  lemma {:induction false} MissingShape(log: seq<Mark>) returns (s: nat)
    requires PhaseOf(log).Missing?
    ensures s + 1 < |log| && log[s] == Applied && log[s + 1] == Failure(PhaseOf(log).since)
    ensures forall j :: s + 1 < j < |log| ==> log[j].Failure?
  {
    var init := log[..|log| - 1];
    if PhaseOf(init).Missing? {
      s := MissingShape(init);
    } else {
      assert init != [] && init[|init| - 1] == Applied;
      s := |log| - 2;
    }
  }

  /**
   * The only way to a clear, in every run: an applied poll, then a failure at
   * some time, then failures only, then the clear, a whole lease after the
   * first failure. So nothing moves the deadline, no applied poll lies between,
   * and one period of authority is cleared at most once.
   */
  lemma ClearedOnlyAfterLease(config: Config, topology: Topology, clock: int, es: seq<Event>, k: nat) returns (s: nat)
    requires Valid(topology)
    requires k < |Exec(Start(config, topology, clock), es).log|
    requires Exec(Start(config, topology, clock), es).log[k].Cleared?
    ensures
      var log := Exec(Start(config, topology, clock), es).log;
      && s + 1 < k && log[s] == Applied && log[s + 1].Failure?
      && log[k].cleared >= log[s + 1].failed + config.length
      && forall j :: s + 1 < j < k ==> log[j].Failure?
  {
    InvExec(Start(config, topology, clock), es);
    var log := Exec(Start(config, topology, clock), es).log;
    s := MissingShape(log[..k]);
    assert forall j :: 0 <= j < k ==> log[..k][j] == log[j];
  }

  // What an answer and a look at the clock do.

  /** The applier takes the polled snapshot: it is accepted, and of the epoch that is active. */
  ghost predicate Taken(st: State, s: A.Snapshot)
    requires st.pc.Polling?
  {
    !st.applier.stopping && st.pc.polling == st.applier.epoch && A.Accepted(s)
  }

  /**
   * A poll decides. A snapshot that is taken gives authority and ends a loss,
   * and if it is newer its displays are there; any other answer changes no
   * display, and starts the lease of a worker that holds authority.
   */
  lemma PollDecides(st: State, s: A.Snapshot, now: int)
    requires Valid(st.applier.topology) && Possible(st, Poll(Some(s), now))
    ensures
      var next := Step(st, Poll(Some(s), now));
      && next.pc == Polled(st.pc.polling)
      && next.lease == (if Taken(st, s) then Lease(true, None)
                        else if st.lease.authoritative && st.lease.deadline.None?
                        then Lease(true, Some(now + st.config.length))
                        else st.lease)
      && (if Taken(st, s) && s.generation > st.applier.lastGeneration
          then Replaced(st.applier.topology, A.Configs(s), next.applier.topology)
          else next.applier.topology == st.applier.topology)
  {
    if A.Accepted(s) { A.AcceptedSnapshotsApply(s); }
  }

  /** A connection that cannot be made, and one that is lost, start the lease of a worker with authority. */
  lemma LossStartsLease(st: State, e: Event)
    requires Valid(st.applier.topology) && Possible(st, e)
    requires (e.Register? && (!e.registered || st.pc.registering == 0)) || (e.Lose? && !st.stopping)
    ensures
      var next := Step(st, e);
      && next.applier.topology == st.applier.topology
      && next.lease == (if st.lease.authoritative && st.lease.deadline.None?
                        then Lease(true, Some(TimeOf(e).value + st.config.length)) else st.lease)
  {}

  /** A look at the clock removes the displays exactly at or after the deadline, connected or not. */
  lemma LookDecides(st: State, now: int)
    requires Valid(st.applier.topology) && Possible(st, Expire(now))
    ensures
      var next := Step(st, Expire(now));
      if st.lease.deadline.Some? && now >= st.lease.deadline.value
      then next.lease == Lease(false, None) && (!st.applier.stopping ==> next.applier.topology.Keys == {PRIMARY})
      else next.lease == st.lease && next.applier.topology == st.applier.topology
  {
    EmptyReplacement(st.applier.topology);
  }

  lemma EmptyReplacement(before: Topology)
    requires PRIMARY in before
    ensures ReplacedBy(before, []).Keys == {PRIMARY}
  {}

  /** No poll is taken, no look comes at or after the deadline, and nobody destroys the subscription. */
  ghost predicate Unserved(st: State, es: seq<Event>, deadline: int)
    requires Valid(st.applier.topology)
  {
    forall k :: 0 <= k < |es| ==>
      && !es[k].Destroy?
      && (es[k].Expire? ==> es[k].now < deadline)
      && (var before := Exec(st, es[..k]);
          es[k].Poll? && es[k].snapshot.Some? && before.pc.Polling? ==> !Taken(before, es[k].snapshot.value))
  }

  ghost predicate Leased(st: State, deadline: int) {
    Valid(st.applier.topology) && !st.applier.stopping && st.lease == Lease(true, Some(deadline))
  }

  lemma LeasedStep(st: State, e: Event, deadline: int)
    requires Leased(st, deadline) && !e.Destroy?
    requires e.Expire? ==> e.now < deadline
    requires e.Poll? && e.snapshot.Some? && st.pc.Polling? ==> !Taken(st, e.snapshot.value)
    ensures Leased(Step(st, e), deadline)
  {
    StepValid(st, e);
  }

  lemma {:induction false} LeasedExec(st: State, es: seq<Event>, deadline: int)
    requires Leased(st, deadline) && Unserved(st, es, deadline)
    ensures Leased(Exec(st, es), deadline)
  {
    if es != [] {
      var prefix := es[..|es| - 1];
      assert forall k :: 0 <= k < |prefix| ==> prefix[..k] == es[..k];
      LeasedExec(st, prefix, deadline);
      LeasedStep(Exec(st, prefix), es[|es| - 1], deadline);
    }
  }

  /** The first refused answer fixes the deadline of a worker with authority. */
  lemma RefusalLeases(st: State, s: A.Snapshot, now: int)
    requires Valid(st.applier.topology) && !st.applier.stopping && st.lease == Lease(true, None)
    requires Possible(st, Poll(Some(s), now)) && !Taken(st, s)
    ensures Leased(Step(st, Poll(Some(s), now)), now + st.config.length)
  {
    StepValid(st, Poll(Some(s), now));
  }

  /**
   * A service that answers, but with nothing that is taken, loses its displays
   * like one that is gone: nothing but a snapshot that is taken lifts the
   * deadline, and the first look at the clock from then on removes the
   * displays, whatever happens in between.
   */
  lemma LeasedDisplaysGo(st: State, deadline: int, es: seq<Event>, look: Event)
    requires Leased(st, deadline) && Unserved(st, es, deadline)
    requires look.Expire? && look.now >= deadline && Possible(Exec(st, es), look)
    ensures
      var end := Step(Exec(st, es), look);
      end.lease == Lease(false, None) && end.applier.topology.Keys == {PRIMARY}
  {
    LeasedExec(st, es, deadline);
    LookDecides(Exec(st, es), look.now);
  }

  // The epoch of a connection.

  function EpochOf(pc: Pc): Option<nat> {
    match pc
    case Registering(e) => Some(e)
    case Inner(e) => Some(e)
    case Polling(e) => Some(e)
    case Polled(e) => Some(e)
    case InnerPause(e) => Some(e)
    case InnerSleep(e, _) => Some(e)
    case Leaving(e) => Some(e)
    case _ => None
  }

  /** While connected the worker's epoch is the active one; the applier stops only once it has exited. */
  ghost predicate EpochInv(st: State) {
    && (EpochOf(st.pc).Some? ==> EpochOf(st.pc).value == st.applier.epoch && 1 <= st.applier.epoch <= A.MAX_EPOCH)
    && (st.applier.stopping ==> st.pc.Exited?)
    && st.applier.epoch <= A.MAX_EPOCH
  }

  lemma EpochInvStep(st: State, e: Event)
    requires Valid(st.applier.topology) && EpochInv(st)
    ensures EpochInv(Step(st, e))
  {
    if Possible(st, e) { ApplierStays(st, e); }
  }

  /** Only the worker's own regions begin and end epochs, and only the destructor stops the applier. */
  lemma ApplierStays(st: State, e: Event)
    requires Valid(st.applier.topology) && Possible(st, e)
    ensures !e.BeginEpoch? && !e.EndEpoch? && !e.Register? ==> Step(st, e).applier.epoch == st.applier.epoch
    ensures !e.Destroy? ==> Step(st, e).applier.stopping == st.applier.stopping
  {}

  lemma {:induction false} EpochInvExec(st: State, es: seq<Event>)
    requires Valid(st.applier.topology) && EpochInv(st)
    ensures EpochInv(Exec(st, es))
  {
    if es != [] {
      EpochInvExec(st, es[..|es| - 1]);
      EpochInvStep(Exec(st, es[..|es| - 1]), es[|es| - 1]);
    }
  }

  /** In every reachable state each acceptable snapshot that is polled is taken. */
  lemma AcceptedPollIsTaken(config: Config, topology: Topology, clock: int, es: seq<Event>, s: A.Snapshot)
    requires Valid(topology)
    ensures
      var st := Exec(Start(config, topology, clock), es);
      st.pc.Polling? ==> (Taken(st, s) <==> A.Accepted(s))
  {
    EpochInvExec(Start(config, topology, clock), es);
  }

  lemma ApplierPath(st: State, e: Event)
    requires Valid(st.applier.topology)
    ensures A.EpochPath(st.applier, Step(st, e).applier)
  {
    A.EpochStep(st.applier, A.Begin);
    A.EpochStep(st.applier, A.End(st.applier.epoch));
    assert A.EpochAfter(st.applier.epoch, 0) == st.applier.epoch;
  }

  lemma {:induction false} ApplierPathOfRun(st: State, es: seq<Event>)
    requires Valid(st.applier.topology)
    ensures A.EpochPath(st.applier, Exec(st, es).applier)
  {
    if es != [] {
      var before := Exec(st, es[..|es| - 1]);
      ApplierPathOfRun(st, es[..|es| - 1]);
      ApplierPath(before, es[|es| - 1]);
      A.PathJoin(st.applier, before.applier, Step(before, es[|es| - 1]).applier);
    }
  }

  /**
   * When a connection ends, or is not made, its listener is silenced: whatever
   * the worker does from then on, short of 2^64 - 1 epoch changes, nothing that
   * listener is told changes anything.
   */
  lemma EndedConnectionIsSilent(config: Config, topology: Topology, clock: int, past: seq<Event>, e: Event,
                                es: seq<Event>, s: A.Snapshot)
    requires Valid(topology)
    ensures
      var st := Exec(Start(config, topology, clock), past);
      Possible(st, e) && (e.EndEpoch? || (e.Register? && !e.registered)) ==>
        (StepValid(st, e);
         var epoch, end := EpochOf(st.pc).value, Exec(Step(st, e), es);
         end.applier.bumps - st.applier.bumps < A.MAX_EPOCH ==> Step(end, Listen(epoch, s)) == end)
  {
    var st := Exec(Start(config, topology, clock), past);
    EpochInvExec(Start(config, topology, clock), past);
    if Possible(st, e) && (e.EndEpoch? || (e.Register? && !e.registered)) {
      StepValid(st, e);
      var next := Step(st, e);
      assert next.applier == A.Bumped(st.applier);
      ApplierPathOfRun(next, es);
      var end := Exec(next, es);
      if end.applier.bumps - st.applier.bumps < A.MAX_EPOCH {
        A.EpochGone(st.applier, end.applier);
        OtherListener(end, EpochOf(st.pc).value, s);
      }
    }
  }

  lemma OtherListener(st: State, epoch: nat, s: A.Snapshot)
    requires Valid(st.applier.topology) && epoch != st.applier.epoch
    ensures Step(st, Listen(epoch, s)) == st
  {}

  // Going on.

  /**
   * Unless it is stopping the worker goes on. It looks for the service after
   * each wait of its search, polls after each wait of a connection, waits after
   * each answer and after each connection it failed to make or has lost, and
   * ends a connection only when a poll gets no answer.
   */
  lemma GoesOn(st: State, e: Event)
    requires Valid(st.applier.topology) && !st.stopping && OfWorker(e) && Possible(st, e)
    ensures
      var pc := Step(st, e).pc;
      match st.pc
      case Outer => pc.Expiring?
      case Expiring => pc.Connecting?
      case Connecting => if e.found then pc.Beginning? else pc.OuterPause?
      case Beginning => pc == Registering(if st.applier.stopping then 0 else A.NextEpoch(st.applier.epoch))
      case Registering(epoch) => if epoch != 0 && e.registered then pc == Inner(epoch) else pc.OuterPause?
      case Inner(epoch) => pc == Polling(epoch)
      case Polling(epoch) => if e.snapshot.Some? then pc == Polled(epoch) else pc == Leaving(epoch)
      case Polled(epoch) => pc == InnerPause(epoch)
      case InnerPause(epoch) => pc.InnerSleep? && pc.sleeping == epoch
      case InnerSleep(epoch, _) => pc == Inner(epoch)
      case Leaving(_) => pc.Losing?
      case Losing => pc.Retrying?
      case Retrying => pc.OuterPause?
      case OuterPause => pc.OuterSleep?
      case OuterSleep(_) => pc.Outer?
      case Exited => false
  {}

  /** In every run the worker exits only once a stop was asked for. */
  lemma {:induction false} ExitsOnlyWhenStopped(config: Config, topology: Topology, clock: int, es: seq<Event>)
    requires Valid(topology)
    ensures
      var st := Exec(Start(config, topology, clock), es);
      st.pc.Exited? ==> st.stopping
  {
    if es != [] {
      ExitsOnlyWhenStopped(config, topology, clock, es[..|es| - 1]);
      ExitStep(Exec(Start(config, topology, clock), es[..|es| - 1]), es[|es| - 1]);
    }
  }

  lemma ExitStep(st: State, e: Event)
    requires Valid(st.applier.topology) && (st.pc.Exited? ==> st.stopping)
    ensures Step(st, e).pc.Exited? ==> Step(st, e).stopping
  {}

  // Stopping.

  predicate OfWorker(e: Event) {
    !e.Listen? && !e.RequestStop? && !e.Destroy?
  }

  /** How far a stopped worker is from its end. */
  function ToGo(pc: Pc): nat {
    match pc
    case Exited => 0
    case Outer => 1
    case OuterSleep(_) => 1
    case OuterPause => 2
    case Retrying => 2
    case Losing => 3
    case Leaving(_) => 4
    case Inner(_) => 5
    case InnerSleep(_, _) => 5
    case InnerPause(_) => 6
    case Registering(_) => 6
    case Polled(_) => 7
    case Beginning => 7
    case Polling(_) => 8
    case Connecting => 8
    case Expiring => 9
  }

  /** The worker always has a next turn, once its wait is over; a stop ends every wait. */
  lemma WorkerNeverStuck(st: State, now: int) returns (e: Event)
    requires !st.pc.Exited? && now >= st.clock
    requires st.pc.OuterSleep? || st.pc.InnerSleep? ==> st.stopping || now >= st.pc.until
    ensures OfWorker(e) && Possible(st, e)
  {
    match st.pc
    case Outer => e := CheckOuter;
    case Expiring => e := Expire(now);
    case Connecting => e := Connect(false);
    case Beginning => e := BeginEpoch;
    case Registering(_) => e := Register(false, now);
    case Inner(_) => e := CheckInner;
    case Polling(_) => e := Poll(None, now);
    case Polled(_) => e := Expire(now);
    case InnerPause(_) => e := Pause(now, now);
    case OuterPause => e := Pause(now, now);
    case InnerSleep(_, _) => e := Awake(now);
    case OuterSleep(_) => e := Awake(now);
    case Leaving(_) => e := EndEpoch;
    case Losing => e := Lose(now);
    case Retrying => e := Retry;
  }

  /** The turns of the worker in a run. */
  ghost function Turns(st: State, es: seq<Event>): nat
    requires Valid(st.applier.topology)
  {
    if es == [] then 0
    else
      var e := es[|es| - 1];
      Turns(st, es[..|es| - 1]) + (if OfWorker(e) && Possible(Exec(st, es[..|es| - 1]), e) then 1 else 0)
  }

  lemma StoppedTurn(st: State, e: Event)
    requires Valid(st.applier.topology) && st.stopping
    ensures Step(st, e).stopping
    ensures ToGo(Step(st, e).pc) + (if OfWorker(e) && Possible(st, e) then 1 else 0) <= ToGo(st.pc)
  {}

  lemma {:induction false} StoppedRun(st: State, es: seq<Event>)
    requires Valid(st.applier.topology) && st.stopping
    ensures Exec(st, es).stopping && ToGo(Exec(st, es).pc) + Turns(st, es) <= ToGo(st.pc)
  {
    if es != [] {
      StoppedRun(st, es[..|es| - 1]);
      StoppedTurn(Exec(st, es[..|es| - 1]), es[|es| - 1]);
    }
  }

  /**
   * A stop ends the worker: whatever the service answers and the others do,
   * each of its turns brings it closer, and after at most nine it has exited.
   */
  lemma StopEnds(st: State, es: seq<Event>)
    requires Valid(st.applier.topology)
    ensures
      var stopped := Step(st, RequestStop);
      Exec(stopped, es).stopping && ToGo(Exec(stopped, es).pc) + Turns(stopped, es) <= ToGo(st.pc) <= 9
  {
    StoppedRun(Step(st, RequestStop), es);
  }

  // Losing the service for good.

  /** The reconnect loop without a service. */
  predicate Searching(pc: Pc) {
    pc.Outer? || pc.Expiring? || pc.Connecting? || pc.OuterPause? || pc.OuterSleep?
  }

  /** The service never answers again; listeners of dead epochs may still be called. */
  ghost predicate ServiceGone(epoch: nat, es: seq<Event>) {
    forall k :: 0 <= k < |es| ==>
      || es[k].CheckOuter? || es[k].Expire? || es[k] == Connect(false) || es[k].Pause? || es[k].Awake?
      || (es[k].Listen? && es[k].bound != epoch)
  }

  ghost predicate Live(st: State) {
    && Inv(st) && Valid(st.applier.topology) && Searching(st.pc) && !st.stopping && !st.applier.stopping
  }

  ghost predicate Retained(st: State, end: State) {
    && end.lease == st.lease && end.applier.topology == st.applier.topology
  }

  ghost predicate Emptied(st: State, end: State) {
    && st.lease.deadline.Some? && end.clock >= st.lease.deadline.value
    && end.lease == Lease(false, None) && end.applier.topology.Keys == {PRIMARY}
  }

  lemma SearchStep(st: State, e: Event)
    requires Live(st) && ServiceGone(st.applier.epoch, [e])
    ensures
      var next := Step(st, e);
      && Live(next) && next.applier.epoch == st.applier.epoch
      && st.clock <= next.clock
      && (Retained(st, next) || Emptied(st, next))
  {
    assert [e][0] == e;
    InvStep(st, e);
    StepValid(st, e);
    if e.Expire? { SearchLook(st, e); } else { SearchTurn(st, e); }
  }

  lemma SearchLook(st: State, e: Event)
    requires Live(st) && e.Expire?
    ensures
      var next := Step(st, e);
      && Searching(next.pc) && next.stopping == st.stopping && next.applier.stopping == st.applier.stopping
      && next.applier.epoch == st.applier.epoch && st.clock <= next.clock
      && (Retained(st, next) || Emptied(st, next))
  {
    EmptyReplacement(st.applier.topology);
  }

  lemma SearchTurn(st: State, e: Event)
    requires Live(st) && ServiceGone(st.applier.epoch, [e]) && !e.Expire?
    ensures
      var next := Step(st, e);
      && Searching(next.pc) && next.stopping == st.stopping && next.applier == st.applier
      && st.clock <= next.clock && next.lease == st.lease
  {
    assert [e][0] == e;
  }

  /**
   * While the service stays away the external displays are retained until the
   * deadline and then removed, exactly if the worker held an authoritative
   * snapshot when it was lost. Without one they are never removed.
   */
  lemma {:induction false} LossOutcome(st: State, es: seq<Event>)
    requires Live(st) && ServiceGone(st.applier.epoch, es)
    ensures
      var end := Exec(st, es);
      && Live(end) && end.applier.epoch == st.applier.epoch && st.clock <= end.clock
      && (Retained(st, end) || Emptied(st, end))
      && (!st.lease.authoritative ==> Retained(st, end))
  {
    if es != [] {
      var prefix, e := es[..|es| - 1], es[|es| - 1];
      assert ServiceGone(st.applier.epoch, prefix) && ServiceGone(st.applier.epoch, [e]);
      LossOutcome(st, prefix);
      SearchStep(Exec(st, prefix), e);
    }
  }

  lemma ExecSnoc(st: State, es: seq<Event>, e: Event)
    requires Valid(st.applier.topology)
    ensures Exec(st, es + [e]) == Step(Exec(st, es), e)
  {
    assert (es + [e])[..|es|] == es;
  }

  lemma {:induction false} ExecJoin(st: State, es: seq<Event>, fs: seq<Event>)
    requires Valid(st.applier.topology)
    ensures Exec(st, es + fs) == Exec(Exec(st, es), fs)
    decreases |fs|
  {
    if fs == [] {
      assert es + fs == es;
    } else {
      var n := |fs| - 1;
      ExecJoin(st, es, fs[..n]);
      assert es + fs == es + fs[..n] + [fs[n]];
      ExecSnoc(st, es + fs[..n], fs[n]);
    }
  }

  /**
   * Once the search has looked at the clock at or after the deadline, its
   * displays are gone, and stay gone, exactly if the worker had authority: in
   * every run without the service, wherever in the run that look is.
   */
  lemma RemovedExactlyWithAuthority(st: State, es: seq<Event>, k: nat)
    requires Live(st) && ServiceGone(st.applier.epoch, es)
    requires k < |es| && es[k].Expire? && Possible(Exec(st, es[..k]), es[k])
    requires st.lease.deadline.Some? ==> es[k].now >= st.lease.deadline.value
    ensures Emptied(st, Exec(st, es)) <==> st.lease.authoritative
  {
    if st.lease.authoritative {
      var before, later := es[..k], es[k + 1..];
      assert ServiceGone(st.applier.epoch, before) && ServiceGone(st.applier.epoch, later);
      SplitAt(st, es, k);
      LossOutcome(st, before);
      LookEmpties(st, Exec(st, before), es[k]);
      StaysEmpty(st, Exec(st, es[..k + 1]), later);
    }
  }

  lemma SplitAt(st: State, es: seq<Event>, k: nat)
    requires Valid(st.applier.topology) && k < |es|
    ensures Exec(st, es[..k + 1]) == Step(Exec(st, es[..k]), es[k])
    ensures Exec(st, es) == Exec(Exec(st, es[..k + 1]), es[k + 1..])
  {
    assert es[..k + 1] == es[..k] + [es[k]];
    assert es == es[..k + 1] + es[k + 1..];
    ExecSnoc(st, es[..k], es[k]);
    ExecJoin(st, es[..k + 1], es[k + 1..]);
  }

  lemma LookEmpties(st: State, mid: State, look: Event)
    requires Live(st) && st.lease.authoritative && look.Expire? && look.now >= st.lease.deadline.value
    requires Live(mid) && Possible(mid, look) && (Retained(st, mid) || Emptied(st, mid))
    requires mid.applier.epoch == st.applier.epoch
    ensures Live(Step(mid, look)) && Emptied(st, Step(mid, look))
    ensures Step(mid, look).applier.epoch == st.applier.epoch
  {
    assert ServiceGone(mid.applier.epoch, [look]);
    SearchStep(mid, look);
    EmptyReplacement(mid.applier.topology);
  }

  lemma StaysEmpty(st: State, mid: State, es: seq<Event>)
    requires Live(mid) && Emptied(st, mid) && ServiceGone(mid.applier.epoch, es)
    ensures Emptied(st, Exec(mid, es))
  {
    LossOutcome(mid, es);
  }

  /**
   * The promise for a lost service, over every run of the worker: at a moment
   * of its search, the displays will be removed, by the first look at the
   * clock at or after the deadline, exactly if a poll was applied since the
   * last removal.
   */
  lemma RemovedExactlyIfPolled(config: Config, topology: Topology, clock: int, past: seq<Event>,
                               es: seq<Event>, k: nat)
    requires Valid(topology)
    requires
      var st := Exec(Start(config, topology, clock), past);
      && Searching(st.pc) && !st.stopping && !st.applier.stopping && ServiceGone(st.applier.epoch, es)
      && k < |es| && es[k].Expire? && Possible(Exec(st, es[..k]), es[k])
      && (st.lease.deadline.Some? ==> es[k].now >= st.lease.deadline.value)
    ensures
      var st := Exec(Start(config, topology, clock), past);
      Emptied(st, Exec(st, es)) <==> PolledSinceClear(st.log)
  {
    InvExec(Start(config, topology, clock), past);
    LeaseFollowsLog(config, topology, clock, past);
    RemovedExactlyWithAuthority(Exec(Start(config, topology, clock), past), es, k);
  }

  /**
   * No wait of the worker is longer than its interval, nor outlasts the lease by
   * more than the time between its two clock readings.
   */
  lemma NeverOversleeps(config: Config, topology: Topology, clock: int, es: seq<Event>)
    requires Valid(topology)
    ensures
      var st := Exec(Start(config, topology, clock), es);
      && (st.pc.OuterSleep? ==> st.pc.until <= st.slept + config.reconnect * NANOS_PER_MILLI)
      && (st.pc.InnerSleep? ==> st.pc.until <= st.slept + config.health * NANOS_PER_MILLI)
      && ((st.pc.OuterSleep? || st.pc.InnerSleep?) && st.lease.deadline.Some? ==>
            st.pc.until <= Max(st.slept, st.lease.deadline.value + (st.slept - st.asked)))
  {
    InvExec(Start(config, topology, clock), es);
  }

  /** A sleeping worker may wake later than it asked for by the time between its two clock readings. */
  function Skew(st: State): int {
    if st.pc.OuterSleep? then st.slept - st.asked else 0
  }

  function Rank(pc: Pc): nat {
    match pc
    case Expiring => 1
    case Outer => 2
    case OuterSleep(_) => 3
    case OuterPause => 4
    case Connecting => 5
    case _ => 0
  }

  /** The next turns of a worker that searches in vain, up to its next look at the clock. */
  function SearchTurns(pc: Pc, now: int): seq<Event>
    decreases Rank(pc)
  {
    match pc
    case Expiring => [Expire(now)]
    case Outer => [CheckOuter] + SearchTurns(Expiring, now)
    case OuterSleep(_) => [Awake(now)] + SearchTurns(Outer, now)
    case OuterPause => [Pause(now, now)] + SearchTurns(OuterSleep(now), now)
    case Connecting => [Connect(false)] + SearchTurns(OuterPause, now)
    case _ => []
  }

  ghost predicate Overdue(st: State, now: int) {
    && Live(st) && st.lease.authoritative
    && now >= st.clock && now >= st.lease.deadline.value + Skew(st)
  }

  lemma OverdueTurn(st: State, now: int)
    requires Overdue(st, now) && !st.pc.Expiring?
    ensures
      var e := SearchTurns(st.pc, now)[0];
      var next := Step(st, e);
      && SearchTurns(st.pc, now) == [e] + SearchTurns(next.pc, now)
      && Overdue(next, now) && next.lease == st.lease && Rank(next.pc) < Rank(st.pc)
  {
    var e := SearchTurns(st.pc, now)[0];
    assert [e][0] == e;
    SearchStep(st, e);
    if st.pc.OuterSleep? { SleepIsOver(st, now); }
  }

  lemma SleepIsOver(st: State, now: int)
    requires Overdue(st, now) && st.pc.OuterSleep?
    ensures Possible(st, Awake(now))
  {}

  lemma OverdueLook(st: State, now: int)
    requires Overdue(st, now) && st.pc.Expiring?
    ensures Emptied(st, Step(st, Expire(now)))
  {
    EmptyReplacement(st.applier.topology);
  }

  /**
   * The deadline is not slept past: wherever the search is, from the deadline
   * on its waits are over, and its own next turns remove the displays.
   */
  lemma {:induction false} DeadlineIsKept(st: State, now: int)
    requires Live(st) && st.lease.authoritative
    requires now >= st.clock && now >= st.lease.deadline.value + Skew(st)
    ensures Emptied(st, Exec(st, SearchTurns(st.pc, now)))
    decreases Rank(st.pc)
  {
    var e := SearchTurns(st.pc, now)[0];
    ExecSnoc(st, [], e);
    assert [] + [e] == [e];
    if st.pc.Expiring? {
      OverdueLook(st, now);
    } else {
      OverdueTurn(st, now);
      ExecJoin(st, [e], SearchTurns(Step(st, e).pc, now));
      DeadlineIsKept(Step(st, e), now);
    }
  }

  lemma Extend(st0: State, es: seq<Event>, st: State, e: Event) returns (es': seq<Event>, st': State)
    requires Valid(st0.applier.topology) && st == Exec(st0, es)
    ensures st' == Step(st, e) && st' == Exec(st0, es') && Valid(st'.applier.topology)
  {
    ExecSnoc(st0, es, e);
    es', st' := es + [e], Step(st, e);
  }

  /** The worker connects, and registers a listener for epoch 1. */
  lemma Connected(config: Config, topology: Topology, clock: int) returns (es: seq<Event>, st: State)
    requires Valid(topology)
    ensures st == Exec(Start(config, topology, clock), es) && Valid(st.applier.topology)
    ensures st == Start(config, topology, clock).(pc := Inner(1), applier := A.Step(A.Start(topology), A.Begin))
  {
    var st0 := Start(config, topology, clock);
    es, st := Extend(st0, [], st0, CheckOuter);
    es, st := Extend(st0, es, st, Expire(clock));
    es, st := Extend(st0, es, st, Connect(true));
    es, st := Extend(st0, es, st, BeginEpoch);
    es, st := Extend(st0, es, st, Register(true, clock));
  }

  /** The service dies before its first poll, and its epoch ends. */
  lemma DiesBeforePoll(st0: State, es: seq<Event>, st: State) returns (es': seq<Event>, st': State)
    requires Valid(st0.applier.topology) && st == Exec(st0, es)
    requires st.pc == Inner(st.applier.epoch) && !st.stopping
    ensures st' == Exec(st0, es')
    ensures st' == st.(pc := Pc.Losing, applier := A.Bumped(st.applier))
  {
    es', st' := Extend(st0, es, st, CheckInner);
    es', st' := Extend(st0, es', st', Poll(None, st.clock));
    es', st' := Extend(st0, es', st', EndEpoch);
  }

  /** The worker is back in its search, with no lease. */
  lemma LosesNothing(st0: State, es: seq<Event>, st: State) returns (es': seq<Event>, st': State)
    requires Valid(st0.applier.topology) && st == Exec(st0, es)
    requires st.pc.Losing? && !st.stopping && !st.lease.authoritative
    ensures st' == Exec(st0, es')
    ensures st'.pc.OuterPause? && !st'.stopping && st'.lease == st.lease && st'.applier == st.applier
  {
    es', st' := Extend(st0, es, st, Lose(st.clock));
    assert st'.pc.Retrying? && st'.lease == st.lease && st'.applier == st.applier && !st'.stopping;
    es', st' := Extend(st0, es', st', Retry);
  }

  /**
   * A snapshot that only the listener applied arms no lease. For every accepted
   * snapshot there is a run in which the listener applies it, the service dies
   * before its first poll, and no absence of the service, however long, ever
   * removes its displays.
   */
  lemma ListenerOnlySnapshotStays(config: Config, topology: Topology, clock: int, s: A.Snapshot)
    returns (es: seq<Event>)
    requires Valid(topology) && A.Accepted(s)
    ensures
      var st := Exec(Start(config, topology, clock), es);
      && Live(st) && !st.lease.authoritative
      && Replaced(topology, A.Configs(s), st.applier.topology)
      && forall more :: ServiceGone(st.applier.epoch, more) ==> Exec(st, more).applier.topology == st.applier.topology
  {
    var st0 := Start(config, topology, clock);
    var st;
    es, st := Connected(config, topology, clock);
    A.AcceptedSnapshotsApply(s);
    assert A.Mutates(st.applier, 1, s);
    es, st := Extend(st0, es, st, Listen(1, s));
    assert Replaced(topology, A.Configs(s), st.applier.topology);
    es, st := DiesBeforePoll(st0, es, st);
    es, st := LosesNothing(st0, es, st);
    InvExec(st0, es);
    NeverRemoved(st);
  }

  lemma NeverRemoved(st: State)
    requires Live(st) && !st.lease.authoritative
    ensures forall more :: ServiceGone(st.applier.epoch, more) ==>
              Exec(st, more).applier.topology == st.applier.topology
  {
    forall more | ServiceGone(st.applier.epoch, more)
      ensures Exec(st, more).applier.topology == st.applier.topology
    {
      LossOutcome(st, more);
    }
  }

  // Shutdown.

  lemma StoppedStep(st: State, e: Event)
    requires Valid(st.applier.topology) && st.applier.stopping
    ensures Step(st, e).applier.stopping && Step(st, e).applier.topology == st.applier.topology
  {}

  lemma {:induction false} StaysStopped(st: State, es: seq<Event>)
    requires Valid(st.applier.topology) && st.applier.stopping
    ensures Exec(st, es).applier.stopping && Exec(st, es).applier.topology == st.applier.topology
  {
    if es != [] {
      StaysStopped(st, es[..|es| - 1]);
      StoppedStep(Exec(st, es[..|es| - 1]), es[|es| - 1]);
    }
  }

  /** Once the destructor is through, nothing changes the topology, whatever late listeners are told. */
  lemma NothingAfterDestroy(st: State, es: seq<Event>)
    requires Valid(st.applier.topology) && Possible(st, Destroy)
    ensures Exec(Step(st, Destroy), es).applier.topology == st.applier.topology
  {
    StaysStopped(Step(st, Destroy), es);
  }

  // The class.

  /** Impossible events change nothing, so leaving them out of a schedule loses no run. */
  ghost predicate Schedulable(st: State, es: seq<Event>) {
    Valid(st.applier.topology) && forall i :: 0 <= i < |es| ==> Possible(Exec(st, es[..i]), es[i])
  }

  /** Where the worker may be after its next region. */
  predicate Leads(before: Pc, after: Pc) {
    match before
    case Outer => after.Expiring? || after.Exited?
    case Expiring => after.Connecting?
    case Connecting => after.Beginning? || after.OuterPause?
    case Beginning => after.Registering?
    case Registering(_) => after.Inner? || after.OuterPause?
    case Inner(_) => after.Polling? || after.Leaving?
    case Polling(_) => after.Polled? || after.Leaving?
    case Polled(_) => after.InnerPause?
    case InnerPause(_) => after.InnerSleep?
    case InnerSleep(_, _) => after.Inner? || after.Leaving?
    case Leaving(_) => after.Losing?
    case Losing => after.Retrying?
    case Retrying => after.Outer? || after.OuterPause?
    case OuterPause => after.OuterSleep?
    case OuterSleep(_) => after.Outer? || after.Exited?
    case Exited => false
  }

  lemma StepLeads(st: State, e: Event)
    requires Valid(st.applier.topology) && OfWorker(e) && Possible(st, e)
    ensures Leads(st.pc, Step(st, e).pc)
  {}

  lemma PauseIs(st: State, asked: int, slept: int)
    requires Valid(st.applier.topology) && Possible(st, Pause(asked, slept))
    ensures
      var until := slept + Wait(st, asked) * NANOS_PER_MILLI;
      Step(st, Pause(asked, slept))
        == st.(pc := if st.pc.OuterPause? then OuterSleep(until) else InnerSleep(st.pc.pausing, until),
               clock := slept, asked := asked, slept := slept)
  {}

  function Positive(millis: int, otherwise: nat): nat {
    if millis <= 0 then otherwise else millis
  }

  class DisplayTopologySubscription {
    const applier: A.TopologySnapshotApplier
    const config: Config
    var pc: Pc
    var authoritative: bool
    var deadline: Option<int>
    var stopping: bool
    ghost var clock: int
    ghost var asked: int
    ghost var slept: int
    ghost var log: seq<Mark>

    ghost function Current(): State
      reads this, applier, applier.target, applier.target.topology
    {
      State(config, pc, Lease(authoritative, deadline), stopping, clock, asked, slept, applier.Current(), log)
    }

    ghost predicate Ready()
      reads this, applier, applier.target, applier.target.topology
    {
      applier.Ready()
    }

    /** All intervals in milliseconds; one that is not positive gets its default. */
    constructor (registry: R.DisplayRegistry, reconnect: int, health: int, lease: int, ghost now: int)
      requires R.Inv(registry.Current())
      ensures Ready() && applier.target == registry && fresh(applier)
      ensures Current() == Start(config, registry.topology.displays, now)
      ensures config.reconnect == if reconnect > 0 then reconnect else 250
      ensures config.health == if health > 0 then health else 1000
      ensures config.length == if lease > 0 then lease * NANOS_PER_MILLI else 3 * 1000 * NANOS_PER_MILLI
    {
      applier := new A.TopologySnapshotApplier(registry);
      config := Config(Positive(lease, 3000) * NANOS_PER_MILLI, Positive(reconnect, 250), Positive(health, 1000));
      pc, authoritative, deadline, stopping := Outer, false, None, false;
      clock, asked, slept, log := now, now, now, [];
    }

    method BeginServiceLossLease(now: int)
      modifies this
      ensures Current() == Marked(old(Current()), Failure(now), now)
    {
      log := log + [Failure(now)];
      clock := now;
      if !authoritative || deadline.Some? { return; }
      deadline := Some(now + config.length);
    }

    method ExpireServiceLossLeaseIfNeeded(now: int)
      requires Ready() && Possible(Current(), Expire(now))
      modifies this, applier, applier.target, applier.target.topology
      ensures Ready() && Current() == Step(old(Current()), Expire(now))
    {
      clock := now;
      pc := if pc.Expiring? then Connecting else InnerPause(pc.polled);
      if deadline.None? || now < deadline.value { return; }
      ClearNow(now);
    }

    method ClearNow(now: int)
      requires Ready() && clock == now
      modifies this, applier, applier.target, applier.target.topology
      ensures Ready() && Current() == Marked(Applier(old(Current()), A.Clear), Cleared(now), now)
    {
      deadline := None;
      authoritative := false;
      log := log + [Cleared(now)];
      var _ := applier.ClearExternalDisplays();
    }

    /** The rest of the inner loop's body, up to the expiry check. */
    method PollOnce(snapshot: Option<A.Snapshot>, now: int)
      requires Ready() && Possible(Current(), Poll(snapshot, now))
      modifies this, applier, applier.target, applier.target.topology
      ensures Ready() && Current() == Step(old(Current()), Poll(snapshot, now))
    {
      var epoch := pc.polling;
      if snapshot.None? {
        pc, clock := Leaving(epoch), now;
        return;
      }
      var applied := applier.Apply(epoch, snapshot.value);
      pc := Polled(epoch);
      RecordPoll(applied, now);
    }

    method RecordPoll(applied: bool, now: int)
      modifies this
      ensures Current() == Marked(old(Current()), if applied then Applied else Failure(now), now)
    {
      if applied {
        authoritative := true;
        deadline := None;
        log, clock := log + [Applied], now;
      } else {
        BeginServiceLossLease(now);
      }
    }

    method RegisterOnce(registered: bool, now: int)
      requires Ready() && Possible(Current(), Register(registered, now))
      modifies this, applier
      ensures Ready() && Current() == Step(old(Current()), Register(registered, now))
    {
      var epoch := pc.registering;
      if epoch == 0 || !registered {
        applier.EndServiceEpoch(epoch);
        BeginServiceLossLease(now);
        pc := OuterPause;
      } else {
        pc, clock := Inner(epoch), now;
      }
    }

    /** BoundedWait at `asked`, and WaitFor, which starts at `started` and then sleeps. */
    method WaitFor(askTime: int, started: int)
      requires Ready() && Possible(Current(), Pause(askTime, started))
      modifies this
      ensures Ready() && Current() == Step(old(Current()), Pause(askTime, started))
    {
      PauseIs(Current(), askTime, started);
      var maximum := if pc.OuterPause? then config.reconnect else config.health;
      var wait := BoundedWait(Lease(authoritative, deadline), maximum, askTime);
      var until := started + wait * NANOS_PER_MILLI;
      pc := if pc.OuterPause? then OuterSleep(until) else InnerSleep(pc.pausing, until);
      clock, asked, slept := started, askTime, started;
    }

    /** The worker's turns between two calls of the service or the applier. */
    method Turn(e: Event)
      requires Ready() && Possible(Current(), e)
      requires e.CheckOuter? || e.Connect? || e.CheckInner? || e.Lose? || e.Retry? || e.Pause? || e.Awake?
               || e.RequestStop?
      modifies this
      ensures Ready() && Current() == Step(old(Current()), e)
    {
      match e
      case CheckOuter => pc := if stopping then Exited else Expiring;
      case Connect(found) => pc := if found then Beginning else OuterPause;
      case CheckInner => pc := if stopping then Leaving(pc.epoch) else Polling(pc.epoch);
      case Retry => pc := if stopping then Outer else OuterPause;
      case Pause(asked, slept) => WaitFor(asked, slept);
      case Awake(now) =>
        clock := now;
        if pc.OuterSleep? {
          pc := if stopping then Exited else Outer;
        } else {
          pc := if stopping then Leaving(pc.sleeping) else Inner(pc.sleeping);
        }
      case Lose(now) =>
        if stopping { clock := now; } else { BeginServiceLossLease(now); }
        pc := Retrying;
      case RequestStop => stopping := true;
    }

    method StartEpoch()
      requires Ready() && Possible(Current(), BeginEpoch)
      modifies this, applier
      ensures Ready() && Current() == Step(old(Current()), BeginEpoch)
    {
      var epoch := applier.BeginServiceEpoch();
      pc := Registering(epoch);
    }

    method FinishEpoch()
      requires Ready() && Possible(Current(), EndEpoch)
      modifies this, applier
      ensures Ready() && Current() == Step(old(Current()), EndEpoch)
    {
      applier.EndServiceEpoch(pc.leaving);
      pc := Pc.Losing;
    }

    /** A region of the worker, or one of its calls of the service. */
    method WorkerTurn(e: Event)
      requires Ready() && Possible(Current(), e) && OfWorker(e)
      modifies this, applier, applier.target, applier.target.topology
      ensures Ready() && Current() == Step(old(Current()), e)
    {
      match e
      case Expire(now) => ExpireServiceLossLeaseIfNeeded(now);
      case Register(registered, now) => RegisterOnce(registered, now);
      case Poll(snapshot, now) => PollOnce(snapshot, now);
      case BeginEpoch => StartEpoch();
      case EndEpoch => FinishEpoch();
      case CheckOuter => Turn(e);
      case Connect(_) => Turn(e);
      case CheckInner => Turn(e);
      case Lose(_) => Turn(e);
      case Retry => Turn(e);
      case Pause(_, _) => Turn(e);
      case Awake(_) => Turn(e);
    }

    /** A listener, or a part of the destructor. */
    method Call(e: Event)
      requires Ready() && Possible(Current(), e) && !OfWorker(e)
      modifies this, applier, applier.target, applier.target.topology
      ensures Ready() && Current() == Step(old(Current()), e) && pc == old(pc)
    {
      match e
      case Destroy => applier.Shutdown();
      case Listen(bound, s) => var _ := applier.Apply(bound, s);
      case RequestStop => Turn(e);
    }

    /** The first i events of the schedule are done. */
    ghost predicate Done(start: State, schedule: seq<Event>, i: nat)
      requires Schedulable(start, schedule)
      reads this, applier, applier.target, applier.target.topology
    {
      Ready() && i <= |schedule| && Current() == Exec(start, schedule[..i])
    }

    /** Besides, the next event is the worker's. */
    ghost predicate At(start: State, schedule: seq<Event>, i: nat)
      requires Schedulable(start, schedule)
      reads this, applier, applier.target, applier.target.topology
    {
      && Done(start, schedule, i)
      && (i < |schedule| ==> OfWorker(schedule[i]) && Possible(Current(), schedule[i]) && !pc.Exited?)
    }

    method CallNext(ghost start: State, schedule: seq<Event>, i: nat)
      requires Schedulable(start, schedule) && Done(start, schedule, i) && i < |schedule| && !OfWorker(schedule[i])
      modifies this, applier, applier.target, applier.target.topology
      ensures Done(start, schedule, i + 1) && pc == old(pc)
    {
      SplitAt(start, schedule, i);
      Call(schedule[i]);
    }

    /** What listeners and the destructor do from entry i on, between two regions of the worker. */
    method Unlocked(ghost start: State, schedule: seq<Event>, i: nat) returns (j: nat)
      requires Schedulable(start, schedule) && Done(start, schedule, i)
      modifies this, applier, applier.target, applier.target.topology
      ensures i <= j && At(start, schedule, j) && pc == old(pc)
    {
      j := i;
      while j < |schedule| && !OfWorker(schedule[j])
        invariant i <= j && Done(start, schedule, j) && pc == old(pc)
        decreases |schedule| - j
      {
        CallNext(start, schedule, j);
        j := j + 1;
      }
    }

    method TurnNext(ghost start: State, schedule: seq<Event>, i: nat)
      requires Schedulable(start, schedule) && At(start, schedule, i) && i < |schedule|
      modifies this, applier, applier.target, applier.target.topology
      ensures Done(start, schedule, i + 1) && Leads(old(pc), pc)
    {
      SplitAt(start, schedule, i);
      StepLeads(Current(), schedule[i]);
      WorkerTurn(schedule[i]);
    }

    /** The worker's next region, and what the others do after it. */
    method Next(ghost start: State, schedule: seq<Event>, i: nat) returns (j: nat)
      requires Schedulable(start, schedule) && At(start, schedule, i) && i < |schedule|
      modifies this, applier, applier.target, applier.target.topology
      ensures i < j && At(start, schedule, j) && Leads(old(pc), pc)
    {
      TurnNext(start, schedule, i);
      j := Unlocked(start, schedule, i + 1);
    }

    /**
     * The worker's loop. The schedule gives the answers of the service, the
     * clock readings and what listeners and the destructor do in between; it
     * may end anywhere.
     */
    method Run(schedule: seq<Event>)
      requires Ready() && pc.Outer? && Schedulable(Current(), schedule)
      modifies this, applier, applier.target, applier.target.topology
      ensures Ready() && Current() == Exec(old(Current()), schedule)
    {
      ghost var start := Current();
      var i := Unlocked(start, schedule, 0);
      while i < |schedule|
        invariant At(start, schedule, i) && (i == |schedule| || pc.Outer?)
      {
        i := Next(start, schedule, i);
        if i < |schedule| { i := Connection(start, schedule, i); }
        if i < |schedule| && pc.OuterPause? { i := Rest(start, schedule, i); }
      }
      assert schedule[..i] == schedule;
    }

    /** From the expiry check to the end of the connection, if there is one. */
    method Connection(ghost start: State, schedule: seq<Event>, i: nat) returns (j: nat)
      requires Schedulable(start, schedule) && At(start, schedule, i) && i < |schedule| && pc.Expiring?
      modifies this, applier, applier.target, applier.target.topology
      ensures i < j && At(start, schedule, j) && (j == |schedule| || pc.OuterPause? || pc.Outer?)
    {
      j := Next(start, schedule, i);
      if j == |schedule| { return; }
      j := Next(start, schedule, j);
      if j == |schedule| || pc.OuterPause? { return; }
      j := Next(start, schedule, j);
      if j == |schedule| { return; }
      j := Next(start, schedule, j);
      if j == |schedule| || pc.OuterPause? { return; }
      j := Polls(start, schedule, j);
      if j < |schedule| { j := Leave(start, schedule, j); }
    }

    /** The inner loop. */
    method Polls(ghost start: State, schedule: seq<Event>, i: nat) returns (j: nat)
      requires Schedulable(start, schedule) && At(start, schedule, i) && i < |schedule| && pc.Inner?
      modifies this, applier, applier.target, applier.target.topology
      ensures i < j && At(start, schedule, j) && (j == |schedule| || pc.Leaving?)
    {
      j := i;
      while j < |schedule| && pc.Inner?
        invariant i <= j && At(start, schedule, j)
        invariant j == |schedule| || pc.Inner? || (pc.Leaving? && i < j)
        decreases |schedule| - j
      {
        j := PollRound(start, schedule, j);
      }
    }

    method PollRound(ghost start: State, schedule: seq<Event>, i: nat) returns (j: nat)
      requires Schedulable(start, schedule) && At(start, schedule, i) && i < |schedule| && pc.Inner?
      modifies this, applier, applier.target, applier.target.topology
      ensures i < j && At(start, schedule, j) && (j == |schedule| || pc.Inner? || pc.Leaving?)
    {
      j := Next(start, schedule, i);
      if j == |schedule| || pc.Leaving? { return; }
      j := Next(start, schedule, j);
      if j == |schedule| || pc.Leaving? { return; }
      j := Next(start, schedule, j);
      if j == |schedule| { return; }
      j := Rest(start, schedule, j);
    }

    /** A wait: bounded by the lease, then slept. */
    method Rest(ghost start: State, schedule: seq<Event>, i: nat) returns (j: nat)
      requires Schedulable(start, schedule) && At(start, schedule, i) && i < |schedule|
      requires pc.InnerPause? || pc.OuterPause?
      modifies this, applier, applier.target, applier.target.topology
      ensures i < j && At(start, schedule, j)
      ensures j == |schedule| || if old(pc.OuterPause?) then pc.Outer? else pc.Inner? || pc.Leaving?
    {
      j := Next(start, schedule, i);
      if j < |schedule| { j := Next(start, schedule, j); }
    }

    /** The end of a connection: the epoch ends, and a loss begins unless stopping. */
    method Leave(ghost start: State, schedule: seq<Event>, i: nat) returns (j: nat)
      requires Schedulable(start, schedule) && At(start, schedule, i) && i < |schedule| && pc.Leaving?
      modifies this, applier, applier.target, applier.target.topology
      ensures i < j && At(start, schedule, j) && (j == |schedule| || pc.OuterPause? || pc.Outer?)
    {
      j := Next(start, schedule, i);
      if j == |schedule| { return; }
      j := Next(start, schedule, j);
      if j == |schedule| { return; }
      j := Next(start, schedule, j);
    }
  }
}
