/**
 * The cached stream states of the consumer endpoint
 * (src/AidlFrameConsumerEndpoint.cpp): a worker that connects and polls, and
 * submitting and registering threads that disconnect a consumer which failed.
 *
 * The worker holds the mutex to look at the connection, to publish one and to
 * write a state; it connects, polls and calls back without it.
 */
module StreamStates {
  import opened Basics

  datatype StreamState = StreamState(generation: nat, accepting: bool)

  const INACTIVE := StreamState(0, false)

  const MAX_INT64 := 0x7FFF_FFFF_FFFF_FFFF

  /** A consumer's answer about a display. */
  datatype Answer = Answer(display: int, generation: int, accepting: bool)

  function Cached(display: nat, a: Answer): StreamState {
    if a.display == display && a.generation >= 0 then StreamState(a.generation, a.accepting) else INACTIVE
  }

  datatype Pc =
    | Top
    | Choosing
    | Connecting
    | Publishing(found: nat)
    | Polling(polled: nat, next: nat)
    | Writing(writer: nat, at: nat, state: StreamState)
    | Notifying(notifier: nat, of: nat)
    | Failing(failed: nat)
    | Sleeping
    | Exited

  /** A Cut is a disconnection of the current consumer. */
  datatype Mark =
    | Wrote(display: nat, state: StreamState, activated: bool)
    | Fired(fired: nat)
    | Cut
    | Stop

  /** `ids` are the displays to poll; `notifies` tells whether an activation callback is set. */
  datatype State = State(
    ids: seq<nat>,
    notifies: bool,
    pc: Pc,
    consumer: Option<nat>,
    states: map<nat, StreamState>,
    stopping: bool,
    log: seq<Mark>)

  datatype Event =
    | CheckTop
    | Choose
    | Connect(found: Option<nat>)
    | Publish
    | Poll(answer: Option<Answer>)
    | EndPass
    | Write
    | Notify
    | Fail
    | Wake
    | Disconnect(failed: nat)
    | RequestStop

  function Initial(ids: seq<nat>): map<nat, StreamState> {
    map d | d in ids :: INACTIVE
  }

  function Start(ids: seq<nat>, notifies: bool): State {
    State(ids, notifies, Top, None, Initial(ids), false, [])
  }

  /** A display id beyond 63 bits is never polled: it fails the pass. */
  predicate Possible(st: State, e: Event) {
    match e
    case CheckTop => st.pc.Top?
    case Choose => st.pc.Choosing?
    case Connect(_) => st.pc.Connecting?
    case Publish => st.pc.Publishing?
    case Poll(answer) =>
      && st.pc.Polling? && st.pc.next < |st.ids|
      && (answer.Some? ==> st.ids[st.pc.next] <= MAX_INT64)
    case EndPass => st.pc.Polling? && st.pc.next >= |st.ids|
    case Write => st.pc.Writing? && st.pc.at < |st.ids| && st.ids[st.pc.at] in st.states
    case Notify => st.pc.Notifying? && st.pc.of < |st.ids|
    case Fail => st.pc.Failing?
    case Wake => st.pc.Sleeping?
    case Disconnect(_) => true
    case RequestStop => true
  }

  function Quieted(states: map<nat, StreamState>): map<nat, StreamState> {
    map d | d in states :: states[d].(accepting := false)
  }

  /** Only the failure of the current consumer disconnects it. */
  function Disconnected(st: State, failed: nat): State {
    if st.consumer != Some(failed) then st
    else st.(consumer := None, states := Quieted(st.states), log := st.log + [Cut])
  }

  /** The activation edge: a stream that accepts and did not, or not in this generation. */
  predicate Activates(st: State, previous: StreamState, now: StreamState) {
    !st.stopping && now.accepting && (!previous.accepting || now.generation != previous.generation)
  }

  function Written(st: State, c: nat, i: nat, now: StreamState): State
    requires i < |st.ids| && st.ids[i] in st.states
  {
    var d := st.ids[i];
    var activated := Activates(st, st.states[d], now);
    st.(states := st.states[d := now], log := st.log + [Wrote(d, now, activated)],
        pc := if activated && st.notifies then Notifying(c, i) else Polling(c, i + 1))
  }

  function Act(st: State, e: Event): State
    requires Possible(st, e)
  {
    match e
    case CheckTop => st.(pc := if st.stopping then Exited else Choosing)
    case Choose => st.(pc := if st.consumer.Some? then Polling(st.consumer.value, 0) else Connecting)
    case Connect(found) => st.(pc := if found.Some? then Publishing(found.value) else Sleeping)
    case Publish =>
      st.(consumer := if st.stopping then st.consumer else Some(st.pc.found), pc := Polling(st.pc.found, 0))
    case Poll(answer) =>
      var c, i := st.pc.polled, st.pc.next;
      st.(pc := if answer.None? then Failing(c) else Writing(c, i, Cached(st.ids[i], answer.value)))
    case EndPass => st.(pc := Sleeping)
    case Write => Written(st, st.pc.writer, st.pc.at, st.pc.state)
    case Notify => st.(log := st.log + [Fired(st.ids[st.pc.of])], pc := Polling(st.pc.notifier, st.pc.of + 1))
    case Fail => Disconnected(st, st.pc.failed).(pc := Sleeping)
    case Wake => st.(pc := if st.stopping then Exited else Top)
    case Disconnect(failed) => Disconnected(st, failed)
    case RequestStop => st.(stopping := true, log := st.log + [Stop])
  }

  function Step(st: State, e: Event): State {
    if Possible(st, e) then Act(st, e) else st
  }

  ghost function Exec(st: State, es: seq<Event>): State {
    if es == [] then st else Step(Exec(st, es[..|es| - 1]), es[|es| - 1])
  }

  lemma ExecSnoc(st: State, es: seq<Event>, e: Event)
    ensures Exec(st, es + [e]) == Step(Exec(st, es), e)
  {
    assert (es + [e])[..|es|] == es;
  }

  // Runs of accepting writes, read off the log.

  predicate Concerns(m: Mark, d: nat) {
    m.Cut? || (m.Wrote? && m.display == d)
  }

  /** The log ends inside a run of d: its last mark about d is an accepting write of generation g. */
  ghost predicate InRun(log: seq<Mark>, d: nat, g: nat) {
    exists j :: 0 <= j < |log| && log[j].Wrote? && log[j].display == d && log[j].state == StreamState(g, true)
                && forall i :: j < i < |log| ==> !Concerns(log[i], d)
  }

  ghost predicate Stopped(log: seq<Mark>) {
    exists i :: 0 <= i < |log| && log[i].Stop?
  }

  /** The state of d that the log leaves. */
  ghost function Shown(log: seq<Mark>, d: nat): StreamState {
    if log == [] then INACTIVE
    else
      var m := log[|log| - 1];
      if m.Wrote? && m.display == d then m.state
      else if m.Cut? then Shown(log[..|log| - 1], d).(accepting := false)
      else Shown(log[..|log| - 1], d)
  }

  lemma ShownSnoc(log: seq<Mark>, m: Mark, d: nat)
    ensures
      Shown(log + [m], d)
        == if m.Wrote? && m.display == d then m.state
           else if m.Cut? then Shown(log, d).(accepting := false)
           else Shown(log, d)
  {
    assert (log + [m])[..|log|] == log;
  }

  lemma {:induction false} InRunIs(log: seq<Mark>, d: nat, g: nat)
    ensures InRun(log, d, g) <==> Shown(log, d) == StreamState(g, true)
  {
    if log != [] {
      var n := |log| - 1;
      var init, m := log[..n], log[n];
      InRunIs(init, d, g);
      assert log == init + [m];
      if InRun(log, d, g) && !Concerns(m, d) {
        var j :| 0 <= j < |log| && log[j].Wrote? && log[j].display == d && log[j].state == StreamState(g, true)
                 && forall i :: j < i < |log| ==> !Concerns(log[i], d);
        assert init[j] == log[j];
      }
      if InRun(init, d, g) && !Concerns(m, d) {
        var j :| 0 <= j < n && init[j].Wrote? && init[j].display == d && init[j].state == StreamState(g, true)
                 && forall i :: j < i < n ==> !Concerns(init[i], d);
        assert log[j] == init[j];
        assert forall i :: j < i < n ==> log[i] == init[i];
      }
    }
  }

  /** A write activates the stream exactly if it starts a run and nobody asked to stop. */
  ghost predicate WellMarked(log: seq<Mark>) {
    forall k :: 0 <= k < |log| && log[k].Wrote? ==>
      (log[k].activated
       <==> !Stopped(log[..k]) && log[k].state.accepting && !InRun(log[..k], log[k].display, log[k].state.generation))
  }

  ghost predicate Inv(st: State) {
    && (forall d :: d in st.ids <==> d in st.states)
    && (forall d :: d in st.states ==> st.states[d] == Shown(st.log, d))
    && (st.stopping <==> Stopped(st.log))
    && (st.pc.Writing? ==> st.pc.at < |st.ids|)
    && (st.pc.Notifying? ==> st.notifies && st.pc.of < |st.ids|)
  }

  lemma StoppedSnoc(log: seq<Mark>, m: Mark)
    ensures Stopped(log + [m]) <==> Stopped(log) || m.Stop?
  {
    if Stopped(log) {
      var i :| 0 <= i < |log| && log[i].Stop?;
      assert (log + [m])[i].Stop?;
    }
    assert (log + [m])[|log|] == m;
  }

  lemma InvMark(st: State, end: State, m: Mark)
    requires Inv(st) && end.log == st.log + [m] && end.ids == st.ids && end.states.Keys == st.states.Keys
    requires end.stopping == (st.stopping || m.Stop?)
    requires forall d :: d in st.states ==>
               end.states[d] == if m.Wrote? && m.display == d then m.state
                                else if m.Cut? then st.states[d].(accepting := false) else st.states[d]
    requires end.pc.Writing? ==> end.pc.at < |end.ids|
    requires end.pc.Notifying? ==> end.notifies && end.pc.of < |end.ids|
    ensures Inv(end)
  {
    StoppedSnoc(st.log, m);
    forall d | d in end.states ensures end.states[d] == Shown(end.log, d) { ShownSnoc(st.log, m, d); }
  }

  lemma InvDisconnected(st: State, failed: nat)
    requires Inv(st)
    ensures Inv(Disconnected(st, failed))
  {
    if st.consumer == Some(failed) { InvMark(st, Disconnected(st, failed), Cut); }
  }

  lemma InvStep(st: State, e: Event)
    requires Inv(st)
    ensures Inv(Step(st, e))
  {
    if Possible(st, e) {
      match e
      case Write => InvMark(st, Step(st, e), Step(st, e).log[|st.log|]);
      case Notify => InvMark(st, Step(st, e), Fired(st.ids[st.pc.of]));
      case Fail => InvDisconnected(st, st.pc.failed);
      case Disconnect(failed) => InvDisconnected(st, failed);
      case RequestStop => InvMark(st, Step(st, e), Stop);
      case CheckTop =>
      case Choose =>
      case Connect(_) =>
      case Publish =>
      case Poll(_) =>
      case EndPass =>
      case Wake =>
    }
  }

  lemma {:induction false} InvExec(st: State, es: seq<Event>)
    requires Inv(st)
    ensures Inv(Exec(st, es))
  {
    if es != [] {
      InvExec(st, es[..|es| - 1]);
      InvStep(Exec(st, es[..|es| - 1]), es[|es| - 1]);
    }
  }

  lemma MarkedSnoc(log: seq<Mark>, m: Mark)
    requires WellMarked(log)
    requires m.Wrote? ==>
      (m.activated <==> !Stopped(log) && m.state.accepting && !InRun(log, m.display, m.state.generation))
    ensures WellMarked(log + [m])
  {
    var all := log + [m];
    assert all[..|log|] == log;
    forall k | 0 <= k < |log| ensures all[..k] == log[..k] && all[k] == log[k] {}
  }

  lemma MarkedStep(st: State, e: Event)
    requires Inv(st) && WellMarked(st.log)
    ensures WellMarked(Step(st, e).log)
  {
    var end := Step(st, e);
    if |end.log| != |st.log| {
      var m := end.log[|st.log|];
      assert end.log == st.log + [m];
      if m.Wrote? { InRunIs(st.log, m.display, m.state.generation); }
      MarkedSnoc(st.log, m);
    }
  }

  /**
   * In every run the activations are exactly the first writes of the runs of
   * accepting writes of one generation; a disconnection ends a run.
   */
  lemma {:induction false} ActivationStartsRun(ids: seq<nat>, notifies: bool, es: seq<Event>)
    ensures WellMarked(Exec(Start(ids, notifies), es).log)
  {
    if es != [] {
      ActivationStartsRun(ids, notifies, es[..|es| - 1]);
      InvExec(Start(ids, notifies), es[..|es| - 1]);
      MarkedStep(Exec(Start(ids, notifies), es[..|es| - 1]), es[|es| - 1]);
    }
  }

  ghost function Activations(log: seq<Mark>, d: nat): nat {
    if log == [] then 0
    else
      var m := log[|log| - 1];
      Activations(log[..|log| - 1], d) + (if m.Wrote? && m.display == d && m.activated then 1 else 0)
  }

  ghost function Callbacks(log: seq<Mark>, d: nat): nat {
    if log == [] then 0 else Callbacks(log[..|log| - 1], d) + (if log[|log| - 1] == Fired(d) then 1 else 0)
  }

  /** Marks a to b about d are accepting writes of generation g, and a is the first of its run. */
  ghost predicate IsRun(log: seq<Mark>, d: nat, g: nat, a: nat, b: nat) {
    && a < b <= |log| && log[a].Wrote? && log[a].display == d
    && !InRun(log[..a], d, g) && !Stopped(log[..b])
    && forall i :: a <= i < b && Concerns(log[i], d) ==> log[i].Wrote? && log[i].state == StreamState(g, true)
  }

  lemma {:induction false} ShownInRun(log: seq<Mark>, d: nat, g: nat, a: nat, b: nat)
    requires IsRun(log, d, g, a, b)
    ensures Shown(log[..b], d) == StreamState(g, true)
    decreases b
  {
    assert log[..b] == log[..b - 1] + [log[b - 1]];
    ShownSnoc(log[..b - 1], log[b - 1], d);
    if b - 1 > a && !Concerns(log[b - 1], d) {
      ShorterRun(log, d, g, a, b);
      ShownInRun(log, d, g, a, b - 1);
    }
  }

  lemma ShorterRun(log: seq<Mark>, d: nat, g: nat, a: nat, b: nat)
    requires IsRun(log, d, g, a, b) && a + 1 < b
    ensures IsRun(log, d, g, a, b - 1)
  {
    assert log[..b] == log[..b - 1] + [log[b - 1]];
    StoppedSnoc(log[..b - 1], log[b - 1]);
  }

  /** A run of accepting writes, however long and whatever happens to other displays, activates once. */
  lemma {:induction false} OneActivationPerRun(log: seq<Mark>, d: nat, g: nat, a: nat, b: nat)
    requires WellMarked(log) && IsRun(log, d, g, a, b)
    ensures Activations(log[..b], d) == Activations(log[..a], d) + 1
    decreases b
  {
    var m := log[b - 1];
    assert log[..b] == log[..b - 1] + [m];
    assert log[..b][..b - 1] == log[..b - 1];
    StoppedSnoc(log[..b - 1], m);
    if b - 1 > a {
      ShorterRun(log, d, g, a, b);
      OneActivationPerRun(log, d, g, a, b - 1);
      ShownInRun(log, d, g, a, b - 1);
      InRunIs(log[..b - 1], d, g);
    }
  }

  /** The first write after a disconnection, if it accepts, activates again. */
  lemma DisconnectEndsRun(log: seq<Mark>, d: nat, cut: nat, k: nat)
    requires WellMarked(log) && cut < k < |log| && log[cut].Cut?
    requires log[k].Wrote? && log[k].display == d && log[k].state.accepting && !Stopped(log[..k])
    requires forall i :: cut < i < k ==> !(log[i].Wrote? && log[i].display == d)
    ensures log[k].activated
  {}

  ghost function Pending(st: State, d: nat): nat {
    if st.pc.Notifying? && st.pc.of < |st.ids| && st.ids[st.pc.of] == d then 1 else 0
  }

  lemma CountsSnoc(log: seq<Mark>, m: Mark, d: nat)
    ensures Activations(log + [m], d)
            == Activations(log, d) + (if m.Wrote? && m.display == d && m.activated then 1 else 0)
    ensures Callbacks(log + [m], d) == Callbacks(log, d) + (if m == Fired(d) then 1 else 0)
  {
    assert (log + [m])[..|log|] == log;
  }

  /** Every activation but one whose callback is due has been called back once. */
  ghost predicate CalledBack(st: State, d: nat) {
    Callbacks(st.log, d) + Pending(st, d) == Activations(st.log, d)
  }

  lemma CalledBackMark(st: State, end: State, m: Mark, d: nat)
    requires CalledBack(st, d) && end.log == st.log + [m]
    requires (if m == Fired(d) then 1 else 0) + Pending(end, d)
             == Pending(st, d) + (if m.Wrote? && m.display == d && m.activated then 1 else 0)
    ensures CalledBack(end, d)
  {
    CountsSnoc(st.log, m, d);
  }

  lemma CallbackWrite(st: State, d: nat)
    requires Inv(st) && st.notifies && CalledBack(st, d) && Possible(st, Write)
    ensures CalledBack(Step(st, Write), d)
  {
    var end := Step(st, Write);
    CalledBackMark(st, end, end.log[|st.log|], d);
  }

  lemma CallbackCut(st: State, failed: nat, pc: Pc, d: nat)
    requires CalledBack(st, d) && (pc == st.pc || (st.pc.Failing? && pc.Sleeping?))
    ensures CalledBack(Disconnected(st, failed).(pc := pc), d)
  {
    if st.consumer == Some(failed) { CalledBackMark(st, Disconnected(st, failed).(pc := pc), Cut, d); }
  }

  lemma CallbackStep(st: State, e: Event, d: nat)
    requires Inv(st) && st.notifies && CalledBack(st, d)
    ensures Step(st, e).notifies && CalledBack(Step(st, e), d)
  {
    if Possible(st, e) {
      match e
      case Write => CallbackWrite(st, d);
      case Notify => CalledBackMark(st, Step(st, e), Fired(st.ids[st.pc.of]), d);
      case RequestStop => CalledBackMark(st, Step(st, e), Stop, d);
      case Fail => CallbackCut(st, st.pc.failed, Sleeping, d);
      case Disconnect(failed) => CallbackCut(st, failed, st.pc, d);
      case CheckTop =>
      case Choose =>
      case Connect(_) =>
      case Publish =>
      case Poll(_) =>
      case EndPass =>
      case Wake =>
    }
  }

  /** Every activation is called back exactly once, before the worker writes again. */
  lemma {:induction false} CallbackPerActivation(ids: seq<nat>, es: seq<Event>, d: nat)
    ensures Exec(Start(ids, true), es).notifies && CalledBack(Exec(Start(ids, true), es), d)
  {
    if es != [] {
      CallbackPerActivation(ids, es[..|es| - 1], d);
      InvExec(Start(ids, true), es[..|es| - 1]);
      CallbackStep(Exec(Start(ids, true), es[..|es| - 1]), es[|es| - 1], d);
    }
  }

  // Connecting and polling.

  /** The failure of consumer c, in a frame, a registration or a poll. */
  predicate FailureOf(st: State, e: Event, c: nat) {
    e == Disconnect(c) || (e.Fail? && st.pc == Failing(c))
  }

  /** A failure disconnects its own consumer, and stops every stream accepting; a late one changes nothing. */
  lemma FailureDisconnects(st: State, e: Event, c: nat)
    requires Possible(st, e) && FailureOf(st, e, c)
    ensures
      var next := Step(st, e);
      if st.consumer == Some(c)
      then next.consumer.None? && next.states.Keys == st.states.Keys
           && forall d :: d in st.states ==> next.states[d] == StreamState(st.states[d].generation, false)
      else next.consumer == st.consumer && next.states == st.states && next.log == st.log
  {}

  /** A consumer that is connected stays so until it fails itself, whatever other consumers do. */
  lemma {:induction false} ConnectionStays(st: State, es: seq<Event>, c: nat)
    requires ConnectInv(st) && st.consumer == Some(c)
    requires forall k :: 0 <= k < |es| ==> !FailureOf(Exec(st, es[..k]), es[k], c)
    ensures ConnectInv(Exec(st, es)) && Exec(st, es).consumer == Some(c)
  {
    if es != [] {
      var prefix := es[..|es| - 1];
      assert forall k :: 0 <= k < |prefix| ==> prefix[..k] == es[..k];
      ConnectionStays(st, prefix, c);
      ConnectionStep(Exec(st, prefix), es[|prefix|], c);
    }
  }

  lemma ConnectionStep(st: State, e: Event, c: nat)
    requires ConnectInv(st) && st.consumer == Some(c) && !FailureOf(st, e, c)
    ensures ConnectInv(Step(st, e)) && Step(st, e).consumer == Some(c)
  {}

  /** The worker connects only while there is no connection. */
  ghost predicate ConnectInv(st: State) {
    st.pc.Connecting? || st.pc.Publishing? ==> st.consumer.None?
  }

  lemma {:induction false} ConnectInvExec(st: State, es: seq<Event>)
    requires ConnectInv(st)
    ensures ConnectInv(Exec(st, es))
  {
    if es != [] {
      ConnectInvExec(st, es[..|es| - 1]);
      ConnectInvStep(Exec(st, es[..|es| - 1]), es[|es| - 1]);
    }
  }

  lemma ConnectInvStep(st: State, e: Event)
    requires ConnectInv(st)
    ensures ConnectInv(Step(st, e))
  {}

  /**
   * A pass polls the consumer there is, or else one it connects to, which the
   * other threads then see, unless the endpoint is stopping.
   */
  lemma PassPollsConsumer(st: State, found: nat)
    requires st.pc.Choosing? && st.ids != []
    ensures st.consumer.Some? ==> Step(st, Choose).pc == Polling(st.consumer.value, 0)
    ensures st.consumer.None? ==>
              var published := Step(Step(Step(st, Choose), Connect(Some(found))), Publish);
              && published.pc == Polling(found, 0)
              && published.consumer == if st.stopping then None else Some(found)
  {}

  /**
   * What a display shows after a poll is the consumer's answer about it, if it
   * is about that display and of a generation, and otherwise no stream; the
   * other displays stay as they are and the pass goes on to the next one.
   */
  lemma PollShowsAnswer(st: State, a: Answer)
    requires Inv(st) && Possible(st, Poll(Some(a)))
    ensures
      var d := st.ids[st.pc.next];
      var next := Step(Step(st, Poll(Some(a))), Write);
      && next.states == st.states[d := if a.display == d && a.generation >= 0
                                      then StreamState(a.generation, a.accepting) else StreamState(0, false)]
      && (next.pc == Polling(st.pc.polled, st.pc.next + 1) || next.pc == Notifying(st.pc.polled, st.pc.next))
      && (next.pc.Notifying? ==> Step(next, Notify).pc == Polling(st.pc.polled, st.pc.next + 1))
  {}

  // Stopping.

  /** Unless it is stopping, the worker goes on from a wait to the next pass. */
  lemma NextPass(st: State)
    requires st.pc.Sleeping? && !st.stopping
    ensures Step(Step(st, Wake), CheckTop) == st.(pc := Choosing)
  {}

  /** In every run the worker exits only once a stop was asked for. */
  lemma {:induction false} ExitsOnlyWhenStopped(ids: seq<nat>, notifies: bool, es: seq<Event>)
    ensures Exec(Start(ids, notifies), es).pc.Exited? ==> Exec(Start(ids, notifies), es).stopping
  {
    if es != [] { ExitsOnlyWhenStopped(ids, notifies, es[..|es| - 1]); }
  }

  predicate OfWorker(e: Event) {
    !e.Disconnect? && !e.RequestStop?
  }

  /** How many turns a stopped worker that polls n displays can still take. */
  function ToGo(pc: Pc, n: nat): nat {
    match pc
    case Exited => 0
    case Top => 1
    case Sleeping => 1
    case Failing(_) => 2
    case Polling(_, next) => 3 * Left(next, n) + 2
    case Writing(_, at, _) => 3 * Left(at, n) + 1
    case Notifying(_, of) => 3 * Left(of, n)
    case Publishing(_) => 3 * n + 3
    case Connecting => 3 * n + 4
    case Choosing => 3 * n + 5
  }

  function Left(i: nat, n: nat): nat {
    if i <= n then n - i else 0
  }

  /** The worker always has a next turn. */
  lemma WorkerNeverStuck(st: State) returns (e: Event)
    requires Inv(st) && !st.pc.Exited?
    ensures OfWorker(e) && Possible(st, e)
  {
    match st.pc
    case Top => e := CheckTop;
    case Choosing => e := Choose;
    case Connecting => e := Connect(None);
    case Publishing(_) => e := Publish;
    case Polling(_, next) => e := if next < |st.ids| then Poll(None) else EndPass;
    case Writing(_, _, _) => e := Write;
    case Notifying(_, _) => e := Notify;
    case Failing(_) => e := Fail;
    case Sleeping => e := Wake;
  }

  /** The turns of the worker in a run. */
  ghost function Turns(st: State, es: seq<Event>): nat {
    if es == [] then 0
    else
      var e := es[|es| - 1];
      Turns(st, es[..|es| - 1]) + (if OfWorker(e) && Possible(Exec(st, es[..|es| - 1]), e) then 1 else 0)
  }

  lemma StoppedTurn(st: State, e: Event)
    requires Inv(st) && st.stopping
    ensures Step(st, e).stopping && Step(st, e).ids == st.ids
    ensures ToGo(Step(st, e).pc, |st.ids|) + (if OfWorker(e) && Possible(st, e) then 1 else 0)
            <= ToGo(st.pc, |st.ids|)
  {}

  /**
   * A stop ends the worker: whatever it is answered and whatever the others do,
   * each of its turns brings it closer, and it has exited after at most
   * 3 * n + 5 turns, for n displays.
   */
  lemma {:induction false} StopEnds(st: State, es: seq<Event>)
    requires Inv(st)
    ensures
      var stopped := Step(st, RequestStop);
      && Exec(stopped, es).stopping && Exec(stopped, es).ids == st.ids && Inv(Exec(stopped, es))
      && ToGo(Exec(stopped, es).pc, |st.ids|) + Turns(stopped, es) <= ToGo(st.pc, |st.ids|) <= 3 * |st.ids| + 5
  {
    var stopped := Step(st, RequestStop);
    InvStep(st, RequestStop);
    if es != [] {
      StopEnds(st, es[..|es| - 1]);
      InvStep(Exec(stopped, es[..|es| - 1]), es[|es| - 1]);
      StoppedTurn(Exec(stopped, es[..|es| - 1]), es[|es| - 1]);
    }
  }

  // Accepting without a consumer.

  /** What a reader of the cache hopes for: a stream that accepts has a consumer. */
  ghost predicate Consistent(st: State) {
    st.consumer.None? ==> forall d :: d in st.states ==> !st.states[d].accepting
  }

  /**
   * The hope is lost exactly by a write of an accepting state while there is no
   * consumer: the worker writes without looking whether it still is connected.
   */
  lemma ConsistentUnlessStaleWrite(st: State, e: Event)
    requires Inv(st) && Consistent(st) && Possible(st, e)
    ensures Consistent(Step(st, e)) <==> !(e.Write? && st.consumer.None? && st.pc.state.accepting)
  {
    if e.Write? {
      var d := st.ids[st.pc.at];
      assert Step(st, e).states[d] == st.pc.state;
    }
  }

  ghost predicate Unreachable(es: seq<Event>) {
    forall k :: 0 <= k < |es| ==> !(es[k].Connect? && es[k].found.Some?)
  }

  /** The worker is outside a pass, without a consumer. */
  ghost predicate Searching(st: State) {
    st.consumer.None? && (st.pc.Sleeping? || st.pc.Top? || st.pc.Choosing? || st.pc.Connecting? || st.pc.Exited?)
  }

  lemma SearchStep(st: State, e: Event)
    requires Searching(st) && !(e.Connect? && e.found.Some?)
    ensures Searching(Step(st, e)) && Step(st, e).states == st.states
  {}

  lemma {:induction false} StaleStays(st: State, es: seq<Event>)
    requires Searching(st) && Unreachable(es)
    ensures Searching(Exec(st, es)) && Exec(st, es).states == st.states
  {
    if es != [] {
      assert Unreachable(es[..|es| - 1]);
      StaleStays(st, es[..|es| - 1]);
      SearchStep(Exec(st, es[..|es| - 1]), es[|es| - 1]);
    }
  }

  lemma Extend(st0: State, es: seq<Event>, st: State, e: Event) returns (es': seq<Event>, st': State)
    requires st == Exec(st0, es)
    ensures st' == Step(st, e) && st' == Exec(st0, es')
  {
    ExecSnoc(st0, es, e);
    es', st' := es + [e], Step(st, e);
  }

  /** The worker connects to c, which answers that d accepts generation g. */
  lemma AnswerReceived(d: nat, c: nat, g: nat) returns (es: seq<Event>, st: State)
    requires d <= MAX_INT64
    ensures st == Exec(Start([d], true), es)
    ensures st == Start([d], true).(pc := Writing(c, 0, StreamState(g, true)), consumer := Some(c))
  {
    var st0 := Start([d], true);
    es, st := Extend(st0, [], st0, CheckTop);
    es, st := Extend(st0, es, st, Choose);
    es, st := Extend(st0, es, st, Connect(Some(c)));
    es, st := Extend(st0, es, st, Publish);
    es, st := Extend(st0, es, st, Poll(Some(Answer(d, g, true))));
  }

  /**
   * A frame may fail, and disconnect the consumer, between the answer to a poll
   * and its write. The display then shows an accepting stream without a
   * consumer, and an activation is called back, and that stays so for as long
   * as no consumer can be connected.
   */
  lemma StaleWriteShows(d: nat, c: nat, g: nat) returns (es: seq<Event>)
    requires d <= MAX_INT64
    ensures
      var st := Exec(Start([d], true), es);
      && st.consumer.None? && !st.stopping && st.states == map[d := StreamState(g, true)]
      && st.log == [Cut, Wrote(d, StreamState(g, true), true), Fired(d)]
      && forall more :: Unreachable(more) ==>
           Exec(st, more).consumer.None? && Exec(st, more).states == map[d := StreamState(g, true)]
  {
    var st0, st := Start([d], true), Start([d], true);
    es, st := AnswerReceived(d, c, g);
    es, st := Extend(st0, es, st, Disconnect(c));
    assert st.states == map[d := INACTIVE] && st.log == [Cut] && st.consumer.None?;
    es, st := Extend(st0, es, st, Write);
    assert st.states == map[d := StreamState(g, true)] && st.log == [Cut, Wrote(d, StreamState(g, true), true)];
    es, st := Extend(st0, es, st, Notify);
    es, st := Extend(st0, es, st, EndPass);
    StaleForever(st);
  }

  lemma StaleForever(st: State)
    requires st.consumer.None? && st.pc.Sleeping?
    ensures forall more :: Unreachable(more) ==> Exec(st, more).consumer.None? && Exec(st, more).states == st.states
  {
    forall more | Unreachable(more) ensures Exec(st, more).consumer.None? && Exec(st, more).states == st.states {
      StaleStays(st, more);
    }
  }

  // The class.

  /** Impossible events change nothing, so leaving them out of a schedule loses no run. */
  ghost predicate Schedulable(st: State, es: seq<Event>) {
    forall i :: 0 <= i < |es| ==> Possible(Exec(st, es[..i]), es[i])
  }

  /** Where the worker may be after its next region, with n displays to poll. */
  predicate Leads(before: Pc, after: Pc, n: nat) {
    match before
    case Top => after.Choosing? || after.Exited?
    case Choosing => after.Connecting? || (after.Polling? && after.next == 0)
    case Connecting => after.Publishing? || after.Sleeping?
    case Publishing(_) => after.Polling? && after.next == 0
    case Polling(_, next) => if next < n then after.Failing? || after.Writing? else after.Sleeping?
    case Writing(_, _, _) => after.Polling? || after.Notifying?
    case Notifying(_, _) => after.Polling?
    case Failing(_) => after.Sleeping?
    case Sleeping => after.Top? || after.Exited?
    case Exited => false
  }

  lemma StepLeads(st: State, e: Event)
    requires OfWorker(e) && Possible(st, e)
    ensures Leads(st.pc, Step(st, e).pc, |st.ids|)
  {}

  lemma NextStep(st: State, es: seq<Event>, i: nat)
    requires i < |es|
    ensures Exec(st, es[..i + 1]) == Step(Exec(st, es[..i]), es[i])
  {
    assert es[..i + 1][..i] == es[..i];
  }

  class AidlFrameConsumerEndpoint {
    const ids: seq<nat>
    const notifies: bool
    var pc: Pc
    var consumer: Option<nat>
    var states: map<nat, StreamState>
    var stopping: bool
    ghost var log: seq<Mark>

    ghost function Current(): State
      reads this
    {
      State(ids, notifies, pc, consumer, states, stopping, log)
    }

    constructor (ids: seq<nat>, notifies: bool)
      ensures Current() == Start(ids, notifies)
    {
      this.ids, this.notifies := ids, notifies;
      pc, consumer, states, stopping, log := Top, None, map[], false, [];
      new;
      for i := 0 to |ids|
        invariant Current() == Start(ids, notifies).(states := Initial(ids[..i]))
      {
        if ids[i] !in states { states := states[ids[i] := INACTIVE]; }
        assert forall d :: d in ids[..i + 1] <==> d in ids[..i] || d == ids[i];
      }
      assert ids[..|ids|] == ids;
    }

    /** A display that is not configured shows an inactive stream. */
    method GetStreamState(d: nat) returns (s: StreamState)
      requires Inv(Current())
      ensures s == if d in ids then Shown(log, d) else INACTIVE
    {
      s := if d in states then states[d] else INACTIVE;
    }

    method DisconnectConsumer(failed: nat)
      modifies this`consumer, this`states, this`log
      ensures Current() == Disconnected(old(Current()), failed)
    {
      if consumer != Some(failed) { return; }
      consumer := None;
      states := map d | d in states :: states[d].(accepting := false);
      log := log + [Cut];
    }

    method WriteState()
      requires Possible(Current(), Write)
      modifies this
      ensures Current() == Step(old(Current()), Write)
    {
      var Writing(c, i, cached) := pc;
      var previous := states[ids[i]];
      var activated := !stopping && cached.accepting
                       && (!previous.accepting || cached.generation != previous.generation);
      states := states[ids[i] := cached];
      log := log + [Wrote(ids[i], cached, activated)];
      pc := if activated && notifies then Notifying(c, i) else Polling(c, i + 1);
    }

    /** A region of the worker, or one of its calls without the mutex. */
    method Turn(e: Event)
      requires OfWorker(e) && Possible(Current(), e)
      modifies this
      ensures Current() == Step(old(Current()), e)
    {
      match e
      case CheckTop => pc := if stopping then Exited else Choosing;
      case Choose => pc := if consumer.Some? then Polling(consumer.value, 0) else Connecting;
      case Connect(found) => pc := if found.Some? then Publishing(found.value) else Sleeping;
      case Publish =>
        if !stopping { consumer := Some(pc.found); }
        pc := Polling(pc.found, 0);
      case Poll(answer) =>
        if answer.None? {
          pc := Failing(pc.polled);
        } else {
          pc := Writing(pc.polled, pc.next, Cached(ids[pc.next], answer.value));
        }
      case EndPass => pc := Sleeping;
      case Write => WriteState();
      case Notify =>
        log := log + [Fired(ids[pc.of])];
        pc := Polling(pc.notifier, pc.of + 1);
      case Fail =>
        DisconnectConsumer(pc.failed);
        pc := Sleeping;
      case Wake => pc := if stopping then Exited else Top;
    }

    method Call(e: Event)
      requires !OfWorker(e)
      modifies this
      ensures Current() == Step(old(Current()), e) && pc == old(pc)
    {
      match e
      case Disconnect(failed) => DisconnectConsumer(failed);
      case RequestStop =>
        stopping := true;
        log := log + [Stop];
    }

    /** The first i events of the schedule are done, and the next one is the worker's. */
    ghost predicate At(start: State, schedule: seq<Event>, i: nat)
      reads this
    {
      && i <= |schedule| && Current() == Exec(start, schedule[..i])
      && (i < |schedule| ==> OfWorker(schedule[i]) && Possible(Current(), schedule[i]) && !pc.Exited?)
    }

    /** What other threads do from entry i on while the worker does not hold the mutex. */
    method Unlocked(ghost start: State, schedule: seq<Event>, i: nat) returns (j: nat)
      requires Schedulable(start, schedule) && i <= |schedule| && Current() == Exec(start, schedule[..i])
      modifies this
      ensures i <= j && At(start, schedule, j) && pc == old(pc)
    {
      j := i;
      while j < |schedule| && !OfWorker(schedule[j])
        invariant i <= j <= |schedule| && Current() == Exec(start, schedule[..j])
        invariant pc == old(pc)
      {
        NextStep(start, schedule, j);
        Call(schedule[j]);
        j := j + 1;
      }
    }

    /** The worker's next region, and what other threads do after it. */
    method Next(ghost start: State, schedule: seq<Event>, i: nat) returns (j: nat)
      requires Schedulable(start, schedule) && At(start, schedule, i) && i < |schedule|
      modifies this
      ensures i < j && At(start, schedule, j)
      ensures Leads(old(pc), pc, |ids|)
    {
      NextStep(start, schedule, i);
      StepLeads(Current(), schedule[i]);
      Turn(schedule[i]);
      j := Unlocked(start, schedule, i + 1);
    }

    /**
     * The worker's loop. The schedule gives the answers it gets and what other
     * threads do in between; it may end anywhere.
     */
    method Run(schedule: seq<Event>)
      requires pc.Top? && Schedulable(Current(), schedule)
      modifies this
      ensures Current() == Exec(old(Current()), schedule)
    {
      ghost var start := Current();
      var i := Unlocked(start, schedule, 0);
      while i < |schedule|
        invariant At(start, schedule, i) && (i == |schedule| || pc.Top?)
      {
        i := Next(start, schedule, i);
        if i == |schedule| { break; }
        i := FindConsumer(start, schedule, i);
        if i < |schedule| && pc.Polling? { i := PollAll(start, schedule, i); }
        if i < |schedule| { i := Next(start, schedule, i); }
      }
      assert schedule[..i] == schedule;
    }

    /** Uses the connection there is, or makes one. */
    method FindConsumer(ghost start: State, schedule: seq<Event>, i: nat) returns (j: nat)
      requires pc.Choosing? && Schedulable(start, schedule) && At(start, schedule, i) && i < |schedule|
      modifies this
      ensures i < j && At(start, schedule, j)
      ensures j == |schedule| || (pc.Polling? && pc.next == 0) || pc.Sleeping?
    {
      j := Next(start, schedule, i);
      if j == |schedule| || pc.Polling? { return; }
      j := Next(start, schedule, j);
      if j == |schedule| || pc.Sleeping? { return; }
      j := Next(start, schedule, j);
    }

    /** The loop over the displays; a poll that fails ends it. */
    method PollAll(ghost start: State, schedule: seq<Event>, i: nat) returns (j: nat)
      requires pc.Polling? && Schedulable(start, schedule) && At(start, schedule, i) && i < |schedule|
      modifies this
      ensures i < j && At(start, schedule, j) && (j == |schedule| || pc.Sleeping?)
    {
      j := i;
      while j < |schedule| && pc.Polling? && pc.next < |ids|
        invariant i <= j && At(start, schedule, j)
        invariant j == |schedule| || pc.Polling? || (i < j && pc.Sleeping?)
        decreases |schedule| - j
      {
        j := PollOne(start, schedule, j);
      }
      if j < |schedule| && pc.Polling? { j := Next(start, schedule, j); }
    }

    method PollOne(ghost start: State, schedule: seq<Event>, i: nat) returns (j: nat)
      requires pc.Polling? && pc.next < |ids|
      requires Schedulable(start, schedule) && At(start, schedule, i) && i < |schedule|
      modifies this
      ensures i < j && At(start, schedule, j) && (j == |schedule| || pc.Polling? || pc.Sleeping?)
    {
      j := Next(start, schedule, i);
      if j == |schedule| { return; }
      j := Next(start, schedule, j);
      if j == |schedule| || !pc.Notifying? { return; }
      j := Next(start, schedule, j);
    }
  }
}
