/**
 * The generation-scoped buffer cache of the stream sink
 * (src/StreamFrameSink.cpp), composed with the consumer's own table.
 *
 * Submit holds the cache's mutex only to look up or register a buffer, to reset
 * and to invalidate, so any number of submissions interleave at those regions.
 */
module StreamFrameSink {
  import opened Basics
  import opened FenceLog

  datatype Status =
    Accepted | Dropped | NoActiveStream | StaleGeneration | BufferUnknown | UnsupportedBuffer | InternalError

  /** The cache: identity of a buffer to the id it was registered under. */
  datatype Sink = Sink(active: Option<nat>, nextId: nat, registered: map<nat, nat>)

  // Regions under the cache's mutex.

  function Empty(): Sink { Sink(None, 1, map[]) }

  function Forgotten(s: Sink): Sink { s.(active := None, registered := map[]) }

  /** A new generation starts from an empty cache. */
  function Scoped(s: Sink, generation: nat): Sink {
    if s.active == Some(generation) then s
    else s.(active := Some(generation), registered := map[])
  }

  /** Looks a buffer up, or registers it with the consumer, whose answer is `status`. */
  function Ensured(s: Sink, generation: nat, identity: nat, status: Status): (Sink, Option<nat>) {
    var scoped := Scoped(s, generation);
    if identity in scoped.registered then (scoped, Some(scoped.registered[identity]))
    else if status.Accepted? then
      (scoped.(nextId := s.nextId + 1, registered := scoped.registered[identity := s.nextId]), Some(s.nextId))
    else (scoped, None)
  }

  function Invalidated(s: Sink, identity: nat, id: nat, status: Status): Sink {
    if status.StaleGeneration? || status.NoActiveStream? then Forgotten(s)
    else if status.BufferUnknown? && identity in s.registered && s.registered[identity] == id
    then s.(registered := s.registered - {identity})
    else s
  }

  // The machine.

  datatype Key = Key(generation: nat, id: nat)

  /** An accepted registration, in order of acceptance. */
  datatype Registration = Registration(key: Key, identity: nat)

  /** A SubmitFrame call; `after` counts the registrations accepted before it. */
  datatype Request = Request(key: Key, identity: nat, after: nat)

  datatype Phase =
    | Resetting
    | Ensuring(generation: nat, identity: nat)
    | Submitting(key: Key, submitted: nat)
    | Answered(answered: nat, id: nat, status: Status)

  datatype State = State(
    sink: Sink,
    table: map<Key, nat>,
    threads: map<nat, Phase>,
    log: seq<Registration>,
    requests: seq<Request>,
    unknowns: nat,
    forgotten: nat)

  datatype Event =
    | ObserveIdle(t: nat)
    | Observe(t: nat, generation: nat, identity: nat)
    | Reset(t: nat)
    | Ensure(t: nat, status: Status)
    | Abandon(t: nat)
    | Submit(t: nat, status: Status)
    | Invalidate(t: nat)
    | Forget(keys: set<Key>)

  function Start(): State {
    State(Empty(), map[], map[], [], [], 0, 0)
  }

  /** The consumer answers BUFFER_UNKNOWN only for a buffer that is not in its table. */
  predicate Possible(st: State, e: Event) {
    match e
    case ObserveIdle(t) => t !in st.threads
    case Observe(t, _, _) => t !in st.threads
    case Reset(t) => t in st.threads && st.threads[t].Resetting?
    case Ensure(t, _) => t in st.threads && st.threads[t].Ensuring?
    case Abandon(t) => t in st.threads && st.threads[t].Submitting?
    case Submit(t, status) =>
      && t in st.threads && st.threads[t].Submitting?
      && (status.BufferUnknown? ==> st.threads[t].key !in st.table)
    case Invalidate(t) => t in st.threads && st.threads[t].Answered?
    case Forget(_) => true
  }

  /** The identities whose cached registration the consumer no longer has. */
  ghost function Stale(s: Sink, table: map<Key, nat>): set<nat> {
    set i | i in s.registered && s.active.Some? && Key(s.active.value, s.registered[i]) !in table
  }

  ghost function Act(st: State, e: Event): State
    requires Possible(st, e)
  {
    match e
    case ObserveIdle(t) => st.(threads := st.threads[t := Resetting])
    case Observe(t, g, i) => st.(threads := st.threads[t := Ensuring(g, i)])
    case Reset(t) => st.(sink := Forgotten(st.sink), threads := st.threads - {t})
    case Ensure(t, status) =>
      var Ensuring(g, i) := st.threads[t];
      var (sink, id) := Ensured(st.sink, g, i, status);
      var accepted := sink.nextId > st.sink.nextId;
      st.(sink := sink,
          table := if accepted then st.table[Key(g, st.sink.nextId) := i] else st.table,
          log := if accepted then st.log + [Registration(Key(g, st.sink.nextId), i)] else st.log,
          threads := if id.Some? then st.threads[t := Submitting(Key(g, id.value), i)] else st.threads - {t})
    case Abandon(t) => st.(threads := st.threads - {t})
    case Submit(t, status) =>
      var Submitting(key, i) := st.threads[t];
      st.(requests := st.requests + [Request(key, i, |st.log|)],
          unknowns := st.unknowns + (if status.BufferUnknown? then 1 else 0),
          threads := if status.Accepted? then st.threads - {t} else st.threads[t := Answered(i, key.id, status)])
    case Invalidate(t) =>
      var Answered(i, id, status) := st.threads[t];
      st.(sink := Invalidated(st.sink, i, id, status), threads := st.threads - {t})
    case Forget(keys) =>
      var table := st.table - keys;
      st.(table := table, forgotten := st.forgotten + |Stale(st.sink, table) - Stale(st.sink, st.table)|)
  }

  ghost function Step(st: State, e: Event): State {
    if Possible(st, e) then Act(st, e) else st
  }

  ghost function Exec(st: State, es: seq<Event>): State {
    if es == [] then st else Step(Exec(st, es[..|es| - 1]), es[|es| - 1])
  }

  // Agreement with the registrations the consumer accepted.

  ghost predicate Registered(log: seq<Registration>, n: nat, key: Key, identity: nat) {
    exists j :: 0 <= j < n <= |log| && log[j] == Registration(key, identity)
  }

  ghost predicate LogInv(st: State) {
    && st.sink.nextId == |st.log| + 1
    && (forall j :: 0 <= j < |st.log| ==> st.log[j].key.id == j + 1)
    && (st.sink.active.None? ==> st.sink.registered == map[])
    && (forall i :: i in st.sink.registered ==>
          Registered(st.log, |st.log|, Key(st.sink.active.value, st.sink.registered[i]), i))
    && (forall t :: t in st.threads && st.threads[t].Submitting? ==>
          Registered(st.log, |st.log|, st.threads[t].key, st.threads[t].submitted))
    && (forall k :: 0 <= k < |st.requests| ==>
          Registered(st.log, st.requests[k].after, st.requests[k].key, st.requests[k].identity))
  }

  lemma RegistrationKept(log: seq<Registration>, r: Registration, n: nat, key: Key, identity: nat)
    requires Registered(log, n, key, identity)
    ensures Registered(log + [r], n, key, identity) && Registered(log + [r], |log| + 1, key, identity)
  {
    var j :| 0 <= j < n <= |log| && log[j] == Registration(key, identity);
    assert (log + [r])[j] == log[j];
  }

  lemma LogGrows(st: State, r: Registration)
    requires LogInv(st)
    ensures
      var log := st.log + [r];
      && Registered(log, |log|, r.key, r.identity)
      && (forall i :: i in st.sink.registered ==>
            Registered(log, |log|, Key(st.sink.active.value, st.sink.registered[i]), i))
      && (forall t :: t in st.threads && st.threads[t].Submitting? ==>
            Registered(log, |log|, st.threads[t].key, st.threads[t].submitted))
      && (forall k :: 0 <= k < |st.requests| ==>
            Registered(log, st.requests[k].after, st.requests[k].key, st.requests[k].identity))
  {
    var log := st.log + [r];
    assert log[|st.log|] == r;
    forall i | i in st.sink.registered
      ensures Registered(log, |log|, Key(st.sink.active.value, st.sink.registered[i]), i)
    {
      RegistrationKept(st.log, r, |st.log|, Key(st.sink.active.value, st.sink.registered[i]), i);
    }
    forall t | t in st.threads && st.threads[t].Submitting?
      ensures Registered(log, |log|, st.threads[t].key, st.threads[t].submitted)
    {
      RegistrationKept(st.log, r, |st.log|, st.threads[t].key, st.threads[t].submitted);
    }
    forall k | 0 <= k < |st.requests|
      ensures Registered(log, st.requests[k].after, st.requests[k].key, st.requests[k].identity)
    {
      RegistrationKept(st.log, r, st.requests[k].after, st.requests[k].key, st.requests[k].identity);
    }
  }

  lemma LogInvEnsure(st: State, t: nat, status: Status)
    requires LogInv(st) && Possible(st, Ensure(t, status))
    ensures LogInv(Act(st, Ensure(t, status)))
  {
    var Ensuring(g, i) := st.threads[t];
    var r := Registration(Key(g, st.sink.nextId), i);
    if Ensured(st.sink, g, i, status).0.nextId > st.sink.nextId {
      LogGrows(st, r);
      assert Act(st, Ensure(t, status)).log == st.log + [r];
    }
  }

  lemma LogInvSubmit(st: State, t: nat, status: Status)
    requires LogInv(st) && Possible(st, Submit(t, status))
    ensures LogInv(Act(st, Submit(t, status)))
  {
    var next := Act(st, Submit(t, status));
    assert forall k :: 0 <= k < |st.requests| ==> next.requests[k] == st.requests[k];
  }

  lemma LogInvStep(st: State, e: Event)
    requires LogInv(st)
    ensures LogInv(Step(st, e))
  {
    if Possible(st, e) {
      match e
      case Ensure(t, status) => LogInvEnsure(st, t, status);
      case Submit(t, status) => LogInvSubmit(st, t, status);
      case _ =>
    }
  }

  lemma {:induction false} LogInvExec(st: State, es: seq<Event>)
    requires LogInv(st)
    ensures LogInv(Exec(st, es))
  {
    if es != [] {
      LogInvExec(st, es[..|es| - 1]);
      LogInvStep(Exec(st, es[..|es| - 1]), es[|es| - 1]);
    }
  }

  /**
   * Whatever the interleaving and whatever the consumer forgets: accepted ids
   * are 1, 2, 3, ... over the whole run, every request names a buffer whose
   * registration for that identity and generation was accepted before, and the
   * cache never maps two identities to one id.
   */
  lemma RequestsFollowRegistrations(es: seq<Event>)
    ensures
      var st := Exec(Start(), es);
      && (forall j :: 0 <= j < |st.log| ==> st.log[j].key.id == j + 1)
      && (forall k :: 0 <= k < |st.requests| ==>
            Registered(st.log, st.requests[k].after, st.requests[k].key, st.requests[k].identity))
      && (forall i, j :: i in st.sink.registered && j in st.sink.registered && i != j ==>
            st.sink.registered[i] != st.sink.registered[j])
  {
    LogInvExec(Start(), es);
    var st := Exec(Start(), es);
    forall i, j | i in st.sink.registered && j in st.sink.registered && i != j
      ensures st.sink.registered[i] != st.sink.registered[j]
    {
      var key := Key(st.sink.active.value, st.sink.registered[i]);
      assert Registered(st.log, |st.log|, key, i);
      assert Registered(st.log, |st.log|, Key(st.sink.active.value, st.sink.registered[j]), j);
    }
  }

  ghost predicate NeverForgets(es: seq<Event>) {
    forall k :: 0 <= k < |es| ==> !es[k].Forget?
  }

  /** The consumer still has every registration it accepted. */
  ghost predicate TableInv(st: State) {
    && (forall j :: 0 <= j < |st.log| ==> st.log[j].key in st.table)
    && st.unknowns == 0
  }

  lemma TableInvStep(st: State, e: Event)
    requires LogInv(st) && TableInv(st) && !e.Forget?
    ensures TableInv(Step(st, e))
  {}

  lemma {:induction false} TableInvExec(st: State, es: seq<Event>)
    requires LogInv(st) && TableInv(st) && NeverForgets(es)
    ensures TableInv(Exec(st, es))
  {
    if es != [] {
      TableInvExec(st, es[..|es| - 1]);
      LogInvExec(st, es[..|es| - 1]);
      TableInvStep(Exec(st, es[..|es| - 1]), es[|es| - 1]);
    }
  }

  /** A consumer that forgets nothing never answers BUFFER_UNKNOWN, in any interleaving. */
  lemma NoUnknownBuffer(es: seq<Event>)
    requires NeverForgets(es)
    ensures Exec(Start(), es).unknowns == 0
  {
    TableInvExec(Start(), es);
  }

  /** The consumer's table holds, under each id, the buffer that was accepted under it. */
  ghost predicate ContentInv(st: State) {
    && (forall j :: 0 <= j < |st.log| && st.log[j].key in st.table ==> st.table[st.log[j].key] == st.log[j].identity)
    && (forall key :: key in st.table ==> key.id < st.sink.nextId)
  }

  lemma ContentInvStep(st: State, e: Event)
    requires LogInv(st) && ContentInv(st)
    ensures ContentInv(Step(st, e))
  {}

  lemma {:induction false} ContentInvExec(st: State, es: seq<Event>)
    requires LogInv(st) && ContentInv(st)
    ensures ContentInv(Exec(st, es))
  {
    if es != [] {
      ContentInvExec(st, es[..|es| - 1]);
      LogInvExec(st, es[..|es| - 1]);
      ContentInvStep(Exec(st, es[..|es| - 1]), es[|es| - 1]);
    }
  }

  /** A frame about to be submitted can only show its own buffer, even if the consumer forgets. */
  lemma NeverAnotherBuffer(es: seq<Event>, t: nat)
    ensures
      var st := Exec(Start(), es);
      t in st.threads && st.threads[t].Submitting? && st.threads[t].key in st.table ==>
        st.table[st.threads[t].key] == st.threads[t].submitted
  {
    LogInvExec(Start(), es);
    ContentInvExec(Start(), es);
    var st := Exec(Start(), es);
    if t in st.threads && st.threads[t].Submitting? {
      assert Registered(st.log, |st.log|, st.threads[t].key, st.threads[t].submitted);
    }
  }

  // Amortised recovery.

  /** One submission at a time; a second one may not start. */
  ghost predicate Sequential(st: State, es: seq<Event>) {
    forall k :: 0 <= k < |es| && (es[k].Observe? || es[k].ObserveIdle?) ==> Exec(st, es[..k]).threads == map[]
  }

  /** An answer BUFFER_UNKNOWN whose cache entry has not been dropped yet. */
  predicate Unsettled(st: State, t: nat, identity: nat) {
    t in st.threads && st.threads[t].Answered? && st.threads[t].status.BufferUnknown?
    && st.threads[t].answered == identity
  }

  /** The potential: stale entries that have not been answered. */
  ghost function Debt(st: State): set<nat> {
    set i | i in Stale(st.sink, st.table) && !exists t :: t in st.threads && Unsettled(st, t, i)
  }

  ghost predicate DebtInv(st: State) {
    && (st.sink.active.None? ==> st.sink.registered == map[])
    && (forall key :: key in st.table ==> key.id < st.sink.nextId)
    && (forall t, u :: t in st.threads && u in st.threads ==> t == u)
    && (forall t :: t in st.threads && st.threads[t].Submitting? ==>
          var key, i := st.threads[t].key, st.threads[t].submitted;
          st.sink.active == Some(key.generation) && i in st.sink.registered && st.sink.registered[i] == key.id)
    && (forall t :: t in st.threads && st.threads[t].Answered? && st.threads[t].status.BufferUnknown? ==>
          var i := st.threads[t].answered;
          i in st.sink.registered && st.sink.registered[i] == st.threads[t].id)
    && st.unknowns + |Debt(st)| <= st.forgotten
  }

  lemma SubsetSize(a: set<nat>, b: set<nat>)
    requires a <= b
    ensures |a| <= |b|
    decreases |a|
  {
    if a != {} {
      var x :| x in a;
      SubsetSize(a - {x}, b - {x});
    }
  }

  lemma DebtSubmit(st: State, t: nat, status: Status)
    requires DebtInv(st) && Possible(st, Submit(t, status))
    ensures DebtInv(Act(st, Submit(t, status)))
  {
    var next := Act(st, Submit(t, status));
    var i := st.threads[t].submitted;
    if status.BufferUnknown? {
      assert Unsettled(next, t, i);
      assert forall u :: u in st.threads ==> u == t && !Unsettled(st, u, i);
      assert i in Stale(st.sink, st.table);
      assert i in Debt(st);
      SubsetSize(Debt(next), Debt(st) - {i});
    } else {
      SubsetSize(Debt(next), Debt(st));
    }
  }

  lemma DebtForget(st: State, keys: set<Key>)
    requires DebtInv(st)
    ensures DebtInv(Act(st, Forget(keys)))
  {
    var next := Act(st, Forget(keys));
    var more := Stale(st.sink, next.table) - Stale(st.sink, st.table);
    forall i | i in Debt(next) ensures i in Debt(st) + more {
      if i !in more {
        assert forall t :: t in st.threads && Unsettled(st, t, i) ==> Unsettled(next, t, i);
      }
    }
    SubsetSize(Debt(next), Debt(st) + more);
    assert Debt(st) + more == Debt(st) + (more - Debt(st));
    SubsetSize(more - Debt(st), more);
  }

  lemma DebtEnsure(st: State, t: nat, status: Status)
    requires DebtInv(st) && Possible(st, Ensure(t, status))
    ensures DebtInv(Act(st, Ensure(t, status)))
  {
    SubsetSize(Debt(Act(st, Ensure(t, status))), Debt(st));
  }

  lemma DebtInvalidate(st: State, t: nat)
    requires DebtInv(st) && Possible(st, Invalidate(t))
    ensures DebtInv(Act(st, Invalidate(t)))
  {
    SubsetSize(Debt(Act(st, Invalidate(t))), Debt(st));
  }

  lemma DebtStep(st: State, e: Event)
    requires DebtInv(st) && (e.Observe? || e.ObserveIdle? ==> st.threads == map[])
    ensures DebtInv(Step(st, e))
  {
    if Possible(st, e) {
      match e
      case Submit(t, status) => DebtSubmit(st, t, status);
      case Forget(keys) => DebtForget(st, keys);
      case Ensure(t, status) => DebtEnsure(st, t, status);
      case Invalidate(t) => DebtInvalidate(st, t);
      case _ => SubsetSize(Debt(Step(st, e)), Debt(st));
    }
  }

  lemma {:induction false} DebtExec(st: State, es: seq<Event>)
    requires DebtInv(st) && Sequential(st, es)
    ensures DebtInv(Exec(st, es))
  {
    if es != [] {
      var prefix := es[..|es| - 1];
      assert forall k :: 0 <= k < |prefix| ==> prefix[..k] == es[..k];
      DebtExec(st, prefix);
      DebtStep(Exec(st, prefix), es[|es| - 1]);
    }
  }

  /** In sequential runs BUFFER_UNKNOWN answers never outnumber the cached entries the consumer forgot. */
  lemma RecoveryIsAmortised(es: seq<Event>)
    requires Sequential(Start(), es)
    ensures Exec(Start(), es).unknowns <= Exec(Start(), es).forgotten
  {
    assert Debt(Start()) == {};
    DebtExec(Start(), es);
  }

  /** What `forgotten` counts: the entries that are cached, were with the consumer, and now are not. */
  lemma ForgottenCounts(st: State, keys: set<Key>)
    ensures
      Step(st, Forget(keys)).forgotten
        == st.forgotten
           + |set i | i in st.sink.registered && st.sink.active.Some?
                      && Key(st.sink.active.value, st.sink.registered[i]) in st.table
                      && Key(st.sink.active.value, st.sink.registered[i]) in keys|
  {
    var lost := set i | i in st.sink.registered && st.sink.active.Some?
                        && Key(st.sink.active.value, st.sink.registered[i]) in st.table
                        && Key(st.sink.active.value, st.sink.registered[i]) in keys;
    assert Stale(st.sink, st.table - keys) - Stale(st.sink, st.table) == lost;
  }

  /** Everything the cache knows, or a thread holds, about a buffer is an id of at least n. */
  ghost predicate AtLeast(st: State, identity: nat, n: nat) {
    && n <= st.sink.nextId
    && (identity in st.sink.registered ==> st.sink.registered[identity] >= n)
    && (forall t :: t in st.threads && st.threads[t].Submitting? && st.threads[t].submitted == identity ==>
          st.threads[t].key.id >= n)
  }

  ghost predicate RequestsAtLeast(st: State, since: nat, identity: nat, n: nat) {
    forall k :: since <= k < |st.requests| && st.requests[k].identity == identity ==> st.requests[k].key.id >= n
  }

  lemma IdsGrowStep(st: State, e: Event, identity: nat, n: nat)
    requires AtLeast(st, identity, n)
    ensures AtLeast(Step(st, e), identity, n)
    ensures Step(st, e).requests == st.requests
            || (|Step(st, e).requests| == |st.requests| + 1 && st.requests <= Step(st, e).requests
                && RequestsAtLeast(Step(st, e), |st.requests|, identity, n))
  {}

  lemma {:induction false} IdsOnlyGrow(st: State, es: seq<Event>, identity: nat, n: nat)
    requires AtLeast(st, identity, n)
    ensures AtLeast(Exec(st, es), identity, n)
    ensures |Exec(st, es).requests| >= |st.requests|
    ensures RequestsAtLeast(Exec(st, es), |st.requests|, identity, n)
  {
    if es != [] {
      IdsOnlyGrow(st, es[..|es| - 1], identity, n);
      IdsGrowStep(Exec(st, es[..|es| - 1]), es[|es| - 1], identity, n);
    }
  }

  /**
   * In a sequential run each BUFFER_UNKNOWN forces a fresh id: once it is
   * settled, every later request for that buffer carries a larger id.
   */
  lemma UnknownForcesFreshId(es: seq<Event>, t: nat, more: seq<Event>)
    requires Sequential(Start(), es)
    ensures
      var st := Exec(Start(), es);
      t in st.threads && st.threads[t].Answered? && st.threads[t].status.BufferUnknown? ==>
        var settled := Step(st, Invalidate(t));
        RequestsAtLeast(Exec(settled, more), |st.requests|, st.threads[t].answered, st.threads[t].id + 1)
  {
    var st := Exec(Start(), es);
    assert Debt(Start()) == {};
    DebtExec(Start(), es);
    LogInvExec(Start(), es);
    if t in st.threads && st.threads[t].Answered? && st.threads[t].status.BufferUnknown? {
      var i, id := st.threads[t].answered, st.threads[t].id;
      assert Registered(st.log, |st.log|, Key(st.sink.active.value, st.sink.registered[i]), i);
      IdsOnlyGrow(Step(st, Invalidate(t)), more, i, id + 1);
    }
  }

  /** The stream is found idle, or lost by an answer. */
  ghost predicate LosesStream(st: State, e: Event) {
    && Possible(st, e)
    && (|| e.Reset?
        || (e.Invalidate? && (st.threads[e.t].status.StaleGeneration? || st.threads[e.t].status.NoActiveStream?)))
  }

  /**
   * A lost stream forgets every buffer: unless another submission holds an id,
   * every later request carries an id that is registered only afterwards.
   */
  lemma StreamLossForcesRegistration(st: State, e: Event, more: seq<Event>, identity: nat)
    requires LosesStream(st, e)
    requires forall t :: t in st.threads ==> !st.threads[t].Submitting?
    ensures RequestsAtLeast(Exec(Step(st, e), more), |st.requests|, identity, st.sink.nextId)
  {
    IdsOnlyGrow(Step(st, e), more, identity, st.sink.nextId);
  }

  lemma Extend(es: seq<Event>, st: State, e: Event) returns (es': seq<Event>, st': State)
    requires st == Exec(Start(), es)
    ensures st' == Step(st, e) && st' == Exec(Start(), es')
  {
    assert (es + [e])[..|es|] == es;
    es', st' := es + [e], Step(st, e);
  }

  // Using the cache.

  /** A buffer cached for its generation is not registered again: the submission gets the id it has. */
  lemma LookupHits(st: State, t: nat, g: nat, i: nat, status: Status)
    requires t !in st.threads && st.sink.active == Some(g) && i in st.sink.registered
    ensures Step(Step(st, Observe(t, g, i)), Ensure(t, status))
            == st.(threads := st.threads[t := Submitting(Key(g, st.sink.registered[i]), i)])
  {}

  /**
   * Any other buffer is offered to the consumer, in a cache that holds no other
   * generation. If it is accepted it gets the next id, in the cache as with the
   * consumer; if not the submission ends, and only the old generation is gone.
   */
  lemma LookupMisses(st: State, t: nat, g: nat, i: nat, status: Status)
    requires t !in st.threads && !(st.sink.active == Some(g) && i in st.sink.registered)
    ensures
      var next := Step(Step(st, Observe(t, g, i)), Ensure(t, status));
      var kept := if st.sink.active == Some(g) then st.sink.registered else map[];
      var key := Key(g, st.sink.nextId);
      if status.Accepted? then
        && next.sink == Sink(Some(g), st.sink.nextId + 1, kept[i := st.sink.nextId])
        && next.table == st.table[key := i] && next.log == st.log + [Registration(key, i)]
        && next.threads == st.threads[t := Submitting(key, i)]
      else
        && next.sink == Sink(Some(g), st.sink.nextId, kept)
        && next.table == st.table && next.log == st.log && next.threads == st.threads
  {}

  /** A submission is about to ask for the buffer in this generation. */
  predicate Holds(p: Phase, g: nat, i: nat) {
    p.Submitting? && p.submitted == i && p.key.generation == g
  }

  /** The cache serves the buffer under id n, and no submission holds another id for it. */
  ghost predicate Serves(st: State, g: nat, i: nat, n: nat) {
    && st.sink.active == Some(g) && i in st.sink.registered && st.sink.registered[i] == n
    && forall t :: t in st.threads && Holds(st.threads[t], g, i) ==> st.threads[t].key.id == n
  }

  /** The stream is lost, another generation is looked up, or the consumer does not know this id. */
  ghost predicate EndsService(st: State, e: Event, g: nat, i: nat, n: nat) {
    && Possible(st, e)
    && (|| LosesStream(st, e)
        || (e.Ensure? && st.threads[e.t].generation != g)
        || (e.Invalidate? && st.threads[e.t].status.BufferUnknown?
            && st.threads[e.t].answered == i && st.threads[e.t].id == n))
  }

  ghost predicate OneId(st: State, end: State, g: nat, i: nat, n: nat) {
    && |st.requests| <= |end.requests| && |st.log| <= |end.log|
    && (forall k :: |st.requests| <= k < |end.requests|
                    && end.requests[k].identity == i && end.requests[k].key.generation == g ==>
          end.requests[k].key.id == n)
    && (forall k :: |st.log| <= k < |end.log| ==> !(end.log[k].identity == i && end.log[k].key.generation == g))
  }

  lemma ServesStep(st: State, e: Event, g: nat, i: nat, n: nat)
    requires Serves(st, g, i, n) && !EndsService(st, e, g, i, n)
    ensures Serves(Step(st, e), g, i, n) && OneId(st, Step(st, e), g, i, n)
    ensures st.requests <= Step(st, e).requests && st.log <= Step(st, e).log
  {}

  /**
   * The cache works: in every interleaving the requests for a buffer carry one
   * and the same id, and it is not registered again, until the stream is lost,
   * another generation is looked up, or the consumer does not know that id.
   */
  lemma {:induction false} OneIdUntilLost(st: State, es: seq<Event>, g: nat, i: nat, n: nat)
    requires Serves(st, g, i, n)
    requires forall k :: 0 <= k < |es| ==> !EndsService(Exec(st, es[..k]), es[k], g, i, n)
    ensures Serves(Exec(st, es), g, i, n) && OneId(st, Exec(st, es), g, i, n)
  {
    if es != [] {
      var prefix := es[..|es| - 1];
      assert forall k :: 0 <= k < |prefix| ==> prefix[..k] == es[..k];
      OneIdUntilLost(st, prefix, g, i, n);
      ServesStep(Exec(st, prefix), es[|es| - 1], g, i, n);
    }
  }

  // Overlapping submissions.

  /** The keys the consumer accepted and has removed since; an id is never accepted again. */
  ghost function Removed(st: State): set<Key> {
    set j | 0 <= j < |st.log| && st.log[j].key !in st.table :: st.log[j].key
  }

  /** Which threads have been told BUFFER_UNKNOWN of which keys. */
  ghost function Heard(st: State, es: seq<Event>): set<(nat, Key)> {
    if es == [] then {}
    else
      var before, e := Exec(st, es[..|es| - 1]), es[|es| - 1];
      Heard(st, es[..|es| - 1])
      + (if e.Submit? && e.status.BufferUnknown? && Possible(before, e) then {(e.t, before.threads[e.t].key)} else {})
  }

  ghost predicate Uncached(s: Sink, id: nat) {
    forall i :: i in s.registered ==> s.registered[i] != id
  }

  /** The thread still has to settle the answer. */
  ghost predicate Settling(st: State, t: nat, key: Key) {
    && t in st.threads && st.threads[t].Answered? && st.threads[t].status.BufferUnknown?
    && st.threads[t].id == key.id && Registered(st.log, |st.log|, key, st.threads[t].answered)
  }

  /** The thread does not hold the key, and can get it no more. */
  ghost predicate Over(st: State, t: nat, key: Key) {
    && !(t in st.threads && st.threads[t].Submitting? && st.threads[t].key == key)
    && Uncached(st.sink, key.id)
  }

  ghost predicate HeardInv(st: State, heard: set<(nat, Key)>) {
    && |heard| == st.unknowns
    && forall t, key :: (t, key) in heard ==>
         && key in Removed(st) && key.id <= |st.log|
         && (Settling(st, t, key) || Over(st, t, key))
  }

  lemma RegisteredIs(st: State, key: Key, identity: nat)
    requires LogInv(st) && Registered(st.log, |st.log|, key, identity)
    ensures 1 <= key.id <= |st.log| && st.log[key.id - 1] == Registration(key, identity)
  {}

  lemma RemovedStays(st: State, e: Event, key: Key)
    requires LogInv(st) && key in Removed(st)
    ensures key in Removed(Step(st, e)) && key.id <= |st.log|
  {
    var j :| 0 <= j < |st.log| && st.log[j].key == key;
    assert Step(st, e).log[j] == st.log[j];
  }

  lemma SettlingStep(st: State, e: Event, t: nat, key: Key)
    requires LogInv(st) && Settling(st, t, key)
    ensures Settling(Step(st, e), t, key) || Over(Step(st, e), t, key)
  {
    var next := Step(st, e);
    RegisteredIs(st, key, st.threads[t].answered);
    if Possible(st, e) && e == Invalidate(t) {
      forall i | i in next.sink.registered ensures next.sink.registered[i] != key.id {
        RegisteredIs(st, Key(st.sink.active.value, st.sink.registered[i]), i);
      }
    } else {
      assert next.log[key.id - 1] == st.log[key.id - 1];
    }
  }

  lemma OverStep(st: State, e: Event, t: nat, key: Key)
    requires LogInv(st) && Over(st, t, key) && key.id <= |st.log|
    ensures Over(Step(st, e), t, key)
  {}

  lemma HeardStep(st: State, e: Event, heard: set<(nat, Key)>)
    requires LogInv(st) && HeardInv(st, heard)
    ensures
      var now := heard + (if e.Submit? && e.status.BufferUnknown? && Possible(st, e)
                          then {(e.t, st.threads[e.t].key)} else {});
      HeardInv(Step(st, e), now)
  {
    var next := Step(st, e);
    forall t, key | (t, key) in heard
      ensures key in Removed(next) && key.id <= |next.log| && (Settling(next, t, key) || Over(next, t, key))
    {
      RemovedStays(st, e, key);
      if Settling(st, t, key) { SettlingStep(st, e, t, key); } else { OverStep(st, e, t, key); }
    }
    if e.Submit? && e.status.BufferUnknown? && Possible(st, e) { FirstHearing(st, e.t, heard); }
  }

  /** A thread that is told of a key has not been told of it before. */
  lemma FirstHearing(st: State, t: nat, heard: set<(nat, Key)>)
    requires LogInv(st) && HeardInv(st, heard) && Possible(st, Submit(t, BufferUnknown))
    ensures
      var key, next := st.threads[t].key, Step(st, Submit(t, BufferUnknown));
      (t, key) !in heard && key in Removed(next) && key.id <= |next.log| && Settling(next, t, key)
  {
    var key := st.threads[t].key;
    RegisteredIs(st, key, st.threads[t].submitted);
    assert st.log[key.id - 1].key == key;
  }

  lemma {:induction false} HeardExec(es: seq<Event>)
    ensures HeardInv(Exec(Start(), es), Heard(Start(), es))
  {
    if es != [] {
      HeardExec(es[..|es| - 1]);
      LogInvExec(Start(), es[..|es| - 1]);
      HeardStep(Exec(Start(), es[..|es| - 1]), es[|es| - 1], Heard(Start(), es[..|es| - 1]));
    }
  }

  /** Only the first n threads act. */
  ghost predicate ThreadsBelow(es: seq<Event>, n: nat) {
    forall k :: 0 <= k < |es| && !es[k].Forget? ==> es[k].t < n
  }

  lemma {:induction false} HeardBelow(es: seq<Event>, n: nat)
    requires ThreadsBelow(es, n)
    ensures forall t, key :: (t, key) in Heard(Start(), es) ==> t < n
  {
    if es != [] { HeardBelow(es[..|es| - 1], n); }
  }

  lemma {:induction false} PairsOfOne(pairs: set<(nat, Key)>, t: nat, keys: set<Key>)
    requires forall p :: p in pairs ==> p.0 == t && p.1 in keys
    ensures |pairs| <= |keys|
    decreases |pairs|
  {
    if pairs != {} {
      var p :| p in pairs;
      PairsOfOne(pairs - {p}, t, keys - {p.1});
    }
  }

  lemma {:induction false} PairsBound(pairs: set<(nat, Key)>, n: nat, keys: set<Key>)
    requires forall p :: p in pairs ==> p.0 < n && p.1 in keys
    ensures |pairs| <= n * |keys|
    decreases n
  {
    if n == 0 {
      assert pairs == {};
    } else {
      var last := set p | p in pairs && p.0 == n - 1;
      PairsOfOne(last, n - 1, keys);
      PairsBound(pairs - last, n - 1, keys);
      assert |pairs| == |pairs - last| + |last|;
      assert n * |keys| == (n - 1) * |keys| + |keys|;
    }
  }

  /**
   * Whatever the interleaving, a thread hears of a removed key at most once: n
   * threads get at most n BUFFER_UNKNOWN answers for each key removed.
   */
  lemma UnknownsBounded(es: seq<Event>, n: nat)
    requires ThreadsBelow(es, n)
    ensures Exec(Start(), es).unknowns <= n * |Removed(Exec(Start(), es))|
  {
    HeardExec(es);
    HeardBelow(es, n);
    PairsBound(Heard(Start(), es), n, Removed(Exec(Start(), es)));
  }

  /** Two submissions at once may both hear of one forgotten entry: the bound needs sequential runs. */
  lemma ConcurrentUnknowns() returns (es: seq<Event>)
    ensures Exec(Start(), es).unknowns == 2 && Exec(Start(), es).forgotten == 1
  {
    var st;
    es, st := BothSubmitting();
    OneForgotten(st);
    es, st := Extend(es, st, Forget({Key(1, 1)}));
    es, st := Extend(es, st, Submit(0, BufferUnknown));
    es, st := Extend(es, st, Submit(1, BufferUnknown));
  }

  lemma OneForgotten(st: State)
    requires st.threads == map[0 := Submitting(Key(1, 1), 7), 1 := Submitting(Key(1, 1), 7)]
    requires st.sink == Sink(Some(1), 2, map[7 := 1]) && st.table == map[Key(1, 1) := 7]
    requires st.unknowns == 0 && st.forgotten == 0
    ensures Step(st, Forget({Key(1, 1)})) == st.(table := map[], forgotten := 1)
  {
    assert Stale(st.sink, st.table) == {};
    assert st.table - {Key(1, 1)} == map[] && Stale(st.sink, map[]) == {7};
  }

  lemma BothSubmitting() returns (es: seq<Event>, st: State)
    ensures st == Exec(Start(), es)
    ensures st.threads == map[0 := Submitting(Key(1, 1), 7), 1 := Submitting(Key(1, 1), 7)]
    ensures st.sink == Sink(Some(1), 2, map[7 := 1]) && st.table == map[Key(1, 1) := 7]
    ensures st.unknowns == 0 && st.forgotten == 0
  {
    es, st := Extend([], Start(), Observe(0, 1, 7));
    es, st := Extend(es, st, Ensure(0, Accepted));
    es, st := Extend(es, st, Observe(1, 1, 7));
    es, st := Extend(es, st, Ensure(1, Accepted));
  }

  // The class.

  datatype Target = Target(identity: nat, isProtected: bool)

  /** What the endpoint, the resolver and the kernel answer during one submission. */
  datatype Answers = Answers(
    accepting: bool,
    generation: nat,
    hasBuffer: bool,
    target: Option<Target>,
    registration: Status,
    duplicated: bool,
    submission: Status,
    release: Option<Fence>)

  /** The cache after one submission, and the id and status of its request if one was made. */
  function SubmitEffect(s: Sink, acquire: Option<Fence>, a: Answers): (Sink, Option<(nat, Status)>) {
    if !a.accepting then (Forgotten(s), None)
    else if !a.hasBuffer || a.target.None? || a.target.value.isProtected then (s, None)
    else
      var (ensured, id) := Ensured(s, a.generation, a.target.value.identity, a.registration);
      if id.None? || (acquire.Some? && !a.duplicated) then (ensured, None)
      else (if a.submission.Accepted? then ensured
            else Invalidated(ensured, a.target.value.identity, id.value, a.submission),
            Some((id.value, a.submission)))
  }

  /** Whether the buffer shown has an id, in the cache or from the consumer. */
  predicate HasId(s: Sink, a: Answers)
    requires a.target.Some?
  {
    (s.active == Some(a.generation) && a.target.value.identity in s.registered) || a.registration.Accepted?
  }

  /**
   * A frame is sent exactly if the stream accepts, there is a buffer, it can be
   * resolved and is not protected, it has an id, and its fence could be
   * duplicated. A stream that does not accept empties the cache, and a buffer
   * that cannot be shown leaves it alone.
   */
  lemma SentExactly(s: Sink, acquire: Option<Fence>, a: Answers)
    ensures
      SubmitEffect(s, acquire, a).1.Some? <==>
        && a.accepting && a.hasBuffer && a.target.Some? && !a.target.value.isProtected
        && HasId(s, a) && (acquire.None? || a.duplicated)
    ensures SubmitEffect(s, acquire, a).1.Some? ==> SubmitEffect(s, acquire, a).1.value.1 == a.submission
    ensures !a.accepting ==> SubmitEffect(s, acquire, a).0 == Sink(None, s.nextId, map[])
    ensures a.accepting && (!a.hasBuffer || a.target.None? || a.target.value.isProtected) ==>
              SubmitEffect(s, acquire, a).0 == s
  {}

  /**
   * The events of one whole submission by thread 0. A consumer that does not
   * know the buffer may have forgotten it just now.
   */
  function SubmitEvents(s: Sink, acquire: Option<Fence>, a: Answers): seq<Event> {
    if !a.accepting then [ObserveIdle(0), Reset(0)]
    else if !a.hasBuffer || a.target.None? || a.target.value.isProtected then []
    else
      var found := [Observe(0, a.generation, a.target.value.identity), Ensure(0, a.registration)];
      var id := Ensured(s, a.generation, a.target.value.identity, a.registration).1;
      if id.None? then found
      else if acquire.Some? && !a.duplicated then found + [Abandon(0)]
      else if a.submission.Accepted? then found + [Submit(0, a.submission)]
      else if a.submission.BufferUnknown?
      then found + [Forget({Key(a.generation, id.value)}), Submit(0, a.submission), Invalidate(0)]
      else found + [Submit(0, a.submission), Invalidate(0)]
  }

  /**
   * An uninterrupted submission is a run of the machine: it leaves the cache
   * and makes the request that SubmitEffect says, and leaves no thread behind.
   */
  lemma SubmitIsRun(st: State, acquire: Option<Fence>, a: Answers)
    requires st.threads == map[]
    ensures
      var end := Exec(st, SubmitEvents(st.sink, acquire, a));
      var effect := SubmitEffect(st.sink, acquire, a);
      && end.sink == effect.0 && end.threads == map[]
      && |end.requests| == |st.requests| + (if effect.1.Some? then 1 else 0)
      && (effect.1.Some? ==> end.requests[|st.requests|].key == Key(a.generation, effect.1.value.0))
  {
    var es := SubmitEvents(st.sink, acquire, a);
    Unrolled(st, es);
    if a.accepting && es != [] {
      var g, i := a.generation, a.target.value.identity;
      LookupRun(st, g, i, a.registration);
      var id := Ensured(st.sink, g, i, a.registration).1;
      if id.Some? && |es| >= 3 {
        var found := Step(Step(st, Observe(0, g, i)), Ensure(0, a.registration));
        var key := Key(g, id.value);
        if es[2].Submit? { RequestRun(found, key, i, a.submission); }
        if es[2].Forget? {
          ForgetRun(found, key);
          RequestRun(Step(found, Forget({key})), key, i, a.submission);
        }
      }
    }
  }

  lemma LookupRun(st: State, g: nat, i: nat, status: Status)
    requires st.threads == map[]
    ensures
      var found := Step(Step(st, Observe(0, g, i)), Ensure(0, status));
      var (sink, id) := Ensured(st.sink, g, i, status);
      && found.sink == sink && found.requests == st.requests
      && found.threads == (if id.Some? then map[0 := Submitting(Key(g, id.value), i)] else map[])
      && (sink.nextId == st.sink.nextId ==> found.table == st.table)
  {}

  lemma ForgetRun(st: State, key: Key)
    ensures
      var next := Step(st, Forget({key}));
      && next.sink == st.sink && next.threads == st.threads && next.requests == st.requests
      && key !in next.table
  {}

  lemma RequestRun(st: State, key: Key, i: nat, status: Status)
    requires st.threads == map[0 := Submitting(key, i)]
    requires status.BufferUnknown? ==> key !in st.table
    ensures
      var asked := Step(st, Submit(0, status));
      && |asked.requests| == |st.requests| + 1 && asked.requests[|st.requests|].key == key
      && (status.Accepted? ==> asked.sink == st.sink && asked.threads == map[])
      && (!status.Accepted? ==>
            var end := Step(asked, Invalidate(0));
            end.sink == Invalidated(st.sink, i, key.id, status) && end.threads == map[]
            && end.requests == asked.requests)
  {}

  lemma LastStep(st: State, es: seq<Event>, k: nat)
    requires k < |es|
    ensures Exec(st, es[..k + 1]) == Step(Exec(st, es[..k]), es[k])
  {
    assert es[..k + 1][..k] == es[..k];
  }

  lemma Unrolled(st: State, es: seq<Event>)
    requires |es| <= 5
    ensures |es| == 0 ==> Exec(st, es) == st
    ensures |es| == 2 ==> Exec(st, es) == Step(Step(st, es[0]), es[1])
    ensures |es| == 3 ==> Exec(st, es) == Step(Step(Step(st, es[0]), es[1]), es[2])
    ensures |es| == 4 ==> Exec(st, es) == Step(Step(Step(Step(st, es[0]), es[1]), es[2]), es[3])
    ensures |es| == 5 ==> Exec(st, es) == Step(Step(Step(Step(Step(st, es[0]), es[1]), es[2]), es[3]), es[4])
  {
    forall k | 0 <= k < |es| ensures Exec(st, es[..k + 1]) == Step(Exec(st, es[..k]), es[k]) { LastStep(st, es, k); }
    assert es[..|es|] == es && Exec(st, es[..0]) == st;
    if |es| >= 2 {
      assert Exec(st, es[..0 + 1]) == Step(st, es[0]);
      assert Exec(st, es[..1 + 1]) == Step(Step(st, es[0]), es[1]);
    }
    if |es| >= 3 { assert Exec(st, es[..2 + 1]) == Step(Exec(st, es[..2]), es[2]); }
    if |es| >= 4 { assert Exec(st, es[..3 + 1]) == Step(Exec(st, es[..3]), es[3]); }
    if |es| >= 5 { assert Exec(st, es[..4 + 1]) == Step(Exec(st, es[..4]), es[4]); }
  }

  /** What became of a submission: never sent, refused, or taken by the consumer, with its release fence. */
  datatype Outcome = Unsent | Refused(release: Option<Fence>) | Taken(release: Option<Fence>)

  function OutcomeOf(s: Sink, acquire: Option<Fence>, a: Answers): Outcome {
    var request := SubmitEffect(s, acquire, a).1;
    if request.None? then Unsent
    else if request.value.1.Accepted? then Taken(a.release)
    else Refused(a.release)
  }

  /** The fence received from the consumer. */
  function Received(o: Outcome): Option<Fence> {
    if o.Unsent? then None else o.release
  }

  /** The fence given back to the caller of a submission. */
  function PresentFence(acquire: Option<Fence>, o: Outcome): Option<Fence> {
    if o.Taken? then o.release else acquire
  }

  /** The fence closed by a submission. */
  function ClosedBy(acquire: Option<Fence>, o: Outcome): Option<Fence> {
    match o
    case Unsent => None
    case Refused(release) => release
    case Taken(_) => acquire
  }

  predicate ResolverFails(a: Answers) {
    a.accepting && a.hasBuffer && a.target.None?
  }

  predicate RegistrationFails(s: Sink, a: Answers) {
    && a.accepting && a.hasBuffer && a.target.Some? && !a.target.value.isProtected
    && Ensured(s, a.generation, a.target.value.identity, a.registration).1.None?
  }

  /**
   * What becomes of a frame: it is taken exactly if it is sent and the consumer
   * accepts it. A frame that is taken gives back the release fence and closes
   * its own; any other gives back its own, and closes a release fence received.
   */
  lemma OutcomeExactly(s: Sink, acquire: Option<Fence>, a: Answers)
    ensures
      var sent, o := SubmitEffect(s, acquire, a).1.Some?, OutcomeOf(s, acquire, a);
      && (o.Taken? <==> sent && a.submission.Accepted?) && (o.Unsent? <==> !sent)
      && Received(o) == (if sent then a.release else None)
      && PresentFence(acquire, o) == (if sent && a.submission.Accepted? then a.release else acquire)
      && ClosedBy(acquire, o) == (if !sent then None else if a.submission.Accepted? then acquire else a.release)
  {}

  class StreamFrameSink {
    var sink: Sink
    var resolverFailures: nat
    var registerFailures: nat
    var submitFailures: nat
    var submittedFrames: nat

    constructor ()
      ensures sink == Empty() && submittedFrames == 0
      ensures resolverFailures == registerFailures == submitFailures == 0
    {
      sink, submittedFrames := Empty(), 0;
      resolverFailures, registerFailures, submitFailures := 0, 0, 0;
    }

    method EnsureBufferRegistered(generation: nat, identity: nat, status: Status) returns (id: Option<nat>)
      modifies this
      ensures (sink, id) == Ensured(old(sink), generation, identity, status)
      ensures registerFailures >= old(registerFailures)
      ensures id.None? <==> registerFailures == old(registerFailures) + 1
      ensures id.Some? <==> registerFailures == old(registerFailures)
      ensures resolverFailures == old(resolverFailures) && submitFailures == old(submitFailures)
      ensures submittedFrames == old(submittedFrames)
    {
      if sink.active != Some(generation) {
        sink := sink.(active := Some(generation), registered := map[]);
      }
      if identity in sink.registered { return Some(sink.registered[identity]); }
      if !status.Accepted? {
        registerFailures := registerFailures + 1;
        return None;
      }
      id := Some(sink.nextId);
      sink := sink.(nextId := sink.nextId + 1, registered := sink.registered[identity := id.value]);
    }

    method InvalidateRegistration(identity: nat, id: nat, status: Status)
      modifies this`sink
      ensures sink == Invalidated(old(sink), identity, id, status)
    {
      if status.StaleGeneration? || status.NoActiveStream? {
        sink := sink.(active := None, registered := map[]);
        return;
      }
      if !status.BufferUnknown? { return; }
      if identity in sink.registered && sink.registered[identity] == id {
        sink := sink.(registered := sink.registered - {identity});
      }
    }

    /**
     * One whole submission. A frame the consumer did not accept gives back
     * exactly its own acquire fence; an accepted one closes it and gives back
     * the consumer's release fence. No descriptor is lost or used twice.
     */
    method Submit(acquire: Option<Fence>, a: Answers) returns (present: Option<Fence>, closed: Option<Fence>)
      modifies this
      ensures sink == SubmitEffect(old(sink), acquire, a).0
      ensures present == PresentFence(acquire, OutcomeOf(old(sink), acquire, a))
      ensures closed == ClosedBy(acquire, OutcomeOf(old(sink), acquire, a))
      ensures OutcomeOf(old(sink), acquire, a).Taken? ==> present == a.release && closed == acquire
      ensures OutcomeOf(old(sink), acquire, a).Refused? ==> present == acquire && closed == a.release
      ensures OutcomeOf(old(sink), acquire, a).Unsent? ==> present == acquire && closed == None
      ensures submittedFrames == old(submittedFrames) + 1
      ensures resolverFailures - old(resolverFailures) == if ResolverFails(a) then 1 else 0
      ensures registerFailures - old(registerFailures) == if RegistrationFails(old(sink), a) then 1 else 0
      ensures submitFailures - old(submitFailures)
              == if OutcomeOf(old(sink), acquire, a).Refused? then 1 else 0
    {
      submittedFrames := submittedFrames + 1;
      if !a.accepting || !a.hasBuffer {
        if !a.accepting { sink := sink.(active := None, registered := map[]); }
        return acquire, None;
      }
      if a.target.None? {
        resolverFailures := resolverFailures + 1;
        return acquire, None;
      }
      if a.target.value.isProtected { return acquire, None; }
      var id := EnsureBufferRegistered(a.generation, a.target.value.identity, a.registration);
      if id.None? { return acquire, None; }
      if acquire.Some? && !a.duplicated { return acquire, None; }
      if !a.submission.Accepted? {
        submitFailures := submitFailures + 1;
        InvalidateRegistration(a.target.value.identity, id.value, a.submission);
        return acquire, a.release;
      }
      return a.release, acquire;
    }
  }
}
