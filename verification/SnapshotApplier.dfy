/**
 * Conversion of topology snapshots and the epoch protocol that applies them
 * (src/AidlDisplayTopologySubscriber.cpp). Every event is one region under the
 * applier's mutex, so an event sequence is any interleaving of listeners,
 * polls, reconnects, lease expiry and shutdown.
 */
module SnapshotApplier {
  import opened Basics
  import opened Sorting
  import opened DisplayTopology
  import RefreshRates
  import R = DisplayRegistry

  datatype Spec = Spec(
    displayId: int,
    port: int,
    width: int,
    height: int,
    dpi: int,
    rates: seq<int>,
    activeRate: int,
    name: string)

  datatype Snapshot = Snapshot(generation: int, displays: seq<Spec>)

  const MIN_DIMENSION := 320
  const MAX_DIMENSION := 7680
  const MIN_DPI := 72
  const MAX_DPI := 640
  const MAX_REFRESH_RATE := 60
  const MAX_PORT := 255

  predicate AcceptedSpec(s: Spec) {
    && s.displayId > 1
    && 0 < s.port <= MAX_PORT
    && MIN_DIMENSION <= s.width <= MAX_DIMENSION
    && MIN_DIMENSION <= s.height <= MAX_DIMENSION
    && MIN_DPI <= s.dpi <= MAX_DPI
    && s.name != ""
    && 0 < s.activeRate <= MAX_REFRESH_RATE
    && s.activeRate in s.rates
    && forall i :: 0 <= i < |s.rates| ==> 0 < s.rates[i] <= MAX_REFRESH_RATE
  }

  function ConfigOf(s: Spec): DisplayConfig
    requires AcceptedSpec(s)
  {
    DisplayConfig(s.displayId, s.port, s.width, s.height, s.dpi, RefreshRates.Period(s.activeRate),
                  seq(|s.rates|, i requires 0 <= i < |s.rates| => s.rates[i] as nat), External, s.name)
  }

  /** A snapshot is taken whole or not at all. */
  ghost predicate Accepted(s: Snapshot) {
    && s.generation > 0
    && (forall i :: 0 <= i < |s.displays| ==> AcceptedSpec(s.displays[i]))
    && (forall i, j :: 0 <= i < j < |s.displays| ==>
          s.displays[i].displayId != s.displays[j].displayId && s.displays[i].port != s.displays[j].port)
  }

  ghost function Configs(s: Snapshot): seq<DisplayConfig>
    requires Accepted(s)
  {
    seq(|s.displays|, i requires 0 <= i < |s.displays| => ConfigOf(s.displays[i]))
  }

  /** Every snapshot the conversion accepts is one the topology accepts. */
  lemma AcceptedSnapshotsApply(s: Snapshot)
    requires Accepted(s)
    ensures Acceptable(Configs(s))
  {
    var configs := Configs(s);
    forall c | c in configs ensures c.id != PRIMARY && IsValidExternal(c) {
      var i :| 0 <= i < |configs| && configs[i] == c;
      RefreshRates.PeriodAtLeast(1, s.displays[i].activeRate);
    }
    assert forall i, j :: 0 <= i < j < |configs| ==>
      Id()(configs[i]) != Id()(configs[j]) && Port()(configs[i]) != Port()(configs[j]);
  }

  /**
   * One field of an otherwise acceptable spec decides: the id is not the
   * primary's, the port fits in eight bits, dimensions, density and rates are
   * within their limits, the name is not empty, the active rate is supported.
   */
  lemma AcceptedWithin(s: Spec, n: int, name: string)
    requires AcceptedSpec(s)
    ensures AcceptedSpec(s.(displayId := n)) <==> n >= 2
    ensures AcceptedSpec(s.(port := n)) <==> 1 <= n <= 255
    ensures AcceptedSpec(s.(width := n)) <==> 320 <= n <= 7680
    ensures AcceptedSpec(s.(height := n)) <==> 320 <= n <= 7680
    ensures AcceptedSpec(s.(dpi := n)) <==> 72 <= n <= 640
    ensures AcceptedSpec(s.(name := name)) <==> |name| > 0
    ensures AcceptedSpec(s.(activeRate := n)) <==> n in s.rates
    ensures AcceptedSpec(s.(rates := s.rates + [n])) <==> 1 <= n <= 60
    ensures !AcceptedSpec(s.(rates := []))
  {
    var more := s.rates + [n];
    assert more[|s.rates|] == n;
    assert forall i :: 0 <= i < |s.rates| ==> more[i] == s.rates[i];
    if n in s.rates { var k :| 0 <= k < |s.rates| && s.rates[k] == n; }
    assert s.activeRate in more;
  }

  function SpecOf(c: DisplayConfig, activeRate: nat): Spec {
    Spec(c.id, c.port, c.width, c.height, c.dpi,
         seq(|c.rates|, i requires 0 <= i < |c.rates| => c.rates[i] as int), activeRate, c.name)
  }

  /** A conversion loses nothing but the active rate, which becomes the period nearest to it. */
  lemma ConversionRoundTrip(s: Spec)
    requires AcceptedSpec(s)
    ensures SpecOf(ConfigOf(s), s.activeRate) == s
    ensures ConfigOf(s).connection.External?
    ensures 2 * RefreshRates.NANOS - s.activeRate < 2 * (ConfigOf(s).vsyncPeriod * s.activeRate)
            <= 2 * RefreshRates.NANOS + s.activeRate
  {
    RefreshRates.PeriodIsNearest(s.activeRate);
    assert SpecOf(ConfigOf(s), s.activeRate).rates == s.rates;
  }

  method ConvertDisplaySpec(s: Spec) returns (config: Option<DisplayConfig>)
    ensures config == if AcceptedSpec(s) then Some(ConfigOf(s)) else None
  {
    if s.displayId <= 1 || s.port <= 0 || s.port > MAX_PORT
       || s.width < MIN_DIMENSION || s.width > MAX_DIMENSION
       || s.height < MIN_DIMENSION || s.height > MAX_DIMENSION
       || s.dpi < MIN_DPI || s.dpi > MAX_DPI || s.name == ""
       || s.rates == [] || s.activeRate <= 0 || s.activeRate > MAX_REFRESH_RATE {
      return None;
    }
    var rates: seq<nat> := [];
    var containsActive := false;
    for i := 0 to |s.rates|
      invariant forall k :: 0 <= k < i ==> 0 < s.rates[k] <= MAX_REFRESH_RATE
      invariant |rates| == i && forall k :: 0 <= k < i ==> rates[k] == s.rates[k]
      invariant containsActive <==> s.activeRate in s.rates[..i]
    {
      assert s.rates[..i + 1] == s.rates[..i] + [s.rates[i]];
      if s.rates[i] <= 0 || s.rates[i] > MAX_REFRESH_RATE { return None; }
      if s.rates[i] == s.activeRate { containsActive := true; }
      rates := rates + [s.rates[i]];
    }
    assert s.rates[..|s.rates|] == s.rates;
    if !containsActive { return None; }
    config := Some(DisplayConfig(s.displayId, s.port, s.width, s.height, s.dpi,
                                 RefreshRates.Period(s.activeRate), rates, External, s.name));
    assert rates == ConfigOf(s).rates;
  }

  lemma AcceptedExtends(s: Snapshot, i: nat)
    requires i < |s.displays| && Accepted(Snapshot(s.generation, s.displays[..i]))
    requires AcceptedSpec(s.displays[i])
    requires forall k :: 0 <= k < i ==>
               s.displays[k].displayId != s.displays[i].displayId && s.displays[k].port != s.displays[i].port
    ensures Accepted(Snapshot(s.generation, s.displays[..i + 1]))
    ensures Configs(Snapshot(s.generation, s.displays[..i + 1]))
            == Configs(Snapshot(s.generation, s.displays[..i])) + [ConfigOf(s.displays[i])]
  {
    var prefix := s.displays[..i + 1];
    assert forall k :: 0 <= k < i ==> prefix[k] == s.displays[..i][k] == s.displays[k];
  }

  method ConvertSnapshot(s: Snapshot) returns (displays: Option<seq<DisplayConfig>>)
    ensures displays.Some? <==> Accepted(s)
    ensures displays.Some? ==>
              && multiset(displays.value) == multiset(Configs(s))
              && SortedBy(displays.value, Id())
  {
    if s.generation <= 0 { return None; }
    var converted: seq<DisplayConfig> := [];
    var ids: set<nat> := {};
    var ports: set<nat> := {};
    for i := 0 to |s.displays|
      invariant Accepted(Snapshot(s.generation, s.displays[..i]))
      invariant converted == Configs(Snapshot(s.generation, s.displays[..i]))
      invariant forall x :: x in ids <==> exists k :: 0 <= k < i && s.displays[k].displayId == x
      invariant forall x :: x in ports <==> exists k :: 0 <= k < i && s.displays[k].port == x
    {
      var config := ConvertDisplaySpec(s.displays[i]);
      if config.None? { return None; }
      if config.value.id in ids || config.value.port in ports { return None; }
      AcceptedExtends(s, i);
      ids := ids + {config.value.id};
      ports := ports + {config.value.port};
      converted := converted + [config.value];
    }
    assert s.displays[..|s.displays|] == s.displays;
    var sorted := SortBy(converted, Id());
    return Some(sorted);
  }

  // The epoch protocol.

  /** Epochs are unsigned 64-bit and skip zero when they wrap. */
  const MAX_EPOCH := 0xFFFF_FFFF_FFFF_FFFF

  function NextEpoch(epoch: nat): nat {
    if epoch == MAX_EPOCH then 1 else epoch + 1
  }

  /** A snapshot that changed the topology, in the service epoch after `bumps` epoch changes. */
  datatype Mutation = Mutation(bumps: nat, generation: nat)

  datatype State = State(
    epoch: nat,
    lastGeneration: nat,
    lastRejected: int,
    stopping: bool,
    topology: Topology,
    bumps: nat,
    log: seq<Mutation>)

  datatype Event =
    | Begin
    | Apply(bound: nat, snapshot: Snapshot)
    | End(ended: nat)
    | Clear
    | Stop

  ghost function Start(topology: Topology): State {
    State(0, 0, 0, false, topology, 0, [])
  }

  function Bumped(st: State): State {
    st.(epoch := NextEpoch(st.epoch), lastGeneration := 0, lastRejected := 0, bumps := st.bumps + 1)
  }

  /** The snapshot reaches the registry: it is accepted, for the active epoch, and newer than the last. */
  ghost predicate Mutates(st: State, bound: nat, s: Snapshot) {
    !st.stopping && bound == st.epoch && Accepted(s) && s.generation > st.lastGeneration
  }

  /** What Apply answers: the snapshot is applied, or is already covered by the last one. */
  ghost predicate Answer(st: State, bound: nat, s: Snapshot) {
    !st.stopping && bound == st.epoch && Accepted(s)
  }

  ghost function Step(st: State, e: Event): State
    requires Valid(st.topology)
  {
    match e
    case Begin => if st.stopping then st else Bumped(st)
    case Apply(bound, s) =>
      if Mutates(st, bound, s) then
        AcceptedSnapshotsApply(s);
        st.(topology := ReplacedBy(st.topology, Configs(s)), lastGeneration := s.generation, lastRejected := 0,
            log := st.log + [Mutation(st.bumps, s.generation)])
      else if !st.stopping && bound == st.epoch && !Accepted(s) then st.(lastRejected := s.generation)
      else st
    case End(ended) => if ended == st.epoch then Bumped(st) else st
    case Clear => if st.stopping then st else st.(topology := ReplacedBy(st.topology, []))
    case Stop => st.(stopping := true)
  }

  lemma StepValid(st: State, e: Event)
    requires Valid(st.topology)
    ensures Valid(Step(st, e).topology)
  {
    match e
    case Apply(bound, s) =>
      if Mutates(st, bound, s) {
        AcceptedSnapshotsApply(s);
        ReplacedValid(st.topology, Configs(s), ReplacedBy(st.topology, Configs(s)));
      }
    case Clear => ReplacedValid(st.topology, [], ReplacedBy(st.topology, []));
    case _ =>
  }

  ghost function Exec(st: State, es: seq<Event>): (end: State)
    requires Valid(st.topology)
    ensures Valid(end.topology)
  {
    if es == [] then st
    else
      var before := Exec(st, es[..|es| - 1]);
      StepValid(before, es[|es| - 1]);
      Step(before, es[|es| - 1])
  }

  // Confluence.

  ghost predicate OnlyDeliveries(es: seq<Event>) {
    forall k :: 0 <= k < |es| ==> es[k].Apply?
  }

  /** A delivery of the active epoch that the conversion accepts. */
  ghost predicate Counts(epoch: nat, e: Event) {
    e.Apply? && e.bound == epoch && Accepted(e.snapshot)
  }

  /** Equal generations carry equal content, up to the order of the displays. */
  ghost predicate Consistent(epoch: nat, es: seq<Event>) {
    forall j, k :: 0 <= j < k < |es| && Counts(epoch, es[j]) && Counts(epoch, es[k])
                   && es[j].snapshot.generation == es[k].snapshot.generation ==>
      SameMembers(Configs(es[j].snapshot), Configs(es[k].snapshot))
  }

  /** The delivery whose snapshot the run ends with. */
  ghost predicate Leads(st: State, e: Event, end: State)
    requires Valid(st.topology)
  {
    && Counts(st.epoch, e) && e.snapshot.generation == end.lastGeneration
    && Replaced(st.topology, Configs(e.snapshot), end.topology)
  }

  lemma ReplacedTwice(before: Topology, a: seq<DisplayConfig>, m: Topology, b: seq<DisplayConfig>, n: Topology)
    requires PRIMARY in before && Replaced(before, a, m) && Replaced(m, b, n)
    ensures Replaced(before, b, n)
  {}

  /**
   * Within one epoch the deliveries leave the accepted snapshot of the greatest
   * generation, whoever delivered it and however often; rejected snapshots and
   * listeners of other epochs leave nothing.
   */
  lemma {:induction false} GreatestGenerationWins(st: State, es: seq<Event>)
    requires Valid(st.topology) && !st.stopping && OnlyDeliveries(es)
    ensures
      var end := Exec(st, es);
      && end.epoch == st.epoch && !end.stopping
      && st.lastGeneration <= end.lastGeneration
      && (forall e :: e in es && Counts(st.epoch, e) ==> e.snapshot.generation <= end.lastGeneration)
      && (if end.lastGeneration == st.lastGeneration then end.topology == st.topology
          else exists e :: e in es && Leads(st, e, end))
  {
    if es != [] {
      var prefix, e := es[..|es| - 1], es[|es| - 1];
      assert OnlyDeliveries(prefix);
      GreatestGenerationWins(st, prefix);
      var before, end := Exec(st, prefix), Exec(st, es);
      assert es == prefix + [e];
      if Mutates(before, e.bound, e.snapshot) {
        AcceptedSnapshotsApply(e.snapshot);
        var configs := Configs(e.snapshot);
        assert Replaced(before.topology, configs, end.topology);
        if before.lastGeneration != st.lastGeneration {
          var d :| d in prefix && Leads(st, d, before);
          ReplacedTwice(st.topology, Configs(d.snapshot), before.topology, configs, end.topology);
        }
        assert e in es && Leads(st, e, end);
      }
    }
  }

  /** Confluence: order, duplication and the mix of callbacks and polls do not matter. */
  lemma SnapshotConfluence(st: State, es: seq<Event>, fs: seq<Event>)
    requires Valid(st.topology) && !st.stopping
    requires OnlyDeliveries(es) && OnlyDeliveries(fs) && SameMembers(es, fs)
    requires Consistent(st.epoch, es)
    ensures Exec(st, es).topology == Exec(st, fs).topology
    ensures Exec(st, es).lastGeneration == Exec(st, fs).lastGeneration
  {
    GreatestGenerationWins(st, es);
    GreatestGenerationWins(st, fs);
    var a, b := Exec(st, es), Exec(st, fs);
    assert a.lastGeneration == b.lastGeneration;
    if a.lastGeneration != st.lastGeneration {
      var d :| d in es && Leads(st, d, a);
      var e :| e in fs && Leads(st, e, b);
      SameWinner(st, es, d, e, a, b);
    }
  }

  lemma SameWinner(st: State, es: seq<Event>, d: Event, e: Event, a: State, b: State)
    requires Valid(st.topology) && Consistent(st.epoch, es) && d in es && e in es
    requires Leads(st, d, a) && Leads(st, e, b) && a.lastGeneration == b.lastGeneration
    ensures a.topology == b.topology
  {
    var j :| 0 <= j < |es| && es[j] == d;
    var k :| 0 <= k < |es| && es[k] == e;
    assert SameMembers(Configs(d.snapshot), Configs(e.snapshot));
    ReplacedUnique(st.topology, Configs(d.snapshot), Configs(e.snapshot), a.topology, b.topology);
  }

  /**
   * A clear forgets the displays but not the generation: in the same epoch a
   * later delivery changes the topology exactly when its generation is new,
   * although one already seen is still answered as applied.
   */
  lemma ClearKeepsGeneration(st: State, s: Snapshot)
    requires Valid(st.topology) && !st.stopping && Accepted(s)
    ensures
      var cleared := Step(st, Clear);
      && Valid(cleared.topology) && cleared.topology.Keys == {PRIMARY}
      && Answer(cleared, st.epoch, s)
      && (s.generation <= st.lastGeneration ==> Step(cleared, Apply(st.epoch, s)).topology == cleared.topology)
      && (s.generation > st.lastGeneration ==>
            Replaced(cleared.topology, Configs(s), Step(cleared, Apply(st.epoch, s)).topology))
  {
    StepValid(st, Clear);
    AcceptedSnapshotsApply(s);
    var m := ReplacedBy(st.topology, []);
    assert m.Keys == {PRIMARY};
  }

  /**
   * A new service starts over. After Begin, whatever generation the epoch
   * before had reached, the deliveries to the new epoch leave its accepted
   * snapshot of the greatest generation; with none accepted, nothing changes.
   */
  lemma NewServiceStartsOver(st: State, es: seq<Event>)
    requires Valid(st.topology) && !st.stopping && OnlyDeliveries(es)
    ensures
      var begun := Step(st, Begin);
      var end := Exec(begun, es);
      && begun.topology == st.topology && begun.epoch == NextEpoch(st.epoch) && begun.lastGeneration == 0
      && (forall e :: e in es && Counts(begun.epoch, e) ==> e.snapshot.generation <= end.lastGeneration)
      && (if exists e :: e in es && Counts(begun.epoch, e)
          then exists e :: e in es && Leads(begun, e, end)
          else end.topology == st.topology)
  {
    var begun := Step(st, Begin);
    GreatestGenerationWins(begun, es);
  }

  /** The first snapshot of a new service is applied, whatever its generation, and so after an End. */
  lemma FirstSnapshotApplies(st: State, s: Snapshot)
    requires Valid(st.topology) && !st.stopping && Accepted(s)
    ensures
      var begun := Step(st, Begin);
      Answer(begun, begun.epoch, s) && Replaced(st.topology, Configs(s), Step(begun, Apply(begun.epoch, s)).topology)
    ensures
      var ended := Step(st, End(st.epoch));
      Answer(ended, ended.epoch, s) && Replaced(st.topology, Configs(s), Step(ended, Apply(ended.epoch, s)).topology)
  {
    AcceptedSnapshotsApply(s);
  }

  /**
   * What Apply answers: yes exactly if the snapshot is accepted and for the
   * active epoch of a running applier; then the epoch has reached at least its
   * generation. After a no nothing is different for later snapshots.
   */
  lemma AnswerTells(st: State, bound: nat, s: Snapshot)
    requires Valid(st.topology)
    ensures
      var next := Step(st, Apply(bound, s));
      && (Answer(st, bound, s) <==> !st.stopping && Counts(st.epoch, Apply(bound, s)))
      && next.epoch == st.epoch && next.stopping == st.stopping
      && (Answer(st, bound, s) ==>
            next.lastGeneration == if s.generation > st.lastGeneration then s.generation else st.lastGeneration)
      && (!Answer(st, bound, s) ==> next.lastGeneration == st.lastGeneration && next.topology == st.topology)
  {}

  /**
   * The last refused generation is remembered, so that repeating it is not
   * reported again, until a snapshot is applied or the epoch changes.
   */
  lemma RefusalRemembered(st: State, e: Event)
    requires Valid(st.topology)
    ensures
      Step(st, e).lastRejected
        == match e
           case Apply(bound, s) =>
             if st.stopping || bound != st.epoch then st.lastRejected
             else if !Accepted(s) then s.generation
             else if s.generation > st.lastGeneration then 0 else st.lastRejected
           case Begin => if st.stopping then st.lastRejected else 0
           case End(ended) => if ended == st.epoch then 0 else st.lastRejected
           case _ => st.lastRejected
  {}

  // Epoch isolation.

  /** Only a listener bound to the active epoch, or a clear, changes the topology; after a stop nothing does. */
  lemma ChangesOnlyInEpoch(st: State, e: Event)
    requires Valid(st.topology)
    ensures Step(st, e).topology != st.topology ==>
              !st.stopping && (e.Clear? || (e.Apply? && e.bound == st.epoch))
  {}

  lemma {:induction false} NothingAfterStop(st: State, es: seq<Event>)
    requires Valid(st.topology) && st.stopping
    ensures Exec(st, es).stopping && Exec(st, es).topology == st.topology && Exec(st, es).log == st.log
  {
    if es != [] {
      NothingAfterStop(st, es[..|es| - 1]);
    }
  }

  /** After Stop no epoch begins, and nothing changes the topology, whatever listeners and polls deliver. */
  lemma StopIsFinal(st: State, es: seq<Event>)
    requires Valid(st.topology)
    ensures Exec(Step(st, Stop), es).topology == st.topology
    ensures Step(Step(st, Stop), Begin) == Step(st, Stop)
  {
    NothingAfterStop(Step(st, Stop), es);
  }

  /** Ending an epoch that is not the active one changes nothing. */
  lemma LateEndIsIgnored(st: State, ended: nat)
    requires Valid(st.topology) && ended != st.epoch
    ensures Step(st, End(ended)) == st
  {}

  function EpochAfter(epoch: nat, bumps: nat): nat {
    if bumps == 0 then epoch else NextEpoch(EpochAfter(epoch, bumps - 1))
  }

  lemma NextModulus(x: nat)
    ensures (x + 1) % MAX_EPOCH == if x % MAX_EPOCH == MAX_EPOCH - 1 then 0 else x % MAX_EPOCH + 1
  {}

  lemma {:induction false} EpochCycle(epoch: nat, bumps: nat)
    requires 1 <= epoch <= MAX_EPOCH
    ensures EpochAfter(epoch, bumps) == (epoch - 1 + bumps) % MAX_EPOCH + 1
  {
    if bumps > 0 {
      EpochCycle(epoch, bumps - 1);
      NextModulus(epoch - 2 + bumps);
    }
  }

  /** An epoch number comes back exactly after every 2^64 - 1 epoch changes. */
  lemma EpochReturns(epoch: nat, bumps: nat)
    requires 1 <= epoch <= MAX_EPOCH
    ensures EpochAfter(epoch, bumps) == epoch <==> bumps % MAX_EPOCH == 0
  {
    EpochCycle(epoch, bumps);
    EpochCycle(epoch, 0);
  }

  ghost predicate EpochPath(from: State, to: State) {
    to.bumps >= from.bumps && to.epoch == EpochAfter(from.epoch, to.bumps - from.bumps)
  }

  lemma EpochStep(st: State, e: Event)
    requires Valid(st.topology)
    ensures EpochPath(st, Step(st, e))
  {
    assert EpochAfter(st.epoch, 1) == NextEpoch(EpochAfter(st.epoch, 0));
  }

  lemma {:induction false} EpochJoin(epoch: nat, j: nat, k: nat)
    ensures EpochAfter(EpochAfter(epoch, j), k) == EpochAfter(epoch, j + k)
  {
    if k > 0 { EpochJoin(epoch, j, k - 1); }
  }

  lemma {:induction false} EpochOfRun(st: State, es: seq<Event>)
    requires Valid(st.topology)
    ensures EpochPath(st, Exec(st, es))
  {
    if es != [] {
      var before := Exec(st, es[..|es| - 1]);
      EpochOfRun(st, es[..|es| - 1]);
      EpochStep(before, es[|es| - 1]);
      PathJoin(st, before, Exec(st, es));
    }
  }

  lemma PathJoin(a: State, b: State, c: State)
    requires EpochPath(a, b) && EpochPath(b, c)
    ensures EpochPath(a, c)
  {
    EpochJoin(a.epoch, b.bumps - a.bumps, c.bumps - b.bumps);
  }

  /** An epoch left behind is not active again, short of 2^64 - 1 epoch changes. */
  lemma EpochGone(st: State, end: State)
    requires 1 <= st.epoch <= MAX_EPOCH && EpochPath(Bumped(st), end) && end.bumps - st.bumps < MAX_EPOCH
    ensures end.epoch != st.epoch
  {
    var k := end.bumps - Bumped(st).bumps;
    assert EpochAfter(st.epoch, 1) == NextEpoch(EpochAfter(st.epoch, 0));
    EpochJoin(st.epoch, 1, k);
    EpochReturns(st.epoch, k + 1);
    SmallModulus(k + 1, MAX_EPOCH);
  }

  /**
   * An ended epoch never becomes active again, short of 2^64 - 1 further epoch
   * changes: whatever happens after its End, or after the Begin of the next, a
   * listener bound to it is powerless.
   */
  lemma EndedEpochIsDead(st: State, ending: Event, es: seq<Event>, s: Snapshot)
    requires Valid(st.topology) && 1 <= st.epoch <= MAX_EPOCH
    requires ending == End(st.epoch) || (ending == Begin && !st.stopping)
    ensures
      var end := Exec(Step(st, ending), es);
      end.bumps - st.bumps < MAX_EPOCH ==>
        end.epoch != st.epoch && Step(end, Apply(st.epoch, s)) == end
  {
    var ended := Step(st, ending);
    StepValid(st, ending);
    EpochOfRun(ended, es);
    var end := Exec(ended, es);
    if end.bumps - st.bumps < MAX_EPOCH { EpochGone(st, end); }
  }

  lemma SmallModulus(k: nat, m: nat)
    requires 0 < k < m
    ensures k % m != 0
  {}

  ghost predicate LogInv(st: State) {
    && (forall i :: 0 <= i < |st.log| ==> st.log[i].bumps <= st.bumps)
    && (forall i :: 0 <= i < |st.log| && st.log[i].bumps == st.bumps ==> st.log[i].generation <= st.lastGeneration)
    && (forall i, j :: 0 <= i < j < |st.log| ==>
          || st.log[i].bumps < st.log[j].bumps
          || (st.log[i].bumps == st.log[j].bumps && st.log[i].generation < st.log[j].generation))
  }

  lemma LogStep(st: State, e: Event)
    requires Valid(st.topology) && LogInv(st)
    ensures LogInv(Step(st, e))
  {
    if e.Apply? && Mutates(st, e.bound, e.snapshot) {
      var log := Step(st, e).log;
      assert log[|st.log|] == Mutation(st.bumps, e.snapshot.generation);
      assert forall i :: 0 <= i < |st.log| ==> log[i] == st.log[i];
    }
  }

  lemma {:induction false} LogOrdered(st: State, es: seq<Event>)
    requires Valid(st.topology) && LogInv(st)
    ensures LogInv(Exec(st, es))
  {
    if es != [] {
      LogOrdered(st, es[..|es| - 1]);
      LogStep(Exec(st, es[..|es| - 1]), es[|es| - 1]);
    }
  }

  /** Within one service epoch the generations that change the topology strictly increase. */
  lemma GenerationsIncrease(topology: Topology, es: seq<Event>, i: nat, j: nat)
    requires Valid(topology)
    requires i < j < |Exec(Start(topology), es).log|
    ensures
      var log := Exec(Start(topology), es).log;
      log[i].bumps == log[j].bumps ==> log[i].generation < log[j].generation
  {
    LogOrdered(Start(topology), es);
  }

  // The class.

  class TopologySnapshotApplier {
    const target: R.DisplayRegistry
    var attached: bool
    var epoch: nat
    var lastGeneration: nat
    var lastRejected: int
    var stopping: bool
    ghost var bumps: nat
    ghost var log: seq<Mutation>

    ghost function Current(): State
      reads this, target, target.topology
    {
      State(epoch, lastGeneration, lastRejected, stopping, target.topology.displays, bumps, log)
    }

    ghost predicate Ready()
      reads this, target, target.topology
    {
      R.Inv(target.Current()) && (attached <==> !stopping)
    }

    constructor (registry: R.DisplayRegistry)
      requires R.Inv(registry.Current())
      ensures target == registry && Ready() && Current() == Start(registry.topology.displays)
    {
      target := registry;
      attached, epoch, lastGeneration, lastRejected, stopping := true, 0, 0, 0, false;
      bumps, log := 0, [];
    }

    method Bump()
      modifies this
      ensures Current() == Bumped(old(Current())) && attached == old(attached)
    {
      epoch := if epoch == MAX_EPOCH then 1 else epoch + 1;
      lastGeneration := 0;
      lastRejected := 0;
      bumps := bumps + 1;
    }

    method BeginServiceEpoch() returns (begun: nat)
      requires Ready()
      modifies this
      ensures Ready() && Current() == Step(old(Current()), Begin)
      ensures begun == if stopping then 0 else epoch
    {
      if stopping { return 0; }
      Bump();
      return epoch;
    }

    method EndServiceEpoch(ended: nat)
      requires Ready()
      modifies this
      ensures Ready() && Current() == Step(old(Current()), End(ended))
    {
      if ended != epoch { return; }
      Bump();
    }

    /** The registry call shared by Apply and Clear, on an acceptable request. */
    method ReplaceAll(configs: seq<DisplayConfig>, ghost request: seq<DisplayConfig>) returns (result: Result)
      requires Ready() && Acceptable(configs) && multiset(configs) == multiset(request) && Acceptable(request)
      modifies target, target.topology
      ensures Ready() && result.Success?
      ensures target.topology.displays == ReplacedBy(old(target.topology.displays), request)
    {
      ghost var before := target.Current();
      var changes;
      result, changes := target.ReplaceExternalDisplays(configs);
      ghost var e := R.Replace(configs, target.topology.displays, changes);
      R.InvStep(before, e);
      R.DrainedInv(R.Step(before, e));
      SameElems(configs, request);
      ReplacedUnique(before.topology, configs, request,
                     target.topology.displays, ReplacedBy(before.topology, request));
    }

    method Apply(bound: nat, snapshot: Snapshot) returns (applied: bool)
      requires Ready()
      modifies this, target, target.topology
      ensures Ready() && Current() == Step(old(Current()), Event.Apply(bound, snapshot))
      ensures applied <==> old(Answer(Current(), bound, snapshot))
    {
      var displays := ConvertSnapshot(snapshot);
      if stopping || !attached || bound != epoch { return false; }
      if displays.None? {
        if lastRejected != snapshot.generation { lastRejected := snapshot.generation; }
        return false;
      }
      if snapshot.generation <= lastGeneration { return true; }
      AcceptedSnapshotsApply(snapshot);
      AcceptableInAnyOrder(displays.value, Configs(snapshot));
      var result := ReplaceAll(displays.value, Configs(snapshot));
      if !result.Success? { return false; }
      lastGeneration := snapshot.generation;
      lastRejected := 0;
      log := log + [Mutation(bumps, snapshot.generation)];
      return true;
    }

    method ClearExternalDisplays() returns (cleared: bool)
      requires Ready()
      modifies this, target, target.topology
      ensures Ready() && Current() == Step(old(Current()), Clear)
      ensures cleared == !stopping
    {
      if stopping || !attached { return false; }
      var result := ReplaceAll([], []);
      return result.Success?;
    }

    method Shutdown()
      requires Ready()
      modifies this
      ensures Ready() && Current() == Step(old(Current()), Stop)
    {
      stopping := true;
      attached := false;
    }
  }
}
