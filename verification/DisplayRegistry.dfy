/**
 * Live displays and hotplug notification (src/DisplayRegistry.cpp).
 *
 * A mutation holds the hotplug mutex from the topology change to its last
 * notification, but takes the map's mutex once per erased or inserted display.
 * The machine keeps what a mutation has still to do in `todo`, so a reader may
 * look between any two of its actions.
 */
module DisplayRegistry {
  import opened Basics
  import opened Sorting
  import T = DisplayTopology
  import opened DisplayTopology

  /** A live display object; the serial is its identity. */
  datatype Ref = Ref(serial: nat, config: DisplayConfig)

  type Displays = map<nat, Ref>

  datatype Action =
    | Erase(erased: nat)
    | Insert(inserted: nat, ref: Ref)
    | Notify(id: nat, connected: bool)

  /** One call of the hotplug callback; `visible` says whether Get(id) finds the display in it. */
  datatype Hotplug = Hotplug(id: nat, connected: bool, visible: bool)

  /** `announced` is what a client that got every notification believes connected. */
  datatype State = State(
    topology: Topology,
    displays: Displays,
    todo: seq<Action>,
    announced: set<nat>,
    callback: bool,
    log: seq<Hotplug>,
    nextSerial: nat)

  datatype Event =
    | Install(callback: bool, ids: seq<nat>)
    | Connect(config: DisplayConfig)
    | Disconnect(id: nat)
    | Replace(configs: seq<DisplayConfig>, after: Topology, changes: Changes)
    | Tick

  function Start(primary: DisplayConfig): State {
    var config := primary.(id := PRIMARY, port := 0, connection := Internal);
    State(map[PRIMARY := config], map[PRIMARY := Ref(0, config)], [], {PRIMARY}, false, [], 1)
  }

  // The actions of a mutation, from position k of its list on.

  function Announcements(ids: seq<nat>, k: nat := 0): seq<Action>
    requires k <= |ids|
    decreases |ids| - k
  {
    if k == |ids| then [] else [Notify(ids[k], true)] + Announcements(ids, k + 1)
  }

  function Removals(ids: seq<nat>, k: nat := 0): seq<Action>
    requires k <= |ids|
    decreases |ids| - k
  {
    if k == |ids| then [] else [Erase(ids[k]), Notify(ids[k], false)] + Removals(ids, k + 1)
  }

  function Additions(configs: seq<DisplayConfig>, serial: nat, k: nat := 0): seq<Action>
    requires k <= |configs|
    decreases |configs| - k
  {
    if k == |configs| then []
    else [Insert(configs[k].id, Ref(serial + k, configs[k])), Notify(configs[k].id, true)]
         + Additions(configs, serial, k + 1)
  }

  /** Mutations wait for the hotplug mutex; refused requests change nothing and are not events. */
  ghost predicate Possible(s: State, e: Event) {
    match e
    case Install(_, ids) => s.todo == [] && StrictBy(ids, Identity()) && forall i :: i in ids <==> i in s.displays
    case Connect(c) =>
      && s.todo == [] && c.id != PRIMARY && IsValidExternal(c) && c.id !in s.topology
      && forall i :: i in s.topology ==> s.topology[i].port != c.port
    case Disconnect(id) => s.todo == [] && id != PRIMARY && id != 0 && id in s.topology
    case Replace(configs, after, changes) =>
      && s.todo == [] && PRIMARY in s.topology && Acceptable(configs)
      && Replaced(s.topology, configs, after) && IsDiff(s.topology, after, changes)
    case Tick => s.todo != []
  }

  ghost function Step(s: State, e: Event): State {
    if !Possible(s, e) then s
    else match e
      case Install(callback, ids) =>
        if callback
        then s.(callback := true, log := [], announced := {}, todo := Announcements(ids))
        else s.(callback := false, log := [])
      case Connect(c) =>
        s.(topology := s.topology[c.id := AsExternal(c)],
           todo := Additions([c], s.nextSerial), nextSerial := s.nextSerial + 1)
      case Disconnect(id) => s.(topology := s.topology - {id}, todo := Removals([id]))
      case Replace(_, after, changes) =>
        s.(topology := after,
           todo := Removals(changes.disconnected) + Additions(changes.connected, s.nextSerial),
           nextSerial := s.nextSerial + |changes.connected|)
      case Tick => Act(s)
  }

  /** The next action of the mutation under way. */
  function Act(s: State): State
    requires s.todo != []
  {
    var rest := s.(todo := s.todo[1..]);
    match s.todo[0]
    case Erase(id) => rest.(displays := s.displays - {id})
    case Insert(id, ref) => rest.(displays := s.displays[id := ref])
    case Notify(id, connected) =>
      rest.(announced := Told(s.announced, id, connected),
            log := if s.callback then s.log + [Hotplug(id, connected, id in s.displays)] else s.log)
  }

  function Told(ids: set<nat>, id: nat, connected: bool): set<nat> {
    if connected then ids + {id} else ids - {id}
  }

  ghost function Exec(s: State, es: seq<Event>): State {
    if es == [] then s else Step(Exec(s, es[..|es| - 1]), es[|es| - 1])
  }

  /** The whole of what a mutation has still to do. */
  function Drained(s: State): State
    decreases |s.todo|
  {
    if s.todo == [] then s else Drained(Act(s))
  }

  // Soundness of what is still to do.

  ghost predicate RefPortsDistinct(d: Displays) {
    forall i, j :: i in d && j in d && i != j ==> d[i].config.port != d[j].config.port
  }

  /** Doing `todo` from here erases and inserts sensibly, tells the truth, and leaves nothing untold. */
  ghost predicate Sound(d: Displays, announced: set<nat>, todo: seq<Action>)
    decreases |todo|
  {
    if todo == [] then announced == d.Keys
    else match todo[0]
      case Erase(id) => id != PRIMARY && id in d && Sound(d - {id}, announced, todo[1..])
      case Insert(id, ref) =>
        && id !in d && ref.config.id == id && RefPortsDistinct(d[id := ref])
        && Sound(d[id := ref], announced, todo[1..])
      case Notify(id, connected) =>
        && (id in d <==> connected) && (id in announced <==> !connected) && (id == PRIMARY ==> connected)
        && Sound(d, Told(announced, id, connected), todo[1..])
  }

  /** The displays once `todo` is done. */
  function Finally(d: Displays, todo: seq<Action>): Displays
    decreases |todo|
  {
    if todo == [] then d
    else match todo[0]
      case Erase(id) => Finally(d - {id}, todo[1..])
      case Insert(id, ref) => Finally(d[id := ref], todo[1..])
      case Notify(_, _) => Finally(d, todo[1..])
  }

  /** Each display object carries its entry of the topology, up to the connection type given to Connect. */
  ghost predicate Agrees(d: Displays, m: Topology) {
    && d.Keys == m.Keys
    && (PRIMARY in d ==> d[PRIMARY].config == m[PRIMARY])
    && forall i :: i in d && i != PRIMARY ==> AsExternal(d[i].config) == m[i]
  }

  ghost function Fold(log: seq<Hotplug>): set<nat> {
    if log == [] then {}
    else Told(Fold(log[..|log| - 1]), log[|log| - 1].id, log[|log| - 1].connected)
  }

  /** Every event changes what the client believes, and shows exactly what it says. */
  ghost predicate Truthful(log: seq<Hotplug>) {
    forall k :: 0 <= k < |log| ==>
      && (log[k].connected <==> log[k].id !in Fold(log[..k]))
      && (log[k].visible <==> log[k].connected)
      && (log[k].id == PRIMARY ==> log[k].connected)
  }

  /** Objects are numbered in order of creation. */
  ghost predicate SerialsBelow(d: Displays, serial: nat) {
    forall i :: i in d ==> d[i].serial < serial
  }

  ghost predicate Inv(s: State) {
    && Valid(s.topology)
    && RefPortsDistinct(s.displays)
    && PRIMARY in s.displays
    && Sound(s.displays, s.announced, s.todo)
    && Agrees(Finally(s.displays, s.todo), s.topology)
    && Truthful(s.log)
    && (s.callback ==> s.announced == Fold(s.log))
    && SerialsBelow(Finally(s.displays, s.todo), s.nextSerial)
  }

  lemma InvTick(s: State)
    requires Inv(s) && s.todo != []
    ensures Inv(Act(s))
  {
    var t := Act(s);
    if s.todo[0].Notify? && s.callback {
      var e := t.log[|s.log|];
      assert t.log[..|s.log|] == s.log;
      forall k | 0 <= k < |t.log|
        ensures
          && (t.log[k].connected <==> t.log[k].id !in Fold(t.log[..k]))
          && (t.log[k].visible <==> t.log[k].connected)
          && (t.log[k].id == PRIMARY ==> t.log[k].connected)
      {
        if k < |s.log| { assert t.log[..k] == s.log[..k]; }
      }
    }
  }

  lemma {:induction false} AnnouncementsSound(d: Displays, announced: set<nat>, ids: seq<nat>, k: nat)
    requires StrictBy(ids, Identity()) && k <= |ids|
    requires forall j :: k <= j < |ids| ==> ids[j] in d && ids[j] !in announced
    requires d.Keys == announced + From(ids, k)
    ensures Sound(d, announced, Announcements(ids, k)) && Finally(d, Announcements(ids, k)) == d
    decreases |ids| - k
  {
    if k < |ids| {
      assert forall j :: k < j < |ids| ==> Identity()(ids[k]) < Identity()(ids[j]);
      assert From(ids, k) == {ids[k]} + From(ids, k + 1);
      AnnouncementsSound(d, announced + {ids[k]}, ids, k + 1);
      assert Announcements(ids, k)[1..] == Announcements(ids, k + 1);
    }
  }

  ghost function From(ids: seq<nat>, k: nat): set<nat>
    requires k <= |ids|
  {
    set j | k <= j < |ids| :: ids[j]
  }

  lemma RemovalSound(d: Displays, id: nat, todo: seq<Action>)
    requires |todo| >= 2 && todo[0] == Erase(id) && todo[1] == Notify(id, false)
    requires id in d && id != PRIMARY && Sound(d - {id}, d.Keys - {id}, todo[2..])
    ensures Sound(d, d.Keys, todo)
    ensures Finally(d, todo) == Finally(d - {id}, todo[2..])
  {
    assert todo[1..][0] == Notify(id, false) && todo[1..][1..] == todo[2..];
    assert Sound(d - {id}, d.Keys, todo[1..]);
  }

  lemma AdditionSound(d: Displays, id: nat, ref: Ref, todo: seq<Action>)
    requires |todo| >= 2 && todo[0] == Insert(id, ref) && todo[1] == Notify(id, true)
    requires id !in d && ref.config.id == id && RefPortsDistinct(d[id := ref])
    requires Sound(d[id := ref], d.Keys + {id}, todo[2..])
    ensures Sound(d, d.Keys, todo)
    ensures Finally(d, todo) == Finally(d[id := ref], todo[2..])
  {
    assert todo[1..][0] == Notify(id, true) && todo[1..][1..] == todo[2..];
    assert Sound(d[id := ref], d.Keys, todo[1..]);
  }

  lemma RemovalsSplit(ids: seq<nat>, k: nat, rest: seq<Action>)
    requires k < |ids|
    ensures
      var todo := Removals(ids, k) + rest;
      && |todo| >= 2 && todo[0] == Erase(ids[k]) && todo[1] == Notify(ids[k], false)
      && todo[2..] == Removals(ids, k + 1) + rest
  {}

  lemma AdditionsSplit(configs: seq<DisplayConfig>, serial: nat, k: nat)
    requires k < |configs|
    ensures
      var todo := Additions(configs, serial, k);
      && |todo| >= 2 && todo[0] == Insert(configs[k].id, Ref(serial + k, configs[k]))
      && todo[1] == Notify(configs[k].id, true)
      && todo[2..] == Additions(configs, serial, k + 1)
  {}

  /** The removals of a diff, followed by anything sound from what they leave. */
  lemma {:induction false} RemovalsSound(d: Displays, ids: seq<nat>, k: nat, rest: seq<Action>)
    requires StrictBy(ids, Identity()) && k <= |ids|
    requires forall j :: k <= j < |ids| ==> ids[j] in d && ids[j] != PRIMARY
    requires Sound(d - From(ids, k), d.Keys - From(ids, k), rest)
    ensures Sound(d, d.Keys, Removals(ids, k) + rest)
    ensures Finally(d, Removals(ids, k) + rest) == Finally(d - From(ids, k), rest)
    decreases |ids| - k
  {
    if k == |ids| {
      assert d - From(ids, k) == d && d.Keys - From(ids, k) == d.Keys && Removals(ids, k) + rest == rest;
    } else {
      var id := ids[k];
      var d' := d - {id};
      assert forall j :: k < j < |ids| ==> Identity()(ids[k]) < Identity()(ids[j]);
      assert From(ids, k) == {id} + From(ids, k + 1);
      assert d' - From(ids, k + 1) == d - From(ids, k);
      assert d'.Keys == d.Keys - {id};
      assert d'.Keys - From(ids, k + 1) == d.Keys - From(ids, k);
      RemovalsSound(d', ids, k + 1, rest);
      RemovalsSplit(ids, k, rest);
      RemovalSound(d, id, Removals(ids, k) + rest);
    }
  }

  /** `all` is `d` with the displays of `configs` from k on, numbered from the serial. */
  ghost predicate Extends(d: Displays, configs: seq<DisplayConfig>, serial: nat, k: nat, all: Displays) {
    && (forall i :: i in d ==> i in all && all[i] == d[i])
    && (forall j :: k <= j < |configs| ==>
          configs[j].id in all && all[configs[j].id] == Ref(serial + j, configs[j]))
    && (forall i :: i in all && i !in d ==> exists j :: k <= j < |configs| && configs[j].id == i)
  }

  lemma ExtendsNext(d: Displays, configs: seq<DisplayConfig>, serial: nat, k: nat, all: Displays)
    requires StrictBy(configs, Id()) && k < |configs|
    requires Extends(d, configs, serial, k, all) && RefPortsDistinct(all)
    ensures
      var d' := d[configs[k].id := Ref(serial + k, configs[k])];
      Extends(d', configs, serial, k + 1, all) && RefPortsDistinct(d')
    ensures forall j :: k < j < |configs| ==> configs[j].id != configs[k].id
  {
    assert forall j :: k < j < |configs| ==> Id()(configs[k]) < Id()(configs[j]);
  }

  /** Ports stay distinct while displays are added whose ports are all new and distinct. */
  lemma {:induction false} AdditionsSound(d: Displays, configs: seq<DisplayConfig>, serial: nat, k: nat, all: Displays)
    requires StrictBy(configs, Id()) && k <= |configs|
    requires forall j :: k <= j < |configs| ==> configs[j].id !in d
    requires Extends(d, configs, serial, k, all) && RefPortsDistinct(all)
    ensures Sound(d, d.Keys, Additions(configs, serial, k))
    ensures Finally(d, Additions(configs, serial, k)) == all
    decreases |configs| - k
  {
    if k == |configs| {
      assert all == d;
    } else {
      var id, ref := configs[k].id, Ref(serial + k, configs[k]);
      var d' := d[id := ref];
      ExtendsNext(d, configs, serial, k, all);
      AdditionsSound(d', configs, serial, k + 1, all);
      assert d'.Keys == d.Keys + {id};
      AdditionsSplit(configs, serial, k);
      AdditionSound(d, id, ref, Additions(configs, serial, k));
    }
  }

  // Every event keeps the invariant.

  lemma AgreesPorts(d: Displays, m: Topology)
    requires Agrees(d, m) && Valid(m)
    ensures RefPortsDistinct(d)
  {
    assert forall i :: i in d ==> d[i].config.port == m[i].port;
  }

  /** The first n created displays, numbered from the serial. */
  lemma {:induction false} WithCreated(d: Displays, configs: seq<DisplayConfig>, serial: nat, n: nat)
    returns (all: Displays)
    requires StrictBy(configs, Id()) && n <= |configs|
    requires forall j :: 0 <= j < |configs| ==> configs[j].id !in d
    ensures forall i :: i in d ==> i in all && all[i] == d[i]
    ensures forall j :: 0 <= j < n ==> configs[j].id in all && all[configs[j].id] == Ref(serial + j, configs[j])
    ensures forall i :: i in all && i !in d ==> exists j :: 0 <= j < n && configs[j].id == i
    decreases n
  {
    if n == 0 {
      all := d;
    } else {
      var last := configs[n - 1];
      var before := WithCreated(d, configs, serial, n - 1);
      all := before[last.id := Ref(serial + n - 1, last)];
      assert forall j :: 0 <= j < n - 1 ==> Id()(configs[j]) < Id()(last);
      forall i | i in all && i !in d ensures exists j :: 0 <= j < n && configs[j].id == i {
        if i != last.id {
          var j :| 0 <= j < n - 1 && configs[j].id == i;
        }
      }
    }
  }

  /** One display before and after a diff: kept exactly when unlisted, otherwise created anew. */
  lemma DiffAt(before: Topology, after: Topology, changes: Changes, id: nat)
    requires Valid(before) && Valid(after) && before[PRIMARY] == after[PRIMARY]
    requires IsDiff(before, after, changes)
    ensures id in before && id !in changes.disconnected ==> id in after && after[id] == before[id]
    ensures id in after && (id !in before || id in changes.disconnected) ==> after[id] in changes.connected
    ensures forall c :: c in changes.connected && c.id == id ==>
              c.id in after && after[id] == c && (id !in before || id in changes.disconnected)
  {}

  /** The objects a diff leaves, with the created ones, carry the new topology. */
  lemma DiffAgrees(d: Displays, base: Displays, before: Topology, after: Topology, changes: Changes,
                   serial: nat, all: Displays)
    requires Agrees(d, before) && Valid(before) && Valid(after) && before[PRIMARY] == after[PRIMARY]
    requires IsDiff(before, after, changes)
    requires base == d - From(changes.disconnected, 0)
    requires Extends(base, changes.connected, serial, 0, all)
    ensures Agrees(all, after)
  {
    var gone, come := changes.disconnected, changes.connected;
    GoneIs(gone);
    forall i
      ensures i in all <==> i in after
      ensures i in all && i in after ==>
                if i == PRIMARY then all[i].config == after[i] else AsExternal(all[i].config) == after[i]
    {
      DiffAt(before, after, changes, i);
      if i in after && i !in base {
        var j :| 0 <= j < |come| && come[j] == after[i];
      }
      if i in all && i !in base {
        var j :| 0 <= j < |come| && come[j].id == i;
        assert come[j] in come;
      }
    }
  }

  lemma GoneIs(gone: seq<nat>)
    ensures forall i :: i in From(gone, 0) <==> i in gone
  {}

  lemma ComeIsNew(d: Displays, before: Topology, after: Topology, changes: Changes)
    requires Agrees(d, before) && Valid(before) && Valid(after) && before[PRIMARY] == after[PRIMARY]
    requires IsDiff(before, after, changes)
    ensures
      var come := changes.connected;
      forall j :: 0 <= j < |come| ==> come[j].id !in d - From(changes.disconnected, 0)
    ensures
      var gone := changes.disconnected;
      forall j :: 0 <= j < |gone| ==> gone[j] in d && gone[j] != PRIMARY
  {
    var come, gone := changes.connected, changes.disconnected;
    GoneIs(gone);
    forall j | 0 <= j < |come| ensures come[j].id !in d - From(gone, 0) {
      DiffAt(before, after, changes, come[j].id);
      assert come[j] in come;
    }
    assert forall j :: 0 <= j < |gone| ==> gone[j] in gone;
  }

  /** What the actions of a replacement do, from a quiescent registry. */
  lemma ReplacePlan(d: Displays, before: Topology, after: Topology, changes: Changes, serial: nat)
    returns (base: Displays, all: Displays)
    requires Agrees(d, before) && Valid(before) && Valid(after) && before[PRIMARY] == after[PRIMARY]
    requires IsDiff(before, after, changes)
    ensures
      var todo := Removals(changes.disconnected) + Additions(changes.connected, serial);
      Sound(d, d.Keys, todo) && Finally(d, todo) == all
    ensures Agrees(all, after)
    ensures base == d - From(changes.disconnected, 0)
    ensures Extends(base, changes.connected, serial, 0, all)
  {
    var gone, come := changes.disconnected, changes.connected;
    base := d - From(gone, 0);
    ComeIsNew(d, before, after, changes);
    all := WithCreated(base, come, serial, |come|);
    DiffAgrees(d, base, before, after, changes, serial, all);
    AgreesPorts(all, after);
    PlanSound(d, gone, base, come, serial, all);
  }

  lemma PlanSound(d: Displays, gone: seq<nat>, base: Displays, come: seq<DisplayConfig>, serial: nat, all: Displays)
    requires StrictBy(gone, Identity()) && StrictBy(come, Id())
    requires forall j :: 0 <= j < |gone| ==> gone[j] in d && gone[j] != PRIMARY
    requires base == d - From(gone, 0)
    requires forall j :: 0 <= j < |come| ==> come[j].id !in base
    requires Extends(base, come, serial, 0, all) && RefPortsDistinct(all)
    ensures
      var todo := Removals(gone) + Additions(come, serial);
      Sound(d, d.Keys, todo) && Finally(d, todo) == all
  {
    AdditionsSound(base, come, serial, 0, all);
    assert base.Keys == d.Keys - From(gone, 0);
    RemovalsSound(d, gone, 0, Additions(come, serial));
  }

  lemma SerialsGrow(d: Displays, base: Displays, configs: seq<DisplayConfig>, serial: nat, all: Displays)
    requires SerialsBelow(d, serial) && Extends(base, configs, serial, 0, all)
    requires forall i :: i in base ==> i in d && base[i] == d[i]
    ensures SerialsBelow(all, serial + |configs|)
  {}

  lemma InvReplace(s: State, e: Event)
    requires Inv(s) && e.Replace? && Possible(s, e)
    ensures Inv(Step(s, e))
  {
    ReplacedValid(s.topology, e.configs, e.after);
    var base, all := ReplacePlan(s.displays, s.topology, e.after, e.changes, s.nextSerial);
    SerialsGrow(s.displays, base, e.changes.connected, s.nextSerial, all);
  }

  lemma ConnectAgrees(d: Displays, m: Topology, c: DisplayConfig, serial: nat)
    requires Agrees(d, m) && Valid(m) && c.id !in m && c.id != PRIMARY && IsValidExternal(c)
    requires forall i :: i in m ==> m[i].port != c.port
    ensures
      var all := d[c.id := Ref(serial, c)];
      Valid(m[c.id := AsExternal(c)]) && Agrees(all, m[c.id := AsExternal(c)]) && RefPortsDistinct(all)
  {
    AgreesPorts(d[c.id := Ref(serial, c)], m[c.id := AsExternal(c)]);
  }

  lemma InvConnect(s: State, c: DisplayConfig)
    requires Inv(s) && Possible(s, Connect(c))
    ensures Inv(Step(s, Connect(c)))
  {
    var ref := Ref(s.nextSerial, c);
    var all := s.displays[c.id := ref];
    ConnectAgrees(s.displays, s.topology, c, s.nextSerial);
    AdditionsSplit([c], s.nextSerial, 0);
    assert Additions([c], s.nextSerial, 1) == [];
    assert all.Keys == s.displays.Keys + {c.id};
    AdditionSound(s.displays, c.id, ref, Additions([c], s.nextSerial));
  }

  lemma InvDisconnect(s: State, id: nat)
    requires Inv(s) && Possible(s, Disconnect(id))
    ensures Inv(Step(s, Disconnect(id)))
  {
    var base := s.displays - {id};
    assert base.Keys == s.displays.Keys - {id};
    RemovalsSplit([id], 0, []);
    assert Removals([id]) + [] == Removals([id]);
    assert Removals([id], 1) + [] == [];
    RemovalSound(s.displays, id, Removals([id]));
    DisconnectAgrees(s.displays, s.topology, id);
  }

  lemma DisconnectAgrees(d: Displays, m: Topology, id: nat)
    requires Agrees(d, m) && Valid(m) && id != PRIMARY
    ensures Agrees(d - {id}, m - {id}) && Valid(m - {id})
  {}

  lemma InvInstall(s: State, e: Event)
    requires Inv(s) && e.Install? && Possible(s, e)
    ensures Inv(Step(s, e))
  {
    if e.callback {
      GoneIs(e.ids);
      assert s.displays.Keys == {} + From(e.ids, 0);
      assert forall j :: 0 <= j < |e.ids| ==> e.ids[j] in e.ids;
      AnnouncementsSound(s.displays, {}, e.ids, 0);
    }
  }

  lemma InvStep(s: State, e: Event)
    requires Inv(s)
    ensures Inv(Step(s, e))
  {
    if Possible(s, e) {
      match e
      case Install(_, _) => InvInstall(s, e);
      case Connect(c) => InvConnect(s, c);
      case Disconnect(id) => InvDisconnect(s, id);
      case Replace(_, _, _) => InvReplace(s, e);
      case Tick => InvTick(s);
    }
  }

  lemma {:induction false} InvExec(s: State, es: seq<Event>)
    requires Inv(s)
    ensures Inv(Exec(s, es))
  {
    if es != [] {
      InvExec(s, es[..|es| - 1]);
      InvStep(Exec(s, es[..|es| - 1]), es[|es| - 1]);
    }
  }

  lemma ReachableInv(primary: DisplayConfig, es: seq<Event>)
    ensures Inv(Exec(Start(primary), es))
  {
    InvExec(Start(primary), es);
  }

  // What clients and readers see.

  /**
   * Replay: after each installation of a callback, folding its events from
   * nothing gives the connected displays at every quiescent point, and the live
   * objects are those of the topology. Every event changes what its client
   * believes, and Get finds the display exactly in a connect event.
   */
  lemma HotplugReplay(primary: DisplayConfig, es: seq<Event>)
    ensures
      var s := Exec(Start(primary), es);
      && Truthful(s.log)
      && (s.todo == [] ==> Agrees(s.displays, s.topology))
      && (s.todo == [] && s.callback ==> Fold(s.log) == s.displays.Keys)
  {
    ReachableInv(primary, es);
  }

  /** Whatever a reader sees, at any moment of a mutation, has pairwise distinct ports and the primary. */
  lemma VisiblePortsDistinct(primary: DisplayConfig, es: seq<Event>)
    ensures
      var d := Exec(Start(primary), es).displays;
      && RefPortsDistinct(d)
      && PRIMARY in d
  {
    ReachableInv(primary, es);
  }

  /** Between two events of one display with none in between, connection alternates. */
  lemma EventsAlternate(log: seq<Hotplug>, i: nat, j: nat)
    requires Truthful(log) && i < j < |log| && log[i].id == log[j].id
    requires forall k :: i < k < j ==> log[k].id != log[i].id
    ensures log[i].connected != log[j].connected
  {
    BeliefKept(log, i, j);
  }

  lemma {:induction false} BeliefKept(log: seq<Hotplug>, i: nat, j: nat)
    requires i < j <= |log|
    requires forall k :: i < k < j ==> log[k].id != log[i].id
    ensures log[i].id in Fold(log[..j]) <==> log[i].connected
    decreases j
  {
    assert log[..j][..j - 1] == log[..j - 1];
    if i < j - 1 { BeliefKept(log, i, j - 1); }
  }

  function PrimaryEvents(log: seq<Hotplug>): nat {
    if log == [] then 0
    else PrimaryEvents(log[..|log| - 1]) + (if log[|log| - 1].id == PRIMARY then 1 else 0)
  }

  lemma {:induction false} PrimaryCount(log: seq<Hotplug>)
    requires Truthful(log)
    ensures PrimaryEvents(log) == if PRIMARY in Fold(log) then 1 else 0
  {
    if log != [] {
      var init := log[..|log| - 1];
      forall k | 0 <= k < |init| ensures log[..k] == init[..k] && log[k] == init[k] {}
      PrimaryCount(init);
      assert log[|log| - 1].connected <==> log[|log| - 1].id !in Fold(init);
    }
  }

  /**
   * At every quiescent point of every run the primary is internal on port 0,
   * and any other display is external, on another port, and has a size, a
   * density and a period.
   */
  lemma LiveDisplaysAreReal(primary: DisplayConfig, es: seq<Event>, id: nat)
    ensures
      var s := Exec(Start(primary), es);
      s.todo == [] && id in s.displays ==>
        id in s.topology &&
        var c, t := s.displays[id].config, s.topology[id];
        && c.id == t.id == id && c.port == t.port
        && (id == PRIMARY ==> t.port == 0 && t.connection == Internal)
        && (id != PRIMARY ==>
              && t.connection == External && c.port > 0 && c.width > 0 && c.height > 0 && c.dpi > 0
              && c.vsyncPeriod > 0)
  {
    ReachableInv(primary, es);
  }

  /** The primary display is announced once per installation and never disconnected. */
  lemma PrimaryAnnouncedOnce(primary: DisplayConfig, es: seq<Event>)
    ensures
      var s := Exec(Start(primary), es);
      && (forall k :: 0 <= k < |s.log| && s.log[k].id == PRIMARY ==> s.log[k].connected)
      && PrimaryEvents(s.log) <= 1
      && (s.callback && s.todo == [] ==> PrimaryEvents(s.log) == 1)
  {
    var s := Exec(Start(primary), es);
    ReachableInv(primary, es);
    PrimaryCount(s.log);
  }

  lemma {:induction false} DrainedIs(s: State)
    ensures Drained(s).todo == []
    ensures Drained(s).displays == Finally(s.displays, s.todo)
    ensures Drained(s).topology == s.topology && Drained(s).nextSerial == s.nextSerial
    decreases |s.todo|
  {
    if s.todo != [] { DrainedIs(Act(s)); }
  }

  function Ticks(n: nat): seq<Event> {
    seq(n, i => Tick)
  }

  lemma TickOf(s: State)
    requires s.todo != []
    ensures Step(s, Tick) == Act(s) && |Act(s).todo| == |s.todo| - 1
  {}

  lemma LastTick(s: State, n: nat)
    ensures Exec(s, Ticks(n + 1)) == Step(Exec(s, Ticks(n)), Tick)
  {
    assert Ticks(n + 1)[..n] == Ticks(n);
  }

  lemma {:induction false} FirstTick(s: State, n: nat)
    requires n < |s.todo|
    ensures Exec(s, Ticks(n + 1)) == Exec(Act(s), Ticks(n)) && |Exec(s, Ticks(n + 1)).todo| == |s.todo| - n - 1
  {
    LastTick(s, n);
    if n == 0 {
      assert Exec(s, Ticks(0)) == s;
      TickOf(s);
    } else {
      FirstTick(s, n - 1);
      LastTick(Act(s), n - 1);
      TickOf(Exec(s, Ticks(n)));
    }
  }

  /** A mutation done whole is the run of its actions, one by one; a reader may look between any two. */
  lemma {:induction false} DrainedIsRun(s: State)
    ensures Exec(s, Ticks(|s.todo|)) == Drained(s)
    decreases |s.todo|
  {
    if s.todo != [] {
      FirstTick(s, |s.todo| - 1);
      DrainedIsRun(Act(s));
    }
  }

  /** Mutations are finite: finishing one leads to a quiescent state that keeps the invariant. */
  lemma {:induction false} DrainedInv(s: State)
    requires Inv(s)
    ensures Inv(Drained(s)) && Drained(s).todo == []
    decreases |s.todo|
  {
    if s.todo != [] {
      InvTick(s);
      DrainedInv(Act(s));
    }
  }

  /** A replacement keeps the very object of every unlisted display and creates new ones for the rest. */
  lemma ReplacementKeepsObjects(s: State, e: Event)
    requires Inv(s) && e.Replace? && Possible(s, e)
    ensures
      var after := Drained(Step(s, e)).displays;
      && after.Keys == e.after.Keys
      && (forall i :: i in s.displays && i !in e.changes.disconnected ==> i in after && after[i] == s.displays[i])
      && (forall c :: c in e.changes.connected ==>
            c.id in after && after[c.id].config == c && s.nextSerial <= after[c.id].serial)
  {
    var t := Step(s, e);
    DrainedIs(t);
    ReplacedValid(s.topology, e.configs, e.after);
    var base, all := ReplacePlan(s.displays, s.topology, e.after, e.changes, s.nextSerial);
    KeptAndCreated(s.displays, e.changes, s.nextSerial, all);
  }

  lemma KeptAndCreated(d: Displays, changes: Changes, serial: nat, all: Displays)
    requires Extends(d - From(changes.disconnected, 0), changes.connected, serial, 0, all)
    ensures forall i :: i in d && i !in changes.disconnected ==> i in all && all[i] == d[i]
    ensures forall c :: c in changes.connected ==>
              c.id in all && all[c.id].config == c && serial <= all[c.id].serial
  {
    GoneIs(changes.disconnected);
    forall c | c in changes.connected
      ensures c.id in all && all[c.id].config == c && serial <= all[c.id].serial
    {
      var j :| 0 <= j < |changes.connected| && changes.connected[j] == c;
    }
  }

  // The connection type.

  lemma {:induction false} RemovalEvents(s: State, ids: seq<nat>, k: nat, rest: seq<Action>) returns (s': State)
    requires s.callback && k <= |ids| && s.todo == Removals(ids, k) + rest
    ensures s'.callback && s'.todo == rest && Drained(s') == Drained(s)
    ensures |s'.log| == |s.log| + |ids| - k && s.log <= s'.log
    ensures forall j :: k <= j < |ids| ==> s'.log[|s.log| + j - k] == Hotplug(ids[j], false, false)
    decreases |ids| - k
  {
    if k == |ids| {
      assert Removals(ids, k) + rest == rest;
      s' := s;
    } else {
      RemovalsSplit(ids, k, rest);
      var next := Act(Act(s));
      assert next.todo == Removals(ids, k + 1) + rest && next.log == s.log + [Hotplug(ids[k], false, false)];
      s' := RemovalEvents(next, ids, k + 1, rest);
    }
  }

  lemma {:induction false} AdditionEvents(s: State, configs: seq<DisplayConfig>, serial: nat, k: nat)
    requires s.callback && k <= |configs| && s.todo == Additions(configs, serial, k)
    ensures
      var end := Drained(s);
      && |end.log| == |s.log| + |configs| - k && s.log <= end.log
      && forall j :: k <= j < |configs| ==> end.log[|s.log| + j - k] == Hotplug(configs[j].id, true, true)
    decreases |configs| - k
  {
    if k < |configs| {
      AdditionsSplit(configs, serial, k);
      var next := Act(Act(s));
      assert next.todo == Additions(configs, serial, k + 1) && next.log == s.log + [Hotplug(configs[k].id, true, true)];
      AdditionEvents(next, configs, serial, k + 1);
    }
  }

  /**
   * What the client hears of a replacement: first every disconnection, by
   * which Get no longer finds the display, then every connection, by which it
   * does, each in order of the diff.
   */
  lemma ReplacementEvents(s: State, e: Event)
    requires s.callback && e.Replace? && Possible(s, e)
    ensures
      var log := Drained(Step(s, e)).log;
      var n, gone, come := |s.log|, e.changes.disconnected, e.changes.connected;
      && |log| == n + |gone| + |come| && s.log <= log
      && (forall i :: 0 <= i < |gone| ==> log[n + i] == Hotplug(gone[i], false, false))
      && (forall j :: 0 <= j < |come| ==> log[n + |gone| + j] == Hotplug(come[j].id, true, true))
  {
    PlanEvents(Step(s, e), e.changes.disconnected, e.changes.connected, s.nextSerial);
  }

  lemma PlanEvents(s: State, gone: seq<nat>, come: seq<DisplayConfig>, serial: nat)
    requires s.callback && s.todo == Removals(gone) + Additions(come, serial)
    ensures
      var log, n := Drained(s).log, |s.log|;
      && |log| == n + |gone| + |come| && s.log <= log
      && (forall i :: 0 <= i < |gone| ==> log[n + i] == Hotplug(gone[i], false, false))
      && (forall j :: 0 <= j < |come| ==> log[n + |gone| + j] == Hotplug(come[j].id, true, true))
  {
    var mid := RemovalEvents(s, gone, 0, Additions(come, serial));
    AdditionEvents(mid, come, serial, 0);
  }

  lemma {:induction false} AnnouncementEvents(s: State, ids: seq<nat>, k: nat)
    requires s.callback && k <= |ids| && s.todo == Announcements(ids, k)
    requires forall j :: k <= j < |ids| ==> ids[j] in s.displays
    ensures
      var end := Drained(s);
      && end.displays == s.displays && end.topology == s.topology && end.callback
      && |end.log| == |s.log| + |ids| - k && s.log <= end.log
      && forall j :: k <= j < |ids| ==> end.log[|s.log| + j - k] == Hotplug(ids[j], true, true)
    decreases |ids| - k
  {
    if k < |ids| {
      var next := Act(s);
      assert next.todo == Announcements(ids, k + 1) && next.log == s.log + [Hotplug(ids[k], true, true)];
      AnnouncementEvents(next, ids, k + 1);
    }
  }

  /**
   * A new callback hears one connection for every display that is there, in
   * order of id, and nothing of what the callback before it heard.
   */
  lemma InstallationAnnounces(s: State, ids: seq<nat>)
    requires Possible(s, Install(true, ids))
    ensures
      var end := Drained(Step(s, Install(true, ids)));
      && end.callback && end.displays == s.displays && end.topology == s.topology
      && |end.log| == |ids|
      && (forall k :: 0 <= k < |ids| ==> end.log[k] == Hotplug(ids[k], true, true))
      && StrictBy(ids, Identity()) && forall i :: i in ids <==> i in s.displays
  {
    AnnouncementEvents(Step(s, Install(true, ids)), ids, 0);
  }

  /** Without a callback nobody is told anything, until the next one is installed. */
  lemma {:induction false} SilentWithoutCallback(s: State, ids: seq<nat>, es: seq<Event>)
    requires Possible(s, Install(false, ids))
    requires forall k :: 0 <= k < |es| ==> !(es[k].Install? && es[k].callback)
    ensures
      var end := Exec(Step(s, Install(false, ids)), es);
      !end.callback && end.log == []
  {
    if es != [] { SilentWithoutCallback(s, ids, es[..|es| - 1]); }
  }

  /** A connection adds one new object, tells of it once, and leaves the other displays alone. */
  lemma ConnectAddsOne(s: State, c: DisplayConfig)
    requires Possible(s, Connect(c))
    ensures
      var end := Drained(Step(s, Connect(c)));
      && end.topology == s.topology[c.id := AsExternal(c)]
      && end.displays == s.displays[c.id := Ref(s.nextSerial, c)] && end.nextSerial > s.nextSerial
      && end.log == (if s.callback then s.log + [Hotplug(c.id, true, true)] else s.log)
      && end.callback == s.callback && end.todo == []
  {
    OneAddition(c, s.nextSerial);
    DrainedPair(Step(s, Connect(c)));
  }

  /** A disconnection removes one object, tells of it once, and leaves the other displays alone. */
  lemma DisconnectRemovesOne(s: State, id: nat)
    requires Possible(s, Disconnect(id))
    ensures
      var end := Drained(Step(s, Disconnect(id)));
      && end.topology == s.topology - {id} && end.displays == s.displays - {id}
      && end.log == (if s.callback then s.log + [Hotplug(id, false, false)] else s.log)
      && end.callback == s.callback && end.todo == []
  {
    OneRemoval(id);
    DrainedPair(Step(s, Disconnect(id)));
  }

  lemma DrainedTwo(s: State)
    requires |s.todo| >= 2
    ensures Drained(s) == Drained(Act(Act(s)))
  {}

  lemma DrainedPair(s: State)
    requires |s.todo| == 2
    ensures Drained(s) == Act(Act(s))
  {
    DrainedTwo(s);
    assert Act(Act(s)).todo == [];
  }

  lemma OneAddition(config: DisplayConfig, serial: nat)
    ensures Additions([config], serial) == [Insert(config.id, Ref(serial, config)), Notify(config.id, true)]
  {
    AdditionsSplit([config], serial, 0);
  }

  lemma OneRemoval(id: nat)
    ensures Removals([id]) == [Erase(id), Notify(id, false)]
  {}

  /** ConnectExternal gives the object the caller's connection type, the topology an external one. */
  lemma ConnectCopiesEarly(s: State, c: DisplayConfig)
    requires Inv(s) && Possible(s, Connect(c))
    ensures
      var t := Drained(Step(s, Connect(c)));
      && c.id in t.displays && c.id in t.topology
      && (t.displays[c.id].config == t.topology[c.id] <==> c.connection.External?)
  {
    var t := Step(s, Connect(c));
    DrainedIs(t);
    AdditionsSplit([c], s.nextSerial, 0);
    ConnectAgrees(s.displays, s.topology, c, s.nextSerial);
    AdditionSound(s.displays, c.id, Ref(s.nextSerial, c), t.todo) by {
      InvConnect(s, c);
      assert Additions([c], s.nextSerial, 1) == [];
      assert s.displays[c.id := Ref(s.nextSerial, c)].Keys == s.displays.Keys + {c.id};
    }
  }

  ghost predicate ExternalRequests(es: seq<Event>) {
    forall k :: 0 <= k < |es| && es[k].Connect? ==> es[k].config.connection.External?
  }

  ghost predicate InsertsExternal(todo: seq<Action>) {
    forall k :: 0 <= k < |todo| && todo[k].Insert? ==> todo[k].ref.config.connection.External?
  }

  ghost predicate ExternalObjects(s: State) {
    && (forall i :: i in s.displays && i != PRIMARY ==> s.displays[i].config.connection.External?)
    && InsertsExternal(s.todo)
  }

  lemma {:induction false} AdditionsInsert(configs: seq<DisplayConfig>, serial: nat, k: nat)
    requires k <= |configs| && forall j :: 0 <= j < |configs| ==> configs[j].connection.External?
    ensures InsertsExternal(Additions(configs, serial, k))
    decreases |configs| - k
  {
    if k < |configs| {
      AdditionsInsert(configs, serial, k + 1);
      AdditionsSplit(configs, serial, k);
      var todo := Additions(configs, serial, k);
      forall j | 0 <= j < |todo| && todo[j].Insert? ensures todo[j].ref.config.connection.External? {
        if j >= 2 { assert todo[j] == todo[2..][j - 2]; }
      }
    }
  }

  lemma {:induction false} NothingInserted(ids: seq<nat>, k: nat)
    requires k <= |ids|
    ensures InsertsExternal(Removals(ids, k)) && InsertsExternal(Announcements(ids, k))
    decreases |ids| - k
  {
    if k < |ids| { NothingInserted(ids, k + 1); }
  }

  lemma InsertsJoined(a: seq<Action>, b: seq<Action>)
    requires InsertsExternal(a) && InsertsExternal(b)
    ensures InsertsExternal(a + b)
  {
    forall k | 0 <= k < |a + b| && (a + b)[k].Insert? ensures (a + b)[k].ref.config.connection.External? {
      if k >= |a| { assert (a + b)[k] == b[k - |a|]; }
    }
  }

  lemma ExternalTick(s: State)
    requires ExternalObjects(s) && s.todo != []
    ensures ExternalObjects(Act(s))
  {
    assert forall k :: 0 <= k < |s.todo| - 1 ==> s.todo[1..][k] == s.todo[k + 1];
  }

  lemma ExternalReplace(s: State, e: Event)
    requires Inv(s) && e.Replace? && Possible(s, e)
    ensures InsertsExternal(Step(s, e).todo)
  {
    var gone, come := e.changes.disconnected, e.changes.connected;
    ReplacedValid(s.topology, e.configs, e.after);
    assert forall j :: 0 <= j < |come| ==> come[j] in come;
    NothingInserted(gone, 0);
    AdditionsInsert(come, s.nextSerial, 0);
    InsertsJoined(Removals(gone), Additions(come, s.nextSerial));
  }

  lemma ExternalStep(s: State, e: Event)
    requires Inv(s) && ExternalObjects(s) && (e.Connect? ==> e.config.connection.External?)
    ensures ExternalObjects(Step(s, e))
  {
    if Possible(s, e) {
      match e
      case Install(_, ids) => NothingInserted(ids, 0);
      case Connect(c) => AdditionsInsert([c], s.nextSerial, 0);
      case Disconnect(id) => NothingInserted([id], 0);
      case Replace(_, _, _) => ExternalReplace(s, e);
      case Tick => ExternalTick(s);
    }
  }

  lemma {:induction false} ExternalExec(s: State, es: seq<Event>)
    requires Inv(s) && ExternalObjects(s) && ExternalRequests(es)
    ensures ExternalObjects(Exec(s, es))
  {
    if es != [] {
      ExternalExec(s, es[..|es| - 1]);
      InvExec(s, es[..|es| - 1]);
      ExternalStep(Exec(s, es[..|es| - 1]), es[|es| - 1]);
    }
  }

  /**
   * When every connect request says it is external, as every replacement does,
   * each live object carries exactly its entry of the topology.
   */
  lemma ObjectsMatchTopology(primary: DisplayConfig, es: seq<Event>)
    requires ExternalRequests(es)
    ensures
      var s := Exec(Start(primary), es);
      s.todo == [] ==>
        s.displays.Keys == s.topology.Keys && forall i :: i in s.displays ==> s.displays[i].config == s.topology[i]
  {
    ReachableInv(primary, es);
    ExternalExec(Start(primary), es);
  }

  // The class.

  class DisplayRegistry {
    const topology: T.DisplayTopology
    var displays: Displays
    var callback: bool
    var log: seq<Hotplug>
    var nextSerial: nat
    ghost var announced: set<nat>

    ghost function During(todo: seq<Action>): State
      reads this, topology
    {
      State(topology.displays, displays, todo, announced, callback, log, nextSerial)
    }

    ghost function Current(): State
      reads this, topology
    {
      During([])
    }

    constructor (primary: DisplayConfig)
      ensures Current() == Start(primary) && fresh(topology)
    {
      topology := new T.DisplayTopology(primary);
      var config := primary.(id := PRIMARY, port := 0, connection := Internal);
      displays := map[PRIMARY := Ref(0, config)];
      callback, log, nextSerial, announced := false, [], 1, {PRIMARY};
    }

    method Get(id: nat) returns (display: Option<Ref>)
      ensures display == if id in displays then Some(displays[id]) else None
    {
      if id in displays { return Some(displays[id]); }
      return None;
    }

    method ConnectedDisplayIds() returns (ids: seq<nat>)
      ensures StrictBy(ids, Identity())
      ensures forall i :: i in ids <==> i in displays
    {
      ids := [];
      var left := displays.Keys;
      while left != {}
        invariant left <= displays.Keys
        invariant forall i :: i in ids <==> i in displays && i !in left
      {
        var id :| id in left;
        left := left - {id};
        ids := ids + [id];
      }
      var sorted := SortBy(ids, Identity());
      SameElems(ids, sorted);
      ids := Unique(sorted, Identity());
    }

    /** One call of the installed callback, if any. */
    method Notified(id: nat, connected: bool, ghost todo: seq<Action>)
      requires todo != [] && todo[0] == Notify(id, connected)
      modifies this
      ensures During(todo[1..]) == Act(old(During(todo)))
    {
      announced := Told(announced, id, connected);
      if callback { log := log + [Hotplug(id, connected, id in displays)]; }
    }

    method SetHotplugCallback(installed: bool) returns (ghost ids: seq<nat>)
      modifies this
      ensures Possible(old(Current()), Install(installed, ids))
      ensures Current() == Drained(Step(old(Current()), Install(installed, ids)))
    {
      ghost var before := Current();
      callback, log := installed, [];
      var found := ConnectedDisplayIds();
      ids := found;
      if !installed { return; }
      announced := {};
      ghost var start := During(Announcements(found));
      for k := 0 to |found|
        invariant topology.displays == old(topology.displays) && displays == old(displays)
        invariant callback && nextSerial == old(nextSerial)
        invariant Drained(During(Announcements(found, k))) == Drained(start)
      {
        ghost var todo := Announcements(found, k);
        assert todo[1..] == Announcements(found, k + 1);
        Notified(found[k], true, todo);
      }
    }

    /** One insertion under the map's mutex, and its notification. */
    method Inserted(id: nat, ref: Ref, ghost todo: seq<Action>)
      requires |todo| >= 2 && todo[0] == Insert(id, ref) && todo[1] == Notify(id, true)
      modifies this
      ensures During(todo[2..]) == Act(Act(old(During(todo))))
    {
      ghost var here := During(todo);
      displays := displays[id := ref];
      assert During(todo[1..]) == Act(here);
      assert todo[1..][1..] == todo[2..];
      Notified(id, true, todo[1..]);
    }

    /** One removal under the map's mutex, and its notification. */
    method Erased(id: nat, ghost todo: seq<Action>)
      requires |todo| >= 2 && todo[0] == Erase(id) && todo[1] == Notify(id, false)
      modifies this
      ensures During(todo[2..]) == Act(Act(old(During(todo))))
    {
      ghost var here := During(todo);
      displays := displays - {id};
      assert During(todo[1..]) == Act(here);
      assert todo[1..][1..] == todo[2..];
      Notified(id, false, todo[1..]);
    }

    method ConnectExternal(config: DisplayConfig) returns (result: Result)
      requires Inv(Current())
      modifies this, topology
      ensures result.Success? <==> Possible(old(Current()), Connect(config))
      ensures Current() == if result.Success? then Drained(Step(old(Current()), Connect(config))) else old(Current())
    {
      ghost var before := Current();
      result := topology.ConnectExternal(config);
      if !result.Success? { return; }
      var ref := Ref(nextSerial, config);
      nextSerial := nextSerial + 1;
      ghost var todo := Additions([config], ref.serial);
      OneAddition(config, ref.serial);
      assert During(todo) == Step(before, Connect(config));
      Inserted(config.id, ref, todo);
      DrainedPair(Step(before, Connect(config)));
    }

    method Disconnect(id: nat) returns (result: Result)
      requires Inv(Current())
      modifies this, topology
      ensures result.Success? <==> Possible(old(Current()), Event.Disconnect(id))
      ensures Current()
              == if result.Success? then Drained(Step(old(Current()), Event.Disconnect(id))) else old(Current())
    {
      ghost var before := Current();
      result := topology.Disconnect(id);
      if !result.Success? { return; }
      ghost var todo := Removals([id]);
      OneRemoval(id);
      assert During(todo) == Step(before, Event.Disconnect(id));
      Erased(id, todo);
      DrainedPair(Step(before, Event.Disconnect(id)));
    }

    method ReplaceExternalDisplays(configs: seq<DisplayConfig>) returns (result: Result, changes: Changes)
      requires Inv(Current())
      modifies this, topology
      ensures result.Success? <==> Acceptable(configs)
      ensures result.Success? ==>
                var e := Replace(configs, topology.displays, changes);
                Possible(old(Current()), e) && Current() == Drained(Step(old(Current()), e))
      ensures !result.Success? ==> Current() == old(Current())
    {
      ghost var before := Current();
      ghost var sorted;
      result, changes, sorted := topology.ReplaceExternalDisplays(configs, true);
      if !result.Success? { return; }
      var gone, come := changes.disconnected, changes.connected;
      var serial := nextSerial;
      nextSerial := nextSerial + |come|;
      assert During(Removals(gone) + Additions(come, serial))
             == Step(before, Replace(configs, topology.displays, changes));
      RemoveAll(gone, Additions(come, serial));
      AddAll(come, serial);
    }

    method AddAll(come: seq<DisplayConfig>, serial: nat)
      modifies this
      ensures topology.displays == old(topology.displays)
      ensures Current() == old(Drained(During(Additions(come, serial))))
    {
      ghost var start := During(Additions(come, serial));
      for k := 0 to |come|
        invariant topology.displays == start.topology
        invariant Drained(During(Additions(come, serial, k))) == Drained(start)
      {
        ghost var todo := Additions(come, serial, k);
        AdditionsSplit(come, serial, k);
        DrainedTwo(During(todo));
        Inserted(come[k].id, Ref(serial + k, come[k]), todo);
      }
    }

    method RemoveAll(gone: seq<nat>, ghost rest: seq<Action>)
      modifies this
      ensures topology.displays == old(topology.displays)
      ensures Drained(During(rest)) == old(Drained(During(Removals(gone) + rest)))
    {
      ghost var start := During(Removals(gone) + rest);
      for k := 0 to |gone|
        invariant topology.displays == start.topology
        invariant Drained(During(Removals(gone, k) + rest)) == Drained(start)
      {
        ghost var todo := Removals(gone, k) + rest;
        RemovalsSplit(gone, k, rest);
        DrainedTwo(During(todo));
        Erased(gone[k], todo);
      }
      assert Removals(gone, |gone|) + rest == rest;
    }
  }
}
