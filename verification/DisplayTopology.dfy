/** The set of connected displays and its diffs (src/DisplayTopology.cpp). */
module DisplayTopology {
  import opened Basics
  import opened Sorting

  datatype ConnectionType = Internal | External

  datatype DisplayConfig = DisplayConfig(
    id: nat,
    port: nat,
    width: nat,
    height: nat,
    dpi: nat,
    vsyncPeriod: int,
    rates: seq<nat>,
    connection: ConnectionType,
    name: string)

  type Topology = map<nat, DisplayConfig>

  const PRIMARY: nat := 1

  datatype Result =
    Success | InvalidConfig | AlreadyConnected | PortInUse | PrimaryDisplayProtected | NotFound

  datatype Changes = Changes(disconnected: seq<nat>, connected: seq<DisplayConfig>)

  predicate IsValidExternal(c: DisplayConfig) {
    c.id != 0 && c.port != 0 && c.width != 0 && c.height != 0 && c.dpi != 0 && c.vsyncPeriod > 0
  }

  function AsExternal(c: DisplayConfig): DisplayConfig { c.(connection := External) }

  function Id(): DisplayConfig -> int { (c: DisplayConfig) => c.id }

  function Port(): DisplayConfig -> int { (c: DisplayConfig) => c.port }

  ghost predicate PortsDistinct(m: Topology) {
    forall i, j :: i in m && j in m && i != j ==> m[i].port != m[j].port
  }

  /** The primary display is always there, and every port carries one display. */
  ghost predicate Valid(m: Topology) {
    && PRIMARY in m
    && m[PRIMARY].id == PRIMARY && m[PRIMARY].port == 0 && m[PRIMARY].connection == Internal
    && (forall i :: i in m && i != PRIMARY ==>
          m[i].id == i && IsValidExternal(m[i]) && m[i].connection == External)
    && PortsDistinct(m)
  }

  /** The replacement requests that succeed. */
  ghost predicate Acceptable(configs: seq<DisplayConfig>) {
    && (forall c :: c in configs ==> c.id != PRIMARY && IsValidExternal(c))
    && !HasRepeat(configs, Id())
    && !HasRepeat(configs, Port())
  }

  /** A refusal names something that is really wrong with the request. */
  ghost predicate Explains(result: Result, configs: seq<DisplayConfig>) {
    match result
    case PrimaryDisplayProtected => exists c :: c in configs && c.id == PRIMARY
    case InvalidConfig => exists c :: c in configs && !IsValidExternal(c)
    case AlreadyConnected => HasRepeat(configs, Id())
    case PortInUse => HasRepeat(configs, Port())
    case _ => false
  }

  /** `m` holds the primary of `before` and exactly the requested displays, as external ones. */
  ghost predicate Replaced(before: Topology, configs: seq<DisplayConfig>, m: Topology)
    requires PRIMARY in before
  {
    && PRIMARY in m && m[PRIMARY] == before[PRIMARY]
    && (forall c :: c in configs ==> c.id in m && m[c.id] == AsExternal(c))
    && (forall i :: i in m && i != PRIMARY ==> exists c :: c in configs && c.id == i)
  }

  /** The topology an acceptable request leads to. */
  ghost function ReplacedBy(before: Topology, configs: seq<DisplayConfig>): (m: Topology)
    requires PRIMARY in before && Acceptable(configs)
    ensures Replaced(before, configs, m)
  {
    RequestMap(before, configs, |configs|);
    assert configs[..|configs|] == configs;
    var m :| Replaced(before, configs, m); m
  }

  lemma {:induction false} RequestMap(before: Topology, configs: seq<DisplayConfig>, n: nat)
    requires PRIMARY in before && Acceptable(configs) && n <= |configs|
    ensures exists m :: Replaced(before, configs[..n], m)
    decreases n
  {
    if n == 0 {
      assert Replaced(before, configs[..0], map[PRIMARY := before[PRIMARY]]);
    } else {
      RequestMap(before, configs, n - 1);
      var m :| Replaced(before, configs[..n - 1], m);
      RequestExtends(before, configs, n - 1, m);
    }
  }

  lemma RequestExtends(before: Topology, configs: seq<DisplayConfig>, i: nat, m: Topology)
    requires PRIMARY in before && Acceptable(configs) && i < |configs| && Replaced(before, configs[..i], m)
    ensures Replaced(before, configs[..i + 1], m[configs[i].id := AsExternal(configs[i])])
  {
    assert configs[..i + 1] == configs[..i] + [configs[i]];
    assert configs[i] in configs;
    assert forall k :: 0 <= k < i ==> Id()(configs[k]) != Id()(configs[i]);
    assert forall c :: c in configs[..i] ==> c.id != configs[i].id;
  }

  ghost predicate Differs(a: Topology, b: Topology, id: nat) {
    id in a && (id !in b || a[id] != b[id])
  }

  /** What a diff must list: each id that goes or changes, each display that comes or changes. */
  ghost predicate IsDiff(before: Topology, after: Topology, d: Changes) {
    && (forall i :: i in d.disconnected <==> i != PRIMARY && Differs(before, after, i))
    && (forall c :: c in d.connected <==>
          c.id != PRIMARY && Differs(after, before, c.id) && after[c.id] == c)
    && StrictBy(d.disconnected, Identity())
    && StrictBy(d.connected, Id())
  }

  lemma ReplacedValid(before: Topology, configs: seq<DisplayConfig>, m: Topology)
    requires Valid(before) && Acceptable(configs) && Replaced(before, configs, m)
    ensures Valid(m)
  {
    forall i, j | i in m && j in m && i != j ensures m[i].port != m[j].port {
      if i != PRIMARY {
        var c :| c in configs && c.id == i;
        if j != PRIMARY {
          var d :| d in configs && d.id == j;
        }
      } else {
        var d :| d in configs && d.id == j;
      }
    }
  }

  /** A request determines the topology it leads to, whatever its order. */
  lemma ReplacedUnique(before: Topology, a: seq<DisplayConfig>, b: seq<DisplayConfig>, m: Topology, n: Topology)
    requires PRIMARY in before && Replaced(before, a, m) && Replaced(before, b, n)
    requires SameMembers(a, b)
    ensures m == n
  {
    forall i ensures i in m <==> i in n {
      if i in m && i != PRIMARY { var c :| c in a && c.id == i; assert c in b; }
      if i in n && i != PRIMARY { var c :| c in b && c.id == i; assert c in a; }
    }
    forall i | i in m ensures m[i] == n[i] {
      if i != PRIMARY { var c :| c in a && c.id == i; assert c in b; }
    }
  }

  ghost function ById(cs: seq<DisplayConfig>): (m: Topology)
    requires StrictBy(cs, Id())
    ensures forall c :: c in cs ==> c.id in m && m[c.id] == c
    ensures forall i :: i in m ==> m[i] in cs && m[i].id == i
  {
    map k | 0 <= k < |cs| :: cs[k].id := cs[k]
  }

  /** Removing the disconnected ids and adding the connected displays. */
  ghost function Patched(before: Topology, d: Changes): Topology
    requires StrictBy(d.connected, Id())
  {
    (map i | i in before && i !in d.disconnected :: before[i]) + ById(d.connected)
  }

  /** The diff is exact: applied to the old topology it gives the new one. */
  lemma DiffIsExact(before: Topology, after: Topology, d: Changes)
    requires Valid(before) && Valid(after) && before[PRIMARY] == after[PRIMARY]
    requires IsDiff(before, after, d)
    ensures Patched(before, d) == after
  {
    var p := Patched(before, d);
    forall i ensures (i in p <==> i in after) && (i in p && i in after ==> p[i] == after[i]) {
      if i in after && Differs(after, before, i) && i != PRIMARY {
        assert after[i] in d.connected;
      } else {
        assert i !in ById(d.connected);
        assert i in before && i !in after ==> Differs(before, after, i);
      }
    }
  }

  /** An id is in neither list exactly when it is the same before and after. */
  lemma UnlistedIffUnchanged(before: Topology, after: Topology, d: Changes, id: nat)
    requires Valid(before) && Valid(after) && before[PRIMARY] == after[PRIMARY]
    requires IsDiff(before, after, d)
    ensures (id !in d.disconnected && forall c :: c in d.connected ==> c.id != id)
            <==> ((id in before <==> id in after) && (id in before ==> before[id] == after[id]))
  {
    if id in after && id != PRIMARY { assert after[id].id == id; }
  }

  /** What survives a patch unlisted is as it was, and what is new was listed. */
  lemma PatchedAt(before: Topology, d: Changes, id: nat)
    requires StrictBy(d.connected, Id())
    ensures
      var p := Patched(before, d);
      id in p && (id !in before || p[id] != before[id]) ==> p[id] in d.connected && p[id].id == id
    ensures
      var p := Patched(before, d);
      id in before && id !in d.disconnected && (forall c :: c in d.connected ==> c.id != id)
      ==> id in p && p[id] == before[id]
  {}

  /**
   * The diff is minimal: any changes that disconnect only what is connected,
   * connect only what is not, and lead to the same topology contain it.
   */
  lemma DiffIsMinimal(before: Topology, after: Topology, d: Changes, other: Changes)
    requires Valid(before) && Valid(after)
    requires IsDiff(before, after, d)
    requires StrictBy(other.connected, Id()) && Patched(before, other) == after
    requires forall c :: c in other.connected ==> c.id !in before || c.id in other.disconnected
    ensures forall i :: i in d.disconnected ==> i in other.disconnected
    ensures forall c :: c in d.connected ==> c in other.connected
  {
    forall i | i in d.disconnected ensures i in other.disconnected {
      PatchedAt(before, other, i);
    }
    forall c | c in d.connected ensures c in other.connected {
      PatchedAt(before, other, c.id);
    }
  }

  /** Replaying a request, in any order, changes nothing. */
  lemma ReplayIsEmpty(before: Topology, a: seq<DisplayConfig>, b: seq<DisplayConfig>,
                      m: Topology, n: Topology, d: Changes)
    requires PRIMARY in before && Replaced(before, a, m)
    requires SameMembers(a, b) && Replaced(m, b, n) && IsDiff(m, n, d)
    ensures n == m && d == Changes([], [])
  {
    assert Replaced(before, b, n);
    ReplacedUnique(before, a, b, m, n);
    NoMembers(d.disconnected);
    NoMembers(d.connected);
  }

  // The class.

  class DisplayTopology {
    var displays: Topology

    constructor (primary: DisplayConfig)
      ensures Valid(displays)
      ensures displays == map[PRIMARY := primary.(id := PRIMARY, port := 0, connection := Internal)]
    {
      displays := map[PRIMARY := primary.(id := PRIMARY, port := 0, connection := Internal)];
    }

    method Get(id: nat) returns (config: Option<DisplayConfig>)
      ensures config == if id in displays then Some(displays[id]) else None
    {
      if id in displays { return Some(displays[id]); }
      return None;
    }

    method ConnectExternal(config: DisplayConfig) returns (result: Result)
      requires Valid(displays)
      modifies this
      ensures Valid(displays)
      ensures result.Success? <==>
              && config.id != PRIMARY && IsValidExternal(config) && config.id !in old(displays)
              && forall i :: i in old(displays) ==> old(displays)[i].port != config.port
      ensures displays == if result.Success? then old(displays)[config.id := AsExternal(config)] else old(displays)
      ensures result.PrimaryDisplayProtected? <==> config.id == PRIMARY
      ensures result.InvalidConfig? <==> config.id != PRIMARY && !IsValidExternal(config)
      ensures result.AlreadyConnected? <==>
                config.id != PRIMARY && IsValidExternal(config) && config.id in old(displays)
      ensures result.PortInUse? <==>
                && config.id != PRIMARY && IsValidExternal(config) && config.id !in old(displays)
                && exists i :: i in old(displays) && old(displays)[i].port == config.port
    {
      if config.id == PRIMARY { return PrimaryDisplayProtected; }
      if !IsValidExternal(config) { return InvalidConfig; }
      if config.id in displays { return AlreadyConnected; }
      if exists i :: i in displays && displays[i].port == config.port { return PortInUse; }
      displays := displays[config.id := AsExternal(config)];
      return Success;
    }

    method Disconnect(id: nat) returns (result: Result)
      requires Valid(displays)
      modifies this
      ensures Valid(displays)
      ensures result.Success? <==> id != PRIMARY && id != 0 && id in old(displays)
      ensures displays == if result.Success? then old(displays) - {id} else old(displays)
      ensures !result.Success? ==> result == if id == PRIMARY then PrimaryDisplayProtected else NotFound
    {
      if id == PRIMARY { return PrimaryDisplayProtected; }
      if id == 0 || id !in displays { return NotFound; }
      displays := displays - {id};
      return Success;
    }

    /** `wanted` is false when the caller passes no place for the changes. */
    method ReplaceExternalDisplays(configs: seq<DisplayConfig>, wanted: bool)
      returns (result: Result, changes: Changes, ghost sorted: seq<DisplayConfig>)
      requires Valid(displays)
      modifies this
      ensures Valid(displays)
      ensures result.Success? <==> wanted && Acceptable(configs)
      ensures result.Success? ==>
                && Replaced(old(displays), configs, displays)
                && IsDiff(old(displays), displays, changes)
      ensures !result.Success? ==> displays == old(displays) && changes == Changes([], [])
      ensures !result.Success? && wanted ==> Explains(result, configs)
      ensures wanted ==>
                && multiset(sorted) == multiset(configs) && SortedBy(sorted, Id())
                && result == FirstFault(sorted, |sorted|)
      ensures !wanted ==> result.InvalidConfig?
    {
      changes, sorted := Changes([], []), [];
      if !wanted { return InvalidConfig, changes, sorted; }
      var inOrder := SortBy(configs, Id());
      sorted := inOrder;
      SameElems(inOrder, configs);
      result := Check(inOrder);
      AcceptableInAnyOrder(inOrder, configs);
      if !result.Success? {
        ExplainsInAnyOrder(result, inOrder, configs);
        return;
      }
      var target := Target(displays, inOrder);
      assert Replaced(displays, configs, target);
      var gone := Missing(displays, target);
      var externals := Coerced(inOrder);
      CoercedSorted(inOrder, externals);
      ArrivingIsDiff(displays, inOrder, externals, target);
      var come := Arriving(displays, externals);
      changes := Changes(gone, come);
      ReplacedValid(displays, configs, target);
      displays := target;
    }
  }

  /** The fault of one display, given those before it. */
  function FaultAt(configs: seq<DisplayConfig>, i: nat): Result
    requires i < |configs|
  {
    var c := configs[i];
    if c.id == PRIMARY then PrimaryDisplayProtected
    else if !IsValidExternal(c) then InvalidConfig
    else if exists k :: 0 <= k < i && configs[k].id == c.id then AlreadyConnected
    else if exists k :: 0 <= k < i && configs[k].port == c.port then PortInUse
    else Success
  }

  /** The first fault among the first n displays. */
  function FirstFault(configs: seq<DisplayConfig>, n: nat): Result
    requires n <= |configs|
  {
    if n == 0 then Success
    else
      var before := FirstFault(configs, n - 1);
      if before.Success? then FaultAt(configs, n - 1) else before
  }

  lemma {:induction false} FaultStays(configs: seq<DisplayConfig>, n: nat, m: nat)
    requires n <= m <= |configs| && !FirstFault(configs, n).Success?
    ensures FirstFault(configs, m) == FirstFault(configs, n)
    decreases m
  {
    if n < m { FaultStays(configs, n, m - 1); }
  }

  /** Which displays a caller may connect: not without an id, a port, a size, a density or a period. */
  lemma ValidExactly(c: DisplayConfig)
    ensures IsValidExternal(c) <==> 0 !in {c.id, c.port, c.width, c.height, c.dpi} && c.vsyncPeriod >= 1
  {}

  lemma FaultDecides(configs: seq<DisplayConfig>, i: nat)
    requires i < |configs| && Acceptable(configs[..i])
    ensures FaultAt(configs, i).Success? ==> Acceptable(configs[..i + 1])
    ensures !FaultAt(configs, i).Success? ==> !Acceptable(configs) && Explains(FaultAt(configs, i), configs)
  {
    var c := configs[i];
    assert c in configs && configs[..i + 1] == configs[..i] + [c];
    if exists k :: 0 <= k < i && configs[k].id == c.id {
      var k :| 0 <= k < i && configs[k].id == c.id;
      assert Id()(configs[k]) == Id()(configs[i]);
    }
    if exists k :: 0 <= k < i && configs[k].port == c.port {
      var k :| 0 <= k < i && configs[k].port == c.port;
      assert Port()(configs[k]) == Port()(configs[i]);
    }
  }

  /** The validation loop, in order of id. */
  method Check(configs: seq<DisplayConfig>) returns (result: Result)
    ensures result.Success? <==> Acceptable(configs)
    ensures !result.Success? ==> Explains(result, configs)
    ensures result == FirstFault(configs, |configs|)
  {
    var ids: set<nat> := {};
    var ports: set<nat> := {};
    for i := 0 to |configs|
      invariant Acceptable(configs[..i]) && FirstFault(configs, i).Success?
      invariant forall x :: x in ids <==> exists k :: 0 <= k < i && configs[k].id == x
      invariant forall x :: x in ports <==> exists k :: 0 <= k < i && configs[k].port == x
    {
      FaultDecides(configs, i);
      result := CheckOne(configs, i, ids, ports);
      if !result.Success? {
        FaultStays(configs, i + 1, |configs|);
        return;
      }
      ids := ids + {configs[i].id};
      ports := ports + {configs[i].port};
    }
    assert configs[..|configs|] == configs;
    return Success;
  }

  method CheckOne(configs: seq<DisplayConfig>, i: nat, ids: set<nat>, ports: set<nat>) returns (result: Result)
    requires i < |configs|
    requires forall x :: x in ids <==> exists k :: 0 <= k < i && configs[k].id == x
    requires forall x :: x in ports <==> exists k :: 0 <= k < i && configs[k].port == x
    ensures result == FaultAt(configs, i)
  {
    var c := configs[i];
    if c.id == PRIMARY { return PrimaryDisplayProtected; }
    if !IsValidExternal(c) { return InvalidConfig; }
    if c.id in ids { return AlreadyConnected; }
    if c.port in ports { return PortInUse; }
    return Success;
  }

  /** Acceptance does not depend on the order the sort chose. */
  lemma AcceptableInAnyOrder(a: seq<DisplayConfig>, b: seq<DisplayConfig>)
    requires multiset(a) == multiset(b)
    ensures Acceptable(a) <==> Acceptable(b)
  {
    SameElems(a, b);
    if HasRepeat(a, Id()) { RepeatSurvives(a, b, Id()); }
    if HasRepeat(b, Id()) { RepeatSurvives(b, a, Id()); }
    if HasRepeat(a, Port()) { RepeatSurvives(a, b, Port()); }
    if HasRepeat(b, Port()) { RepeatSurvives(b, a, Port()); }
  }

  lemma ExplainsInAnyOrder(result: Result, a: seq<DisplayConfig>, b: seq<DisplayConfig>)
    requires multiset(a) == multiset(b) && Explains(result, a)
    ensures Explains(result, b)
  {
    SameElems(a, b);
    match result
    case AlreadyConnected => RepeatSurvives(a, b, Id());
    case PortInUse => RepeatSurvives(a, b, Port());
    case _ =>
  }

  method Missing(before: Topology, after: Topology) returns (gone: seq<nat>)
    ensures forall i :: i in gone <==> i != PRIMARY && Differs(before, after, i)
    ensures StrictBy(gone, Identity())
  {
    gone := [];
    var left := before.Keys;
    while left != {}
      invariant left <= before.Keys
      invariant forall i :: i in gone <==> i in before && i !in left && i != PRIMARY && Differs(before, after, i)
    {
      var id :| id in left;
      left := left - {id};
      if id != PRIMARY && (id !in after || before[id] != after[id]) {
        gone := gone + [id];
      }
    }
    var sorted := SortBy(gone, Identity());
    SameElems(gone, sorted);
    gone := Unique(sorted, Identity());
  }

  method Target(before: Topology, configs: seq<DisplayConfig>) returns (target: Topology)
    requires PRIMARY in before && Acceptable(configs)
    ensures Replaced(before, configs, target)
  {
    target := map[PRIMARY := before[PRIMARY]];
    for i := 0 to |configs|
      invariant Replaced(before, configs[..i], target)
    {
      RequestExtends(before, configs, i, target);
      target := target[configs[i].id := AsExternal(configs[i])];
    }
    assert configs[..|configs|] == configs;
  }

  /** The validation loop also makes every request external, in place. */
  method Coerced(configs: seq<DisplayConfig>) returns (externals: seq<DisplayConfig>)
    ensures |externals| == |configs|
    ensures forall i :: 0 <= i < |configs| ==> externals[i] == AsExternal(configs[i])
  {
    externals := [];
    for i := 0 to |configs|
      invariant |externals| == i
      invariant forall k :: 0 <= k < i ==> externals[k] == AsExternal(configs[k])
    {
      externals := externals + [AsExternal(configs[i])];
    }
  }

  lemma CoercedSorted(configs: seq<DisplayConfig>, externals: seq<DisplayConfig>)
    requires SortedBy(configs, Id()) && !HasRepeat(configs, Id()) && |externals| == |configs|
    requires forall i :: 0 <= i < |configs| ==> externals[i] == AsExternal(configs[i])
    ensures StrictBy(externals, Id())
  {
    forall i, j | 0 <= i < j < |configs| ensures Id()(externals[i]) < Id()(externals[j]) {
      assert Id()(configs[i]) <= Id()(configs[j]);
    }
  }

  predicate Arrives(before: Topology, c: DisplayConfig) {
    c.id !in before || before[c.id] != c
  }

  method Arriving(before: Topology, externals: seq<DisplayConfig>) returns (come: seq<DisplayConfig>)
    requires StrictBy(externals, Id())
    ensures forall c :: c in come <==> c in externals && Arrives(before, c)
    ensures StrictBy(come, Id())
  {
    come := [];
    for k := 0 to |externals|
      invariant forall c :: c in come <==> c in externals[..k] && Arrives(before, c)
      invariant StrictBy(come, Id())
    {
      var c := externals[k];
      assert externals[..k + 1] == externals[..k] + [c];
      if Arrives(before, c) {
        forall i | 0 <= i < |come| ensures Id()(come[i]) < Id()(c) {
          assert come[i] in externals[..k];
        }
        come := come + [c];
      }
    }
    assert externals[..|externals|] == externals;
  }

  lemma ArrivingIsDiff(before: Topology, configs: seq<DisplayConfig>, externals: seq<DisplayConfig>, after: Topology)
    requires PRIMARY in before && Acceptable(configs) && Replaced(before, configs, after) && |externals| == |configs|
    requires forall i :: 0 <= i < |configs| ==> externals[i] == AsExternal(configs[i])
    ensures forall c :: c in externals && Arrives(before, c) <==>
                        c.id != PRIMARY && Differs(after, before, c.id) && after[c.id] == c
  {
    forall c ensures c in externals && Arrives(before, c) <==>
                     c.id != PRIMARY && Differs(after, before, c.id) && after[c.id] == c
    {
      if c in externals {
        var i :| 0 <= i < |externals| && externals[i] == c;
        assert configs[i] in configs;
      }
      if c.id != PRIMARY && Differs(after, before, c.id) && after[c.id] == c {
        var e :| e in configs && e.id == c.id;
        var i :| 0 <= i < |configs| && configs[i] == e;
        assert externals[i] == c;
      }
    }
  }
}
