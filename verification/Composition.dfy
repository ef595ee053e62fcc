/**
 * Composition and presentation (src/Display.cpp, src/Layer.cpp). Each call is
 * one region under the display's mutex, except that PresentDisplay releases it
 * before handing its frame to the sink: such frames are in flight, and the sink
 * settles them in any order.
 */
module Composition {
  import opened Basics
  import opened FenceLog
  import S = StreamFrameSink

  /** Invalid is the type of a new layer, and stands for every unknown code of a caller. */
  datatype CompositionType = Invalid | Client | Device | SolidColor | Cursor | Sideband

  datatype LayerState = LayerState(composition: CompositionType, buffer: Option<nat>, fence: Option<Fence>)

  type Layers = map<nat, LayerState>

  datatype Change = Change(layer: nat, composition: CompositionType)

  datatype Rect = Rect(left: int, top: int, right: int, bottom: int)

  /** The client target, without its acquire fence. */
  datatype Target = Target(buffer: Option<nat>, dataspace: int, damage: seq<Rect>)

  const NOTHING := Target(None, 0, [])

  /** A frame handed to the sink; `allClient` records the layers at that moment. */
  datatype Submission = Submission(sequence: nat, target: Target, fence: Option<Fence>, allClient: bool)

  /** `incoming`, `returned` and `closed` log every descriptor received, given back and closed. */
  datatype State = State(
    layers: Layers,
    changes: seq<Change>,
    nextLayer: nat,
    validated: bool,
    target: Target,
    clientFence: Option<Fence>,
    nextSequence: nat,
    inFlight: map<nat, Option<Fence>>,
    submissions: seq<Submission>,
    incoming: seq<Option<Fence>>,
    returned: seq<Option<Fence>>,
    closed: seq<Option<Fence>>)

  /** A SetClientTarget without `damage` claims rectangles but passes none. */
  datatype Event =
    | CreateLayer
    | DestroyLayer(id: nat)
    | SetCompositionType(id: nat, composition: CompositionType)
    | SetLayerBuffer(id: nat, handle: Option<nat>, fence: Option<Fence>)
    | ValidateDisplay(order: seq<nat>)
    | AcceptChanges
    | SetClientTarget(buffer: Option<nat>, fence: Option<Fence>, dataspace: int, damage: Option<seq<Rect>>)
    | Present
    | Settle(sequence: nat, outcome: S.Outcome)

  function Start(): State {
    State(map[], [], 1, false, NOTHING, None, 1, map[], [], [], [], [])
  }

  ghost function Fences(layers: Layers): map<nat, Option<Fence>> {
    map id | id in layers :: layers[id].fence
  }

  ghost function Released(layers: Layers): Layers {
    map id | id in layers :: layers[id].(buffer := None, fence := None)
  }

  /** The changes asked for, in the order the layers are visited. */
  ghost function ChangesIn(layers: Layers, order: seq<nat>): seq<Change>
    requires forall i :: i in order ==> i in layers
  {
    if order == [] then []
    else
      var id := order[|order| - 1];
      ChangesIn(layers, order[..|order| - 1])
      + (if layers[id].composition.Client? then [] else [Change(id, Client)])
  }

  function Without(changes: seq<Change>, id: nat): seq<Change> {
    if changes == [] then []
    else
      var last := changes[|changes| - 1];
      Without(changes[..|changes| - 1], id) + (if last.layer == id then [] else [last])
  }

  /** The layers once the changes are applied, in order. */
  ghost function Applied(layers: Layers, changes: seq<Change>): Layers {
    if changes == [] then layers
    else Changed(Applied(layers, changes[..|changes| - 1]), changes[|changes| - 1])
  }

  ghost function Changed(layers: Layers, c: Change): Layers {
    if c.layer in layers then layers[c.layer := layers[c.layer].(composition := c.composition)] else layers
  }

  ghost predicate AllClient(layers: Layers) {
    forall id :: id in layers ==> layers[id].composition.Client?
  }

  ghost predicate Possible(st: State, e: Event) {
    match e
    case ValidateDisplay(order) => Distinct(order) && forall i :: i in order <==> i in st.layers
    case Settle(sequence, _) => sequence in st.inFlight
    case _ => true
  }

  /** Calls that are refused close the fence they were given and change nothing else. */
  ghost function Act(st: State, e: Event): State
    requires Possible(st, e)
  {
    match e
    case CreateLayer =>
      st.(layers := st.layers[st.nextLayer := LayerState(Invalid, None, None)], nextLayer := st.nextLayer + 1,
          validated := false)
    case DestroyLayer(id) =>
      if id !in st.layers then st
      else st.(layers := st.layers - {id}, changes := Without(st.changes, id), validated := false,
               closed := st.closed + [st.layers[id].fence])
    case SetCompositionType(id, composition) =>
      if composition.Invalid? || id !in st.layers then st
      else st.(layers := st.layers[id := st.layers[id].(composition := composition)], validated := false)
    case SetLayerBuffer(id, handle, fence) =>
      var received := st.(incoming := st.incoming + [fence]);
      if id !in st.layers then received.(closed := st.closed + [fence])
      else received.(layers := st.layers[id := st.layers[id].(buffer := handle, fence := fence)],
                     closed := st.closed + [st.layers[id].fence])
    case ValidateDisplay(order) =>
      st.(layers := Released(st.layers), changes := ChangesIn(st.layers, order), validated := true,
          closed := st.closed + InOrder(Fences(st.layers), order))
    case AcceptChanges =>
      if !st.validated then st else st.(layers := Applied(st.layers, st.changes), changes := [])
    case SetClientTarget(buffer, fence, dataspace, damage) =>
      var received := st.(incoming := st.incoming + [fence]);
      if damage.None? then received.(closed := st.closed + [fence])
      else received.(target := Target(buffer, dataspace, damage.value), clientFence := fence,
                     closed := st.closed + [st.clientFence])
    case Present =>
      if !st.validated || st.changes != [] then st
      else st.(inFlight := st.inFlight[st.nextSequence := st.clientFence], target := NOTHING, clientFence := None,
               nextSequence := st.nextSequence + 1, validated := false,
               submissions := st.submissions
                 + [Submission(st.nextSequence, st.target, st.clientFence, AllClient(st.layers))])
    case Settle(sequence, outcome) =>
      var acquire := st.inFlight[sequence];
      st.(inFlight := st.inFlight - {sequence},
          incoming := st.incoming + [S.Received(outcome)],
          returned := st.returned + [S.PresentFence(acquire, outcome)],
          closed := st.closed + [S.ClosedBy(acquire, outcome)])
  }

  ghost function Step(st: State, e: Event): State {
    if Possible(st, e) then Act(st, e) else st
  }

  ghost function Exec(st: State, es: seq<Event>): State {
    if es == [] then st else Step(Exec(st, es[..|es| - 1]), es[|es| - 1])
  }

  lemma ExecSnoc(st: State, es: seq<Event>, e: Event)
    ensures Exec(st, es + [e]) == Step(Exec(st, es), e)
  {
    assert (es + [e])[..|es|] == es;
  }

  // Composition.

  ghost predicate Listed(changes: seq<Change>, id: nat) {
    exists k :: 0 <= k < |changes| && changes[k].layer == id
  }

  /** Distinct layers, each of which is to become CLIENT. */
  ghost predicate Orderly(changes: seq<Change>) {
    && (forall j, k :: 0 <= j < k < |changes| ==> changes[j].layer != changes[k].layer)
    && (forall k :: 0 <= k < |changes| ==> changes[k].composition.Client?)
  }

  ghost predicate Live(layers: Layers, changes: seq<Change>) {
    forall k :: 0 <= k < |changes| ==> changes[k].layer in layers
  }

  /** The changes are exactly the layers that are not CLIENT. */
  ghost predicate Complete(layers: Layers, changes: seq<Change>) {
    forall id :: id in layers ==> (Listed(changes, id) <==> !layers[id].composition.Client?)
  }

  ghost predicate Inv(st: State) {
    && Orderly(st.changes) && Live(st.layers, st.changes)
    && (st.validated ==> Complete(st.layers, st.changes))
    && (forall id :: id in st.layers ==> id < st.nextLayer)
    && (forall n :: n in st.inFlight ==> n < st.nextSequence)
  }

  ghost predicate Numbered(st: State) {
    && st.nextSequence == |st.submissions| + 1
    && (forall k :: 0 <= k < |st.submissions| ==>
          st.submissions[k].sequence == k + 1 && st.submissions[k].allClient)
  }

  lemma ListedSnoc(changes: seq<Change>, c: Change, id: nat)
    ensures Listed(changes + [c], id) <==> Listed(changes, id) || c.layer == id
  {
    if Listed(changes, id) {
      var k :| 0 <= k < |changes| && changes[k].layer == id;
      assert (changes + [c])[k].layer == id;
    }
    assert (changes + [c])[|changes|] == c;
  }

  lemma {:induction false} ChangesInIs(layers: Layers, order: seq<nat>)
    requires Distinct(order) && forall i :: i in order ==> i in layers
    ensures
      var changes := ChangesIn(layers, order);
      && Orderly(changes)
      && (forall k :: 0 <= k < |changes| ==> changes[k].layer in order)
      && (forall id :: id in order ==> (Listed(changes, id) <==> !layers[id].composition.Client?))
  {
    if order != [] {
      var n := |order| - 1;
      var init, id := order[..n], order[n];
      ChangesInIs(layers, init);
      var before := ChangesIn(layers, init);
      assert order == init + [id] && id !in init;
      assert ChangesIn(layers, order)
             == if layers[id].composition.Client? then before else before + [Change(id, Client)];
      forall i | i in order
        ensures Listed(ChangesIn(layers, order), i) <==> !layers[i].composition.Client?
      {
        ListedSnoc(before, Change(id, Client), i);
        if i != id { assert i in init; }
        if i == id { assert !Listed(before, id); }
      }
    }
  }

  lemma {:induction false} WithoutIs(changes: seq<Change>, id: nat)
    requires Orderly(changes)
    ensures
      var rest := Without(changes, id);
      && Orderly(rest)
      && (forall k :: 0 <= k < |rest| ==> rest[k] in changes && rest[k].layer != id)
      && (forall k :: 0 <= k < |changes| && changes[k].layer != id ==> changes[k] in rest)
  {
    if changes != [] {
      var n := |changes| - 1;
      var init, last := changes[..n], changes[n];
      WithoutIs(init, id);
      var before := Without(init, id);
      assert changes == init + [last];
      forall k | 0 <= k < |before| ensures before[k].layer != last.layer && before[k] in changes {
        assert before[k] in init;
        var j :| 0 <= j < n && init[j] == before[k];
        assert changes[j] == before[k];
      }
      forall k | 0 <= k < |changes| && changes[k].layer != id ensures changes[k] in Without(changes, id) {
        if k < n { assert changes[k] == init[k] && init[k] in before; }
      }
    }
  }

  lemma {:induction false} AppliedIs(layers: Layers, changes: seq<Change>)
    requires Orderly(changes) && Live(layers, changes)
    ensures Applied(layers, changes).Keys == layers.Keys
    ensures Fences(Applied(layers, changes)) == Fences(layers)
    ensures forall id :: id in layers && (layers[id].composition.Client? || Listed(changes, id)) ==>
              Applied(layers, changes)[id].composition.Client?
  {
    if changes != [] {
      var n := |changes| - 1;
      AppliedIs(layers, changes[..n]);
      forall id | id in layers && (layers[id].composition.Client? || Listed(changes, id))
        ensures Applied(layers, changes)[id].composition.Client?
      {
        if Listed(changes, id) && id != changes[n].layer {
          var k :| 0 <= k < |changes| && changes[k].layer == id;
          assert changes[..n][k].layer == id;
        }
      }
    }
  }

  lemma InvDestroy(st: State, id: nat)
    requires Inv(st) && id in st.layers
    ensures Inv(Step(st, DestroyLayer(id)))
  {
    WithoutIs(st.changes, id);
    var rest := Without(st.changes, id);
    forall k | 0 <= k < |rest| ensures rest[k].layer in st.layers - {id} {
      var j :| 0 <= j < |st.changes| && st.changes[j] == rest[k];
    }
  }

  lemma InvValidate(st: State, order: seq<nat>)
    requires Inv(st) && Possible(st, ValidateDisplay(order))
    ensures Inv(Step(st, ValidateDisplay(order)))
  {
    ChangesInIs(st.layers, order);
  }

  lemma InvAccept(st: State)
    requires Inv(st) && st.validated
    ensures Inv(Step(st, AcceptChanges))
    ensures AllClient(Step(st, AcceptChanges).layers)
  {
    AppliedIs(st.layers, st.changes);
  }

  lemma InvBuffer(st: State, id: nat, handle: Option<nat>, fence: Option<Fence>)
    requires Inv(st)
    ensures Inv(Step(st, SetLayerBuffer(id, handle, fence)))
  {}

  lemma CreateIs(st: State)
    requires Inv(st)
    ensures
      var end := st.(layers := st.layers[st.nextLayer := LayerState(Invalid, None, None)],
                     nextLayer := st.nextLayer + 1, validated := false);
      end == Step(st, CreateLayer) && Inv(end)
  {}

  lemma BufferIs(st: State, id: nat, handle: Option<nat>, fence: Option<Fence>)
    requires Inv(st) && id in st.layers
    ensures
      var end := st.(layers := st.layers[id := st.layers[id].(buffer := handle, fence := fence)],
                     incoming := st.incoming + [fence], closed := st.closed + [st.layers[id].fence]);
      end == Step(st, SetLayerBuffer(id, handle, fence)) && Inv(end)
  {
    InvBuffer(st, id, handle, fence);
  }

  lemma TargetIs(st: State, buffer: Option<nat>, fence: Option<Fence>, dataspace: int, damage: Option<seq<Rect>>)
    requires Inv(st)
    ensures
      var received := st.(incoming := st.incoming + [fence]);
      var end := if damage.None? then received.(closed := st.closed + [fence])
                 else received.(target := Target(buffer, dataspace, damage.value), clientFence := fence,
                                closed := st.closed + [st.clientFence]);
      end == Step(st, SetClientTarget(buffer, fence, dataspace, damage)) && Inv(end)
  {}

  lemma SettleIs(st: State, sequence: nat, o: S.Outcome)
    requires Inv(st) && sequence in st.inFlight
    ensures
      var end := st.(inFlight := st.inFlight - {sequence}, incoming := st.incoming + [S.Received(o)],
                     returned := st.returned + [S.PresentFence(st.inFlight[sequence], o)],
                     closed := st.closed + [S.ClosedBy(st.inFlight[sequence], o)]);
      end == Step(st, Settle(sequence, o)) && Inv(end)
  {}

  lemma InvStep(st: State, e: Event)
    requires Inv(st)
    ensures Inv(Step(st, e))
  {
    match e
    case DestroyLayer(id) => if id in st.layers { InvDestroy(st, id); }
    case ValidateDisplay(order) => if Possible(st, e) { InvValidate(st, order); }
    case AcceptChanges => if st.validated { InvAccept(st); }
    case SetCompositionType(_, _) =>
    case SetLayerBuffer(_, _, _) =>
    case CreateLayer =>
    case SetClientTarget(_, _, _, _) =>
    case Present =>
    case Settle(_, _) =>
  }

  lemma {:induction false} InvExec(st: State, es: seq<Event>)
    requires Inv(st)
    ensures Inv(Exec(st, es))
  {
    if es != [] {
      InvExec(st, es[..|es| - 1]);
      InvStep(Exec(st, es[..|es| - 1]), es[|es| - 1]);
    }
  }

  /**
   * In every reachable state that is validated, a layer is CLIENT or has
   * exactly one pending change, and a change names a live layer.
   */
  lemma ValidatedChanges(es: seq<Event>, id: nat)
    requires Exec(Start(), es).validated
    ensures
      var end := Exec(Start(), es);
      var entries := set k | 0 <= k < |end.changes| && end.changes[k].layer == id;
      |entries| == if id in end.layers && !end.layers[id].composition.Client? then 1 else 0
  {
    InvExec(Start(), es);
    EntriesOf(Exec(Start(), es).layers, Exec(Start(), es).changes, id);
  }

  lemma EntriesOf(layers: Layers, changes: seq<Change>, id: nat)
    requires Orderly(changes) && Live(layers, changes) && Complete(layers, changes)
    ensures |set k | 0 <= k < |changes| && changes[k].layer == id|
            == if id in layers && !layers[id].composition.Client? then 1 else 0
  {
    var entries := set k | 0 <= k < |changes| && changes[k].layer == id;
    if id in layers && !layers[id].composition.Client? {
      assert Listed(changes, id);
      var k :| 0 <= k < |changes| && changes[k].layer == id;
      assert entries == {k};
    } else {
      assert entries == {};
    }
  }

  lemma NumberedStep(st: State, e: Event)
    requires Inv(st) && Numbered(st)
    ensures Numbered(Step(st, e))
  {
    if e.Present? && st.validated && st.changes == [] {
      assert forall id :: id in st.layers ==> !Listed(st.changes, id);
    }
  }

  /** Frames are numbered 1, 2, 3, ... and each was submitted with every layer CLIENT. */
  lemma {:induction false} PresentImpliesClient(es: seq<Event>)
    ensures Numbered(Exec(Start(), es))
  {
    if es != [] {
      PresentImpliesClient(es[..|es| - 1]);
      InvExec(Start(), es[..|es| - 1]);
      NumberedStep(Exec(Start(), es[..|es| - 1]), es[|es| - 1]);
    }
  }

  /** Accepting what a validation asked for always lets the next present succeed. */
  lemma AcceptedPresents(es: seq<Event>)
    requires Exec(Start(), es).validated
    ensures
      var st := Exec(Start(), es);
      var end := Exec(Start(), es + [AcceptChanges] + [Present]);
      && |end.submissions| == |st.submissions| + 1
      && end.submissions[|st.submissions|]
           == Submission(|st.submissions| + 1, st.target, st.clientFence, true)
  {
    var st := Exec(Start(), es);
    InvExec(Start(), es);
    PresentImpliesClient(es);
    InvAccept(st);
    ExecSnoc(Start(), es, AcceptChanges);
    ExecSnoc(Start(), es + [AcceptChanges], Present);
  }

  /** Event k gave the layer a buffer, and no validation came after it. */
  ghost predicate GivenSinceValidation(es: seq<Event>, id: nat, k: nat) {
    && k < |es| && es[k].SetLayerBuffer? && es[k].id == id
    && forall j :: k < j < |es| ==>
         !(es[j].ValidateDisplay? && Possible(Exec(Start(), es[..j]), es[j]))
  }

  lemma GivenSnoc(es: seq<Event>, id: nat, k: nat)
    requires es != [] && GivenSinceValidation(es[..|es| - 1], id, k)
    requires var e := es[|es| - 1];
             !(e.ValidateDisplay? && Possible(Exec(Start(), es[..|es| - 1]), e))
    ensures GivenSinceValidation(es, id, k)
  {
    var prefix := es[..|es| - 1];
    assert forall j :: 0 <= j < |prefix| ==> prefix[j] == es[j] && prefix[..j] == es[..j];
  }

  /**
   * Nothing is retained past a validation: in every run a layer holds a buffer
   * or a fence only if it was given one after the last validation.
   */
  lemma {:induction false} RetainsUntilValidation(es: seq<Event>, id: nat) returns (k: nat)
    requires id in Exec(Start(), es).layers
    requires
      var l := Exec(Start(), es).layers[id];
      l.buffer.Some? || l.fence.Some?
    ensures GivenSinceValidation(es, id, k)
  {
    var prefix, e := es[..|es| - 1], es[|es| - 1];
    var st := Exec(Start(), prefix);
    InvExec(Start(), prefix);
    if e.SetLayerBuffer? && e.id == id && id in st.layers {
      k := |prefix|;
    } else {
      HeldBefore(st, e, id);
      k := RetainsUntilValidation(prefix, id);
      GivenSnoc(es, id, k);
    }
  }

  lemma HeldBefore(st: State, e: Event, id: nat)
    requires Inv(st) && id in Step(st, e).layers
    requires Step(st, e).layers[id].buffer.Some? || Step(st, e).layers[id].fence.Some?
    requires !(e.SetLayerBuffer? && e.id == id && id in st.layers)
    ensures id in st.layers && (st.layers[id].buffer.Some? || st.layers[id].fence.Some?)
    ensures !(e.ValidateDisplay? && Possible(st, e))
  {
    if e.AcceptChanges? && st.validated { AppliedKeeps(st.layers, st.changes, id); }
  }

  lemma {:induction false} AppliedKeeps(layers: Layers, changes: seq<Change>, id: nat)
    ensures id in Applied(layers, changes) <==> id in layers
    ensures id in layers ==>
              var l := Applied(layers, changes)[id];
              l.buffer == layers[id].buffer && l.fence == layers[id].fence
  {
    if changes != [] { AppliedKeeps(layers, changes[..|changes| - 1], id); }
  }

  /** The layers changed, or a frame was taken. */
  ghost predicate Invalidates(st: State, e: Event) {
    match e
    case CreateLayer => true
    case DestroyLayer(id) => id in st.layers
    case SetCompositionType(id, composition) => id in st.layers && !composition.Invalid?
    case Present => st.validated && st.changes == []
    case _ => false
  }

  /** After such a change no frame is taken before the next validation. */
  lemma FramesNeedValidation(st: State, e: Event, es: seq<Event>)
    requires Invalidates(st, e)
    requires forall k :: 0 <= k < |es| ==> !es[k].ValidateDisplay?
    ensures Exec(Step(st, e), es).submissions == Step(st, e).submissions
  {
    StaysUnvalidated(Step(st, e), es);
  }

  lemma {:induction false} StaysUnvalidated(st: State, es: seq<Event>)
    requires !st.validated
    requires forall k :: 0 <= k < |es| ==> !es[k].ValidateDisplay?
    ensures !Exec(st, es).validated && Exec(st, es).submissions == st.submissions
  {
    if es != [] { StaysUnvalidated(st, es[..|es| - 1]); }
  }

  // Layers.

  /** A new layer has a fresh id, no buffer, and a type that asks for CLIENT. */
  lemma CreatedLayer(st: State)
    requires Inv(st)
    ensures
      var next := Step(st, CreateLayer);
      && st.nextLayer !in st.layers && next.nextLayer == st.nextLayer + 1
      && next.layers == st.layers[st.nextLayer := LayerState(Invalid, None, None)]
  {}

  lemma GoneStep(st: State, e: Event, id: nat)
    requires Inv(st) && id < st.nextLayer && id !in st.layers
    ensures id < Step(st, e).nextLayer && id !in Step(st, e).layers
  {
    if e.AcceptChanges? && st.validated { AppliedIs(st.layers, st.changes); }
  }

  lemma {:induction false} GoneStays(st: State, es: seq<Event>, id: nat)
    requires Inv(st) && id < st.nextLayer && id !in st.layers
    ensures id < Exec(st, es).nextLayer && id !in Exec(st, es).layers
  {
    if es != [] {
      GoneStays(st, es[..|es| - 1], id);
      InvExec(st, es[..|es| - 1]);
      GoneStep(Exec(st, es[..|es| - 1]), es[|es| - 1], id);
    }
  }

  /** A destroyed layer is gone with its pending change, the others keep theirs, and its id is never used again. */
  lemma DestroyedForGood(st: State, id: nat, es: seq<Event>)
    requires Inv(st) && id in st.layers
    ensures
      var next := Step(st, DestroyLayer(id));
      && next.layers == st.layers - {id} && !Listed(next.changes, id)
      && (forall c :: c in st.changes && c.layer != id <==> c in next.changes)
      && id !in Exec(next, es).layers
  {
    InvStep(st, DestroyLayer(id));
    WithoutIs(st.changes, id);
    OthersKept(st.changes, id);
    GoneStays(Step(st, DestroyLayer(id)), es, id);
  }

  lemma OthersKept(changes: seq<Change>, id: nat)
    requires Orderly(changes)
    ensures forall c :: c in changes && c.layer != id <==> c in Without(changes, id)
  {
    WithoutIs(changes, id);
    var rest := Without(changes, id);
    forall c ensures c in changes && c.layer != id <==> c in rest {
      if c in changes && c.layer != id { var k :| 0 <= k < |changes| && changes[k] == c; }
      if c in rest { var k :| 0 <= k < |rest| && rest[k] == c; }
    }
  }

  /** What may change the type of a layer: a caller, its destruction, or accepted changes. */
  predicate Retypes(e: Event, id: nat) {
    (e.SetCompositionType? && e.id == id) || (e.DestroyLayer? && e.id == id) || e.AcceptChanges?
  }

  lemma TypeStep(st: State, e: Event, id: nat)
    requires Inv(st) && id in st.layers && !Retypes(e, id)
    ensures id in Step(st, e).layers && Step(st, e).layers[id].composition == st.layers[id].composition
  {}

  /** A layer keeps the type its caller set, through validations too, until it is set or accepted anew. */
  lemma {:induction false} TypeKept(st: State, id: nat, composition: CompositionType, es: seq<Event>)
    requires Inv(st) && id in st.layers && !composition.Invalid?
    requires forall k :: 0 <= k < |es| ==> !Retypes(es[k], id)
    ensures
      var end := Exec(Step(st, SetCompositionType(id, composition)), es);
      id in end.layers && end.layers[id].composition == composition
  {
    InvStep(st, SetCompositionType(id, composition));
    if es != [] {
      var set1 := Step(st, SetCompositionType(id, composition));
      TypeKept(st, id, composition, es[..|es| - 1]);
      InvExec(set1, es[..|es| - 1]);
      TypeStep(Exec(set1, es[..|es| - 1]), es[|es| - 1], id);
    }
  }

  /** What takes a buffer from a layer: another one, the layer's end, or a validation. */
  predicate Rebuffers(e: Event, id: nat) {
    (e.SetLayerBuffer? && e.id == id) || (e.DestroyLayer? && e.id == id) || e.ValidateDisplay?
  }

  lemma BufferStep(st: State, e: Event, id: nat)
    requires Inv(st) && id in st.layers && !Rebuffers(e, id)
    ensures id in Step(st, e).layers
    ensures Step(st, e).layers[id].buffer == st.layers[id].buffer && Step(st, e).layers[id].fence == st.layers[id].fence
  {
    if e.AcceptChanges? { AppliedKeeps(st.layers, st.changes, id); }
  }

  /** A layer holds the buffer it was given, with its fence, until it is given another or a validation comes. */
  lemma {:induction false} BufferKept(st: State, id: nat, handle: Option<nat>, fence: Option<Fence>, es: seq<Event>)
    requires Inv(st) && id in st.layers
    requires forall k :: 0 <= k < |es| ==> !Rebuffers(es[k], id)
    ensures
      var end := Exec(Step(st, SetLayerBuffer(id, handle, fence)), es);
      id in end.layers && end.layers[id].buffer == handle && end.layers[id].fence == fence
  {
    InvStep(st, SetLayerBuffer(id, handle, fence));
    if es != [] {
      var given := Step(st, SetLayerBuffer(id, handle, fence));
      BufferKept(st, id, handle, fence, es[..|es| - 1]);
      InvExec(given, es[..|es| - 1]);
      BufferStep(Exec(given, es[..|es| - 1]), es[|es| - 1], id);
    }
  }

  /**
   * A validation only asks: it lists the layers that are not CLIENT, takes
   * their buffers, and leaves types, client target, and frames as they are.
   */
  lemma ValidationOnlyAsks(st: State, order: seq<nat>)
    requires Inv(st) && Possible(st, ValidateDisplay(order))
    ensures
      var next := Step(st, ValidateDisplay(order));
      && next.validated && next.layers.Keys == st.layers.Keys
      && (forall id :: id in st.layers ==>
            && next.layers[id].composition == st.layers[id].composition
            && next.layers[id].buffer == None && next.layers[id].fence == None
            && (Listed(next.changes, id) <==> !st.layers[id].composition.Client?))
      && next.target == st.target && next.clientFence == st.clientFence
      && next.inFlight == st.inFlight && next.submissions == st.submissions
  {
    InvValidate(st, order);
  }

  /** Accepting makes every layer CLIENT and takes nothing else from it. */
  lemma AcceptMakesClient(st: State)
    requires Inv(st) && st.validated
    ensures
      var next := Step(st, AcceptChanges);
      && next.validated && next.changes == [] && next.layers.Keys == st.layers.Keys && AllClient(next.layers)
      && forall id :: id in st.layers ==>
           next.layers[id].buffer == st.layers[id].buffer && next.layers[id].fence == st.layers[id].fence
  {
    InvAccept(st);
    AppliedIs(st.layers, st.changes);
    forall id | id in st.layers
      ensures Step(st, AcceptChanges).layers[id].buffer == st.layers[id].buffer
              && Step(st, AcceptChanges).layers[id].fence == st.layers[id].fence
    {
      AppliedKeeps(st.layers, st.changes, id);
    }
  }

  /** Calls about no layer, with an unknown type or missing rectangles, or without a validation. */
  ghost predicate Refused(st: State, e: Event) {
    match e
    case DestroyLayer(id) => id !in st.layers
    case SetCompositionType(id, composition) => id !in st.layers || composition.Invalid?
    case SetLayerBuffer(id, _, _) => id !in st.layers
    case AcceptChanges => !st.validated
    case SetClientTarget(_, _, _, damage) => damage.None?
    case Present => !st.validated || st.changes != []
    case _ => false
  }

  /** A refused call changes nothing; the fence it was given is closed. */
  lemma RefusedChangesNothing(st: State, e: Event)
    requires Refused(st, e)
    ensures
      var given := if e.SetLayerBuffer? || e.SetClientTarget? then [e.fence] else [];
      Step(st, e) == st.(incoming := st.incoming + given, closed := st.closed + given)
  {}

  /** Buffers, client targets and frames of the past do not undo a validation. */
  predicate Harmless(e: Event) {
    e.SetLayerBuffer? || e.SetClientTarget? || e.Settle?
  }

  /** A validation that asks for nothing, or whose changes are accepted, is good for the next frame. */
  lemma {:induction false} ValidationLasts(st: State, es: seq<Event>)
    requires st.validated && st.changes == []
    requires forall k :: 0 <= k < |es| ==> Harmless(es[k])
    ensures
      var end := Exec(st, es);
      && end.validated && end.changes == [] && end.submissions == st.submissions
      && |Step(end, Present).submissions| == |st.submissions| + 1
  {
    if es != [] { ValidationLasts(st, es[..|es| - 1]); }
  }

  // The client target.

  ghost predicate SetsTarget(e: Event) {
    e.SetClientTarget? && e.damage.Some?
  }

  lemma SubmissionsGrow(st: State, e: Event)
    ensures |st.submissions| <= |Step(st, e).submissions|
  {}

  lemma TargetStays(st: State, e: Event)
    requires !SetsTarget(e) && |Step(st, e).submissions| == |st.submissions|
    ensures Step(st, e).target == st.target && Step(st, e).clientFence == st.clientFence
  {}

  lemma {:induction false} TargetKept(st: State, es: seq<Event>)
    requires forall k :: 0 <= k < |es| ==> !SetsTarget(es[k])
    ensures |Exec(st, es).submissions| >= |st.submissions|
    ensures |Exec(st, es).submissions| == |st.submissions| ==>
              Exec(st, es).target == st.target && Exec(st, es).clientFence == st.clientFence
  {
    if es != [] {
      var prefix, e := es[..|es| - 1], es[|es| - 1];
      TargetKept(st, prefix);
      SubmissionsGrow(Exec(st, prefix), e);
      if |Exec(st, es).submissions| == |st.submissions| { TargetStays(Exec(st, prefix), e); }
    }
  }

  lemma PresentTakes(st: State)
    requires |Step(st, Present).submissions| > |st.submissions|
    ensures
      var end := Step(st, Present);
      && end.submissions[|st.submissions|].target == st.target
      && end.submissions[|st.submissions|].fence == st.clientFence
      && end.inFlight == st.inFlight[st.nextSequence := st.clientFence]
      && end.target == NOTHING && end.clientFence == None
  {}

  /**
   * A frame carries the last client target set before it with the fence that
   * came with it, and no later frame carries them again: without a new target
   * the next frame is empty.
   */
  lemma FrameShowsLastTarget(st: State, set0: Event, between: seq<Event>, after: seq<Event>)
    requires SetsTarget(set0)
    requires forall k :: 0 <= k < |between| ==> !SetsTarget(between[k])
    requires forall k :: 0 <= k < |after| ==> !SetsTarget(after[k])
    ensures
      var drawn := Exec(Step(st, set0), between);
      var first := Step(drawn, Present);
      var later := Exec(first, after);
      var second := Step(later, Present);
      var n := |st.submissions|;
      && (|drawn.submissions| == n && |first.submissions| == n + 1 ==>
            && first.submissions[n].target == Target(set0.buffer, set0.dataspace, set0.damage.value)
            && first.submissions[n].fence == set0.fence)
      && (|drawn.submissions| == n && |later.submissions| == n + 1 && |second.submissions| == n + 2
          && |first.submissions| == n + 1 ==>
            second.submissions[n + 1].target == NOTHING && second.submissions[n + 1].fence == None)
  {
    var drawn := Exec(Step(st, set0), between);
    var first := Step(drawn, Present);
    var later := Exec(first, after);
    TargetKept(Step(st, set0), between);
    TargetKept(first, after);
    if |drawn.submissions| == |st.submissions| && |first.submissions| == |st.submissions| + 1 {
      PresentTakes(drawn);
      if |later.submissions| == |first.submissions| < |Step(later, Present).submissions| { PresentTakes(later); }
    }
  }

  // Fences.

  /** Fence f came in as often as it is now in a slot, in flight, returned or closed. */
  ghost predicate Conserved(st: State, f: Fence) {
    Count(st.incoming, f)
      == One(st.clientFence, f) + |Holders(Fences(st.layers), f)| + |Holders(st.inFlight, f)|
         + Count(st.returned, f) + Count(st.closed, f)
  }

  lemma FencesSet(layers: Layers, id: nat, l: LayerState)
    ensures Fences(layers[id := l]) == Fences(layers)[id := l.fence]
  {}

  lemma FencesRemove(layers: Layers, id: nat)
    ensures Fences(layers - {id}) == Fences(layers) - {id}
  {}

  lemma NoneHeld(layers: Layers, f: Fence)
    ensures Holders(Fences(Released(layers)), f) == {}
  {}

  lemma ConservedCreate(st: State, f: Fence)
    requires Inv(st) && Conserved(st, f)
    ensures Conserved(Step(st, CreateLayer), f)
  {
    FencesSet(st.layers, st.nextLayer, LayerState(Invalid, None, None));
    HoldersAdd(Fences(st.layers), st.nextLayer, None, f);
  }

  lemma ConservedDestroy(st: State, id: nat, f: Fence)
    requires Conserved(st, f) && id in st.layers
    ensures Conserved(Step(st, DestroyLayer(id)), f)
  {
    FencesRemove(st.layers, id);
    HoldersTake(Fences(st.layers), id, f);
    CountSnoc(st.closed, st.layers[id].fence, f);
  }

  lemma ConservedComposition(st: State, id: nat, composition: CompositionType, f: Fence)
    requires Conserved(st, f)
    ensures Conserved(Step(st, SetCompositionType(id, composition)), f)
  {
    if id in st.layers {
      var l := st.layers[id].(composition := composition);
      FencesSet(st.layers, id, l);
      assert Fences(st.layers)[id := l.fence] == Fences(st.layers);
    }
  }

  lemma ConservedBuffer(st: State, id: nat, handle: Option<nat>, fence: Option<Fence>, f: Fence)
    requires Conserved(st, f)
    ensures Conserved(Step(st, SetLayerBuffer(id, handle, fence)), f)
  {
    CountSnoc(st.incoming, fence, f);
    if id in st.layers {
      FencesSet(st.layers, id, st.layers[id].(buffer := handle, fence := fence));
      HoldersSet(Fences(st.layers), id, fence, f);
      CountSnoc(st.closed, st.layers[id].fence, f);
    } else {
      CountSnoc(st.closed, fence, f);
    }
  }

  lemma ConservedTarget(st: State, e: Event, f: Fence)
    requires Conserved(st, f) && e.SetClientTarget?
    ensures Conserved(Step(st, e), f)
  {
    CountSnoc(st.incoming, e.fence, f);
    CountSnoc(st.closed, if e.damage.None? then e.fence else st.clientFence, f);
  }

  lemma ConservedValidate(st: State, order: seq<nat>, f: Fence)
    requires Conserved(st, f) && Possible(st, ValidateDisplay(order))
    ensures Conserved(Step(st, ValidateDisplay(order)), f)
  {
    NoneHeld(st.layers, f);
    InOrderCounts(Fences(st.layers), order, f);
    CountConcat(st.closed, InOrder(Fences(st.layers), order), f);
  }

  lemma ConservedAccept(st: State, f: Fence)
    requires Inv(st) && Conserved(st, f)
    ensures Conserved(Step(st, AcceptChanges), f)
  {
    AppliedIs(st.layers, st.changes);
  }

  lemma ConservedPresent(st: State, f: Fence)
    requires Inv(st) && Conserved(st, f)
    ensures Conserved(Step(st, Present), f)
  {
    HoldersAdd(st.inFlight, st.nextSequence, st.clientFence, f);
  }

  lemma ConservedSettle(st: State, sequence: nat, outcome: S.Outcome, f: Fence)
    requires Conserved(st, f) && sequence in st.inFlight
    ensures Conserved(Step(st, Settle(sequence, outcome)), f)
  {
    var acquire := st.inFlight[sequence];
    HoldersTake(st.inFlight, sequence, f);
    CountSnoc(st.incoming, S.Received(outcome), f);
    CountSnoc(st.returned, S.PresentFence(acquire, outcome), f);
    CountSnoc(st.closed, S.ClosedBy(acquire, outcome), f);
    Balanced(acquire, outcome, f);
    var end := Step(st, Settle(sequence, outcome));
    assert end.layers == st.layers && end.clientFence == st.clientFence && end.inFlight == st.inFlight - {sequence};
  }

  /** An accepted frame gives back the consumer's release fence, any other its own acquire fence. */
  lemma SettlesInto(st: State, sequence: nat, o: S.Outcome)
    requires sequence in st.inFlight
    ensures
      var end := Step(st, Settle(sequence, o));
      && sequence !in end.inFlight
      && end.returned == st.returned + [if o.Taken? then o.release else st.inFlight[sequence]]
      && end.closed == st.closed + [if o.Taken? then st.inFlight[sequence] else if o.Refused? then o.release else None]
  {}

  lemma Balanced(acquire: Option<Fence>, o: S.Outcome, f: Fence)
    ensures One(acquire, f) + One(S.Received(o), f)
            == One(S.PresentFence(acquire, o), f) + One(S.ClosedBy(acquire, o), f)
  {}

  lemma ConservedStep(st: State, e: Event, f: Fence)
    requires Inv(st) && Conserved(st, f)
    ensures Conserved(Step(st, e), f)
  {
    match e
    case CreateLayer => ConservedCreate(st, f);
    case DestroyLayer(id) => if id in st.layers { ConservedDestroy(st, id, f); }
    case SetCompositionType(id, composition) => ConservedComposition(st, id, composition, f);
    case SetLayerBuffer(id, handle, fence) => ConservedBuffer(st, id, handle, fence, f);
    case ValidateDisplay(order) => if Possible(st, e) { ConservedValidate(st, order, f); }
    case AcceptChanges => ConservedAccept(st, f);
    case SetClientTarget(_, _, _, _) => ConservedTarget(st, e, f);
    case Present => ConservedPresent(st, f);
    case Settle(sequence, outcome) => if sequence in st.inFlight { ConservedSettle(st, sequence, outcome, f); }
  }

  lemma {:induction false} ConservedExec(st: State, es: seq<Event>, f: Fence)
    requires Inv(st) && Conserved(st, f)
    ensures Conserved(Exec(st, es), f)
  {
    if es != [] {
      ConservedExec(st, es[..|es| - 1], f);
      InvExec(st, es[..|es| - 1]);
      ConservedStep(Exec(st, es[..|es| - 1]), es[|es| - 1], f);
    }
  }

  /**
   * However often a fence came in, that often it is now in one of: the client
   * target's slot, a layer's slot, a frame in flight, returned, or closed.
   */
  lemma FenceConservation(es: seq<Event>, f: Fence)
    ensures
      var end := Exec(Start(), es);
      var layers := set id | id in end.layers && end.layers[id].fence == Some(f);
      var frames := set n | n in end.inFlight && end.inFlight[n] == Some(f);
      Count(end.incoming, f)
        == (if end.clientFence == Some(f) then 1 else 0) + |layers| + |frames|
           + Count(end.returned, f) + Count(end.closed, f)
  {
    var end := Exec(Start(), es);
    ConservedExec(Start(), es, f);
    assert (set id | id in end.layers && end.layers[id].fence == Some(f)) == Holders(Fences(end.layers), f);
    assert (set n | n in end.inFlight && end.inFlight[n] == Some(f)) == Holders(end.inFlight, f);
  }

  // The classes.

  datatype Error = NoError | BadLayer | BadParameter | NotValidated | HasChanges

  class Layer {
    var composition: CompositionType
    var buffer: Option<nat>
    var fence: Option<Fence>

    ghost function Current(): LayerState
      reads this
    {
      LayerState(composition, buffer, fence)
    }

    constructor ()
      ensures Current() == LayerState(Invalid, None, None)
    {
      composition, buffer, fence := Invalid, None, None;
    }

    method SetCompositionType(c: CompositionType)
      modifies this`composition
      ensures composition == c
    {
      composition := c;
    }

    /** Takes the buffer and its fence over and closes the fence they replace. */
    method SetBuffer(handle: Option<nat>, acquire: Option<Fence>) returns (closed: Option<Fence>)
      modifies this`buffer, this`fence
      ensures buffer == handle && fence == acquire && closed == old(fence)
    {
      closed := fence;
      buffer, fence := handle, acquire;
    }

    method ReleaseBuffer() returns (closed: Option<Fence>)
      modifies this`buffer, this`fence
      ensures buffer == None && fence == None && closed == old(fence)
    {
      closed := fence;
      buffer, fence := None, None;
    }
  }

  ghost predicate Separate(layers: map<nat, Layer>) {
    forall i, j :: i in layers && j in layers && i != j ==> layers[i] != layers[j]
  }

  ghost function View(layers: map<nat, Layer>): Layers
    reads layers.Values
  {
    map id | id in layers :: layers[id].Current()
  }

  class Display {
    var layers: map<nat, Layer>
    var changes: seq<Change>
    var nextLayer: nat
    var validated: bool
    var target: Target
    var clientFence: Option<Fence>
    var nextSequence: nat
    ghost var inFlight: map<nat, Option<Fence>>
    ghost var submissions: seq<Submission>
    ghost var incoming: seq<Option<Fence>>
    ghost var returned: seq<Option<Fence>>
    ghost var closed: seq<Option<Fence>>

    ghost function Current(): State
      reads this, layers.Values
    {
      State(View(layers), changes, nextLayer, validated, target, clientFence, nextSequence,
            inFlight, submissions, incoming, returned, closed)
    }

    ghost predicate Ready()
      reads this, layers.Values
    {
      Separate(layers) && Inv(Current())
    }

    constructor ()
      ensures Ready() && Current() == Start()
    {
      layers, changes, nextLayer, validated := map[], [], 1, false;
      target, clientFence, nextSequence := NOTHING, None, 1;
      inFlight, submissions := map[], [];
      incoming, returned, closed := [], [], [];
    }

    /** `wanted` is false when the caller passes no place for the result, here and below. */
    method CreateLayer(wanted: bool) returns (error: Error, id: nat)
      requires Ready()
      modifies this
      ensures error == if wanted then NoError else BadParameter
      ensures Ready() && Current() == if wanted then Step(old(Current()), Event.CreateLayer) else old(Current())
      ensures wanted ==> id !in old(layers) && id in layers && fresh(layers[id])
    {
      if !wanted { return BadParameter, 0; }
      CreateIs(Current());
      ghost var before := View(layers);
      var layer := new Layer();
      id := nextLayer;
      assert id !in before;
      nextLayer := nextLayer + 1;
      layers := layers[id := layer];
      validated := false;
      assert View(layers) == before[id := LayerState(Invalid, None, None)];
      error := NoError;
    }

    method DestroyLayer(id: nat) returns (error: Error)
      requires Ready()
      modifies this
      ensures Ready() && Current() == Step(old(Current()), Event.DestroyLayer(id))
      ensures error == if id in old(layers) then NoError else BadLayer
    {
      ghost var start := Current();
      if id !in layers { return BadLayer; }
      closed := closed + [layers[id].fence];
      layers := layers - {id};
      changes := Without(changes, id);
      validated := false;
      assert View(layers) == start.layers - {id};
      assert Current() == Step(start, Event.DestroyLayer(id));
      InvDestroy(start, id);
      return NoError;
    }

    method SetLayerCompositionType(id: nat, composition: CompositionType) returns (error: Error)
      requires Ready()
      modifies this, layers.Values
      ensures Ready() && Current() == Step(old(Current()), SetCompositionType(id, composition))
      ensures error == if composition.Invalid? then BadParameter else if id in old(layers) then NoError else BadLayer
    {
      InvStep(Current(), SetCompositionType(id, composition));
      if composition.Invalid? { return BadParameter; }
      if id !in layers { return BadLayer; }
      ghost var before := View(layers);
      layers[id].SetCompositionType(composition);
      validated := false;
      assert View(layers) == before[id := before[id].(composition := composition)];
      return NoError;
    }

    method GiveBuffer(id: nat, handle: Option<nat>, acquire: Option<Fence>)
      requires Separate(layers) && id in layers
      modifies this`closed, layers[id]
      ensures View(layers)
              == old(View(layers))[id := old(View(layers))[id].(buffer := handle, fence := acquire)]
      ensures closed == old(closed) + [old(View(layers))[id].fence]
    {
      var replaced := layers[id].SetBuffer(handle, acquire);
      closed := closed + [replaced];
    }

    method SetLayerBuffer(id: nat, handle: Option<nat>, acquire: Option<Fence>) returns (error: Error)
      requires Ready()
      modifies this, layers.Values
      ensures Ready() && Current() == Step(old(Current()), Event.SetLayerBuffer(id, handle, acquire))
      ensures error == if id in old(layers) then NoError else BadLayer
    {
      ghost var start := Current();
      if id !in layers {
        InvBuffer(start, id, handle, acquire);
        incoming, closed := incoming + [acquire], closed + [acquire];
        return BadLayer;
      }
      BufferIs(start, id, handle, acquire);
      incoming := incoming + [acquire];
      GiveBuffer(id, handle, acquire);
      return NoError;
    }

    method ApplyChanges()
      requires Separate(layers)
      modifies layers.Values
      ensures View(layers) == Applied(old(View(layers)), changes)
    {
      ghost var start := View(layers);
      for i := 0 to |changes|
        invariant View(layers) == Applied(start, changes[..i])
      {
        ghost var before := View(layers);
        var c := changes[i];
        if c.layer in layers { layers[c.layer].SetCompositionType(c.composition); }
        assert View(layers) == Changed(before, c);
        assert changes[..i + 1][..i] == changes[..i];
      }
      assert changes[..|changes|] == changes;
    }

    method AcceptDisplayChanges() returns (error: Error)
      requires Ready()
      modifies this, layers.Values
      ensures Ready() && Current() == Step(old(Current()), AcceptChanges)
      ensures error == if old(validated) then NoError else NotValidated
    {
      if !validated { return NotValidated; }
      ghost var start := Current();
      ApplyChanges();
      changes := [];
      assert Current() == start.(layers := Applied(start.layers, start.changes), changes := []);
      InvAccept(start);
      return NoError;
    }

    method SetClientTarget(buffer: Option<nat>, acquire: Option<Fence>, dataspace: int, damage: Option<seq<Rect>>)
      returns (error: Error)
      requires Ready()
      modifies this
      ensures Ready() && Current() == Step(old(Current()), Event.SetClientTarget(buffer, acquire, dataspace, damage))
      ensures error == if damage.None? then BadParameter else NoError
    {
      TargetIs(Current(), buffer, acquire, dataspace, damage);
      incoming := incoming + [acquire];
      if damage.None? {
        closed := closed + [acquire];
        error := BadParameter;
      } else {
        closed := closed + [clientFence];
        target := Target(buffer, dataspace, damage.value);
        clientFence := acquire;
        error := NoError;
      }
    }

    /** The part of a validation done once `done` layers are visited. */
    ghost predicate Visited(start: Layers, done: seq<nat>, fences: seq<Option<Fence>>)
      reads this, layers.Values
    {
      && layers.Keys == start.Keys && Distinct(done)
      && (forall i :: i in done ==> i in start)
      && changes == ChangesIn(start, done)
      && fences == InOrder(Fences(start), done)
      && (forall id :: id in layers ==>
            layers[id].Current() == if id in done then start[id].(buffer := None, fence := None) else start[id])
    }

    method Visit(id: nat, ghost start: Layers, ghost done: seq<nat>, ghost fences: seq<Option<Fence>>)
      returns (ghost more: seq<Option<Fence>>)
      requires Separate(layers) && id in layers && id !in done && Visited(start, done, fences)
      modifies this`changes, layers[id]
      ensures Visited(start, done + [id], more)
      ensures more == fences + [start[id].fence]
    {
      var held := layers[id].ReleaseBuffer();
      more := fences + [held];
      if !layers[id].composition.Client? { changes := changes + [Change(id, Client)]; }
      assert (done + [id])[..|done|] == done;
    }

    lemma AllVisited(start: Layers, order: seq<nat>, fences: seq<Option<Fence>>)
      requires Visited(start, order, fences) && forall id :: id in order <==> id in layers
      ensures View(layers) == Released(start)
    {}

    /** Visits the layers in an order of its own. */
    method VisitLayers() returns (ghost order: seq<nat>, ghost fences: seq<Option<Fence>>)
      requires Separate(layers)
      modifies this`changes, layers.Values
      ensures Distinct(order) && forall id :: id in order <==> id in layers
      ensures View(layers) == Released(old(View(layers)))
      ensures changes == ChangesIn(old(View(layers)), order) && fences == InOrder(Fences(old(View(layers))), order)
    {
      ghost var start := View(layers);
      order, fences, changes := [], [], [];
      var rest := layers.Keys;
      while rest != {}
        invariant forall id :: id in layers <==> id in rest || id in order
        invariant forall id :: id in rest ==> id !in order
        invariant Visited(start, order, fences)
        decreases rest
      {
        var id :| id in rest;
        rest := rest - {id};
        fences := Visit(id, start, order, fences);
        order := order + [id];
      }
      AllVisited(start, order, fences);
    }

    method FinishValidation(ghost fences: seq<Option<Fence>>)
      modifies this`validated, this`closed
      ensures Current() == old(Current()).(validated := true, closed := old(closed) + fences)
    {
      validated := true;
      closed := closed + fences;
    }

    lemma Validation(start: State, order: seq<nat>)
      requires Inv(start) && Possible(start, Event.ValidateDisplay(order))
      ensures
        var end := start.(layers := Released(start.layers), changes := ChangesIn(start.layers, order),
                          validated := true, closed := start.closed + InOrder(Fences(start.layers), order));
        end == Step(start, Event.ValidateDisplay(order)) && Inv(end)
    {
      InvValidate(start, order);
    }

    method ValidateDisplay(wanted: bool) returns (error: Error, types: nat, ghost order: seq<nat>)
      requires Ready()
      modifies this, layers.Values
      ensures Ready()
      ensures !wanted ==> error.BadParameter? && Current() == old(Current())
      ensures wanted ==>
                && Possible(old(Current()), Event.ValidateDisplay(order))
                && Current() == Step(old(Current()), Event.ValidateDisplay(order))
                && types == |changes| && error == if changes == [] then NoError else HasChanges
    {
      if !wanted { return BadParameter, 0, []; }
      ghost var start := Current();
      ghost var fences;
      order, fences := VisitLayers();
      FinishValidation(fences);
      Validation(start, order);
      types := |changes|;
      error := if changes == [] then NoError else HasChanges;
    }

    /** The region of PresentDisplay under the mutex: the frame to hand to the sink, or an error. */
    method TakeFrameSubmission() returns (error: Error, sequence: nat, fence: Option<Fence>)
      requires Ready()
      modifies this
      ensures Ready() && Current() == Step(old(Current()), Present)
      ensures error == if old(validated) && old(changes) == [] then NoError else NotValidated
      ensures error.NoError? ==>
                && sequence == old(nextSequence) && sequence in inFlight
                && fence == old(clientFence) == inFlight[sequence]
    {
      ghost var start := Current();
      if !validated || changes != [] { return NotValidated, 0, None; }
      sequence, fence := nextSequence, clientFence;
      submissions := submissions + [Submission(sequence, target, fence, AllClient(View(layers)))];
      inFlight := inFlight[sequence := fence];
      nextSequence := nextSequence + 1;
      target, clientFence, validated := NOTHING, None, false;
      error := NoError;
      assert Current() == Step(start, Present);
    }

    /** The caller of PresentDisplay has the frame's outcome. */
    ghost method Record(sequence: nat, outcome: S.Outcome, present: Option<Fence>, done: Option<Fence>)
      requires Ready() && sequence in inFlight
      requires present == S.PresentFence(inFlight[sequence], outcome)
      requires done == S.ClosedBy(inFlight[sequence], outcome)
      modifies this`inFlight, this`incoming, this`returned, this`closed
      ensures Ready() && Current() == Step(old(Current()), Settle(sequence, outcome))
    {
      SettleIs(Current(), sequence, outcome);
      inFlight := inFlight - {sequence};
      incoming := incoming + [S.Received(outcome)];
      returned := returned + [present];
      closed := closed + [done];
    }

    /** A present that no other call interrupts. */
    method PresentDisplay(sink: S.StreamFrameSink, a: S.Answers, wanted: bool)
      returns (error: Error, present: Option<Fence>)
      requires Ready()
      modifies this, sink
      ensures Ready()
      ensures error == if !wanted then BadParameter
                       else if old(validated) && old(changes) == [] then NoError else NotValidated
      ensures error.NoError? ==>
                var outcome := S.OutcomeOf(old(sink.sink), old(clientFence), a);
                && present == S.PresentFence(old(clientFence), outcome)
                && Current() == Step(Step(old(Current()), Present), Settle(old(nextSequence), outcome))
      ensures !error.NoError? ==> present == None && Current() == old(Current()) && sink.sink == old(sink.sink)
    {
      if !wanted { return BadParameter, None; }
      var sequence, acquire;
      error, sequence, acquire := TakeFrameSubmission();
      if !error.NoError? { return error, None; }
      ghost var outcome := S.OutcomeOf(sink.sink, acquire, a);
      var done;
      present, done := sink.Submit(acquire, a);
      Record(sequence, outcome, present, done);
    }
  }
}
