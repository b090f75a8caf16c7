/** The layer stack (keymap.c lines 163-197): layer keys push their layer
    while held, and the active layer is the most recently pressed one still
    held, whatever the order of releases. */
module LayerStack {
  import opened Types
  import opened Keycodes
  import opened Engine
  import Lists

  /** The scroll-lock tap that keeps the host LED in step with layer _EXT:
      entering it taps KC_SCRL if scroll lock is off, leaving it taps
      KC_SCRL if scroll lock is on. */
  function ScrollLockTaps(layer: uint8, pressed: bool, scrollLock: bool): seq<Action> {
    if layer == LAYER_EXT && (if pressed then !scrollLock else scrollLock)
    then [TapCode(KC_SCRL)]
    else []
  }

  /** A stack the arrays can hold: at most six entries, each a layer. */
  predicate StackOk(t: seq<uint8>) {
    |t| <= LAYER_STACK_SIZE && forall i :: 0 <= i < |t| ==> t[i] <= MAX_LAYER
  }

  /** The stack after a layer key: a release takes out the first entry of
      the layer, a press appends it while there is room. */
  function NewStack(t: seq<uint8>, layer: uint8, pressed: bool): (r: seq<uint8>)
    requires StackOk(t) && layer <= MAX_LAYER
    ensures StackOk(r)
    ensures !pressed ==> r == Lists.RemoveFirst(t, layer)
    ensures pressed && |t| < LAYER_STACK_SIZE ==> r == t + [layer]
    ensures pressed && |t| == LAYER_STACK_SIZE ==> r == t
  {
    if !pressed then
      var r := Lists.RemoveFirst(t, layer);
      forall i | 0 <= i < |r| ensures r[i] <= MAX_LAYER {
        Lists.RemoveFirstSubset(t, layer, r[i]);
      }
      r
    else if |t| < LAYER_STACK_SIZE then t + [layer]
    else t
  }

  /** The layer-key branch of process_record_user. A press pushes the layer
      if there is room and makes it active; a release takes out the first
      entry of the layer and activates the new top, or layer 0. */
  function LayerKey(s: State, layer: uint8, pressed: bool, scrollLock: bool): (r: Step)
    requires StackOk(s.layerStack) && layer <= MAX_LAYER
    ensures StackOk(r.state.layerStack) && r.state.activeLayer <= MAX_LAYER
    // Only the stack and the active layer change.
    ensures r.state == s.(layerStack := r.state.layerStack, activeLayer := r.state.activeLayer)
    // The last call moves QMK to the new active layer.
    ensures |r.actions| > 0 && r.actions[|r.actions| - 1] == LayerMove(r.state.activeLayer)
  {
    var stack := NewStack(s.layerStack, layer, pressed);
    var active := if pressed then layer else Lists.LastOr(stack, 0);
    Step(s.(layerStack := stack, activeLayer := active),
         ScrollLockTaps(layer, pressed, scrollLock) + [LayerMove(active)])
  }

  /** Layer keys keep the keymap's invariant. */
  lemma LayerKeyValid(s: State, layer: uint8, pressed: bool, scrollLock: bool)
    requires Valid(s) && layer <= MAX_LAYER
    ensures StackOk(s.layerStack)
    ensures Valid(LayerKey(s, layer, pressed, scrollLock).state)
  {
  }

  /** A press appends only while fewer than six layers are held; the pressed
      layer becomes active even when the push is dropped. */
  lemma LayerPress(s: State, layer: uint8, scrollLock: bool)
    requires StackOk(s.layerStack) && layer <= MAX_LAYER
    ensures var r := LayerKey(s, layer, true, scrollLock);
      && r.state.activeLayer == layer
      && (|s.layerStack| < LAYER_STACK_SIZE ==> r.state.layerStack == s.layerStack + [layer])
      && (|s.layerStack| == LAYER_STACK_SIZE ==> r.state.layerStack == s.layerStack)
  {
  }

  /** A press on a full stack leaves the active layer off the top of the
      stack until the next release. */
  lemma FullStackPressNotOnTop(s: State, layer: uint8, scrollLock: bool)
    requires StackOk(s.layerStack) && layer <= MAX_LAYER
    requires |s.layerStack| == LAYER_STACK_SIZE && s.layerStack[LAYER_STACK_SIZE - 1] != layer
    ensures var r := LayerKey(s, layer, true, scrollLock);
      r.state.activeLayer != Lists.LastOr(r.state.layerStack, 0)
  {
  }

  /** A release takes out only the first entry of the layer, keeps the rest
      in order, and activates the new top of the stack, or layer 0. */
  lemma LayerRelease(s: State, layer: uint8, scrollLock: bool)
    requires StackOk(s.layerStack) && layer <= MAX_LAYER
    ensures var r := LayerKey(s, layer, false, scrollLock);
      && (layer in s.layerStack ==>
            var i := Lists.FirstIndex(s.layerStack, layer);
            r.state.layerStack == s.layerStack[..i] + s.layerStack[i + 1..])
      && (layer !in s.layerStack ==> r.state.layerStack == s.layerStack)
      && r.state.activeLayer == Lists.LastOr(r.state.layerStack, 0)
  {
    if layer in s.layerStack {
      Lists.RemoveFirstSplit(s.layerStack, layer);
    }
  }

  /** How often the calls tap KC_SCRL. */
  function ScrollLockTapCount(acts: seq<Action>): nat {
    if acts == [] then 0
    else (if acts[0] == TapCode(KC_SCRL) then 1 else 0) + ScrollLockTapCount(acts[1..])
  }

  /** The host's scroll lock after the calls, each tap toggling it. */
  function ScrollLockAfter(scrollLock: bool, acts: seq<Action>): bool {
    if ScrollLockTapCount(acts) % 2 == 0 then scrollLock else !scrollLock
  }

  /** Layer _EXT keeps scroll lock on exactly while it is held, and never
      taps twice; other layers leave scroll lock alone. */
  lemma ScrollLockFollowsExt(s: State, layer: uint8, pressed: bool, scrollLock: bool)
    requires StackOk(s.layerStack) && layer <= MAX_LAYER
    ensures var acts := LayerKey(s, layer, pressed, scrollLock).actions;
      && ScrollLockTapCount(acts) <= 1
      && (layer == LAYER_EXT ==> ScrollLockAfter(scrollLock, acts) == pressed)
      && (layer != LAYER_EXT ==> ScrollLockAfter(scrollLock, acts) == scrollLock)
  {
    var r := LayerKey(s, layer, pressed, scrollLock);
    var move := LayerMove(r.state.activeLayer);
    if ScrollLockTaps(layer, pressed, scrollLock) == [] {
      assert r.actions == [move];
      assert ScrollLockTapCount(r.actions[1..]) == 0;
    } else {
      assert r.actions == [TapCode(KC_SCRL), move];
      assert r.actions[1..] == [move];
      assert ScrollLockTapCount(r.actions[1..][1..]) == 0;
    }
  }

  /** Releasing the top layer when it has no other entry pops it. */
  lemma {:induction false} ReleaseTop(t: seq<uint8>, x: uint8)
    requires x !in t
    ensures Lists.RemoveFirst(t + [x], x) == t
  {
    Lists.RemoveFirstAfterPrefix(t, [x], x);
    assert [x][1..] == [];
    assert t + [] == t;
  }

  /** Releasing the lower of two fresh top layers leaves the upper one. */
  lemma {:induction false} ReleaseUnder(t: seq<uint8>, a: uint8, b: uint8)
    requires a !in t
    ensures Lists.RemoveFirst(t + [a, b], a) == t + [b]
  {
    Lists.RemoveFirstAfterPrefix(t, [a, b], a);
    assert [a, b][1..] == [b];
  }

  /** Pushing two fresh layers and releasing them in either order gives
      back the stack, with the one released second on top in between. */
  lemma StackReleaseOrder(t: seq<uint8>, a: uint8, b: uint8, first: uint8)
    requires StackOk(t) && a <= MAX_LAYER && b <= MAX_LAYER && a != b
    requires a !in t && b !in t && |t| + 2 <= LAYER_STACK_SIZE
    requires first == a || first == b
    ensures var other := if first == a then b else a;
      var t2 := NewStack(NewStack(t, a, true), b, true);
      && t2 == t + [a, b]
      && NewStack(t2, first, false) == t + [other]
      && NewStack(t + [other], other, false) == t
  {
    var other := if first == a then b else a;
    var t1 := NewStack(t, a, true);
    assert t1 == t + [a];
    var t2 := NewStack(t1, b, true);
    assert t2 == t + [a, b];
    if first == a {
      ReleaseUnder(t, a, b);
    } else {
      assert t + [a, b] == (t + [a]) + [b];
      assert b !in t + [a];
      ReleaseTop(t + [a], b);
    }
    assert StackOk(t + [other]);
    ReleaseTop(t, other);
  }

  /** Holding two layer keys: the later one is active while both are held,
      releasing either one restores the other, and releasing both restores
      the original stack and activates its top, or layer 0 when it is empty,
      whichever is released first. That need not be the layer that was
      active before: after a press on a full stack the two differ. */
  lemma ReleaseOrderIndependent(s: State, a: uint8, b: uint8, firstRelease: uint8, lock: bool)
    requires StackOk(s.layerStack) && a <= MAX_LAYER && b <= MAX_LAYER && a != b
    requires a !in s.layerStack && b !in s.layerStack && |s.layerStack| + 2 <= LAYER_STACK_SIZE
    requires firstRelease == a || firstRelease == b
    ensures
      var other := if firstRelease == a then b else a;
      var s1 := LayerKey(s, a, true, lock).state;
      var s2 := LayerKey(s1, b, true, lock).state;
      var s3 := LayerKey(s2, firstRelease, false, lock).state;
      var s4 := LayerKey(s3, other, false, lock).state;
      && s2.activeLayer == b
      && s3.activeLayer == other
      && s4.activeLayer == Lists.LastOr(s.layerStack, 0)
      && s4.layerStack == s.layerStack
  {
    StackReleaseOrder(s.layerStack, a, b, firstRelease);
  }

  /** The two-key example: holding EX_MO(2) then EX_MO(3) and releasing them
      in the same order makes layers 2, 3, 3 and then 0 active. */
  lemma TwoLayerKeysExample(s: State, lock: bool)
    requires s.layerStack == []
    ensures
      var s1 := LayerKey(s, 2, true, lock).state;
      var s2 := LayerKey(s1, 3, true, lock).state;
      var s3 := LayerKey(s2, 2, false, lock).state;
      var s4 := LayerKey(s3, 3, false, lock).state;
      [s1.activeLayer, s2.activeLayer, s3.activeLayer, s4.activeLayer] == [2, 3, 3, 0]
  {
    ReleaseOrderIndependent(s, 2, 3, 2, lock);
  }
}
