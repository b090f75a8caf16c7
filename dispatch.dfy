/** process_record_user (keymap.c lines 155-310) and housekeeping_task_user
    (lines 422-443) put together from the parts: the layer keys, the
    one-shot keys, CLR_OSM, and the plain keys, which may be magic macros
    and are otherwise recorded while a modifier is latched. The QMK state
    they read (the host's scroll lock, the repeat-key count, the current
    modifiers, the timer) comes in as parameters. */
module Dispatch {
  import opened Types
  import opened Masks
  import opened Keycodes
  import opened Engine
  import LayerStack
  import OneShot
  import Reports
  import AltRepeat
  import Lists

  /** The vowels after which the Alternate Repeat key leaves N to repeat. */
  predicate IsRepeatVowel(keycode: int) {
    keycode == KC_A || keycode == KC_E || keycode == KC_I
    || keycode == KC_O || keycode == KC_U || keycode == KC_Y
  }

  /** After an alternate repeat (a negative repeat count) of a vowel, with
      no modifier but Shift, the last key becomes KC_N without modifiers. */
  function RepeatFixup(keycode: uint16, repeatCount: int, mods: bv8): seq<Action> {
    if repeatCount < 0 && AltRepeat.ShiftOnly(mods) && IsRepeatVowel(keycode)
    then [SetLastKeycode(KC_N), SetLastMods(0)]
    else []
  }

  /** The "D * @ -> DYN" pattern: when the magic key types a letter after
      A, D, E or O, the fix-up of that alternate-repeated letter makes N the
      key the Repeat key types next. */
  lemma MagicThenRepeatTypesN(keycode: uint16, lastMods: bv8, mods: bv8)
    requires keycode == KC_A || keycode == KC_D || keycode == KC_E || keycode == KC_O
    requires AltRepeat.ShiftOnly(lastMods) && AltRepeat.ShiftOnly(mods)
    ensures RepeatFixup(AltRepeat.AltRepeatKeycode(keycode, lastMods), -1, mods)
            == [SetLastKeycode(KC_N), SetLastMods(0)]
  {
  }

  /** The macros of the magic key, which type a string when pressed. */
  predicate IsMagicMacro(keycode: int) {
    keycode == M_THE || keycode == M_ION || keycode == M_MENT || keycode == M_QUEN
    || keycode == M_TMENT || keycode == M_UPDIR || keycode == M_INCLUDE || keycode == M_EQEQ
    || keycode == M_NBSP || keycode == M_DOCSTR || keycode == M_MKGRVS || keycode == UPDIR
  }

  /** The `magic` flag: a press of a macro, or a press of Space while the
      Repeat key is repeating it. */
  predicate IsMagic(keycode: uint16, pressed: bool, repeatCount: int) {
    pressed && (IsMagicMacro(keycode) || (keycode == KC_SPC && repeatCount > 0))
  }

  /** What a magic press calls: the macro's string, or one-shot Shift. */
  function MagicActions(keycode: uint16): seq<Action> {
    if keycode == KC_SPC then [AddOneshotMods(MOD_LSFT), RegisterMods(MOD_LSFT)]
    else [SendMacro(keycode)]
  }

  /** A plain key: the repeat fix-up, then the magic action or the
      pending-key list. */
  function PlainKey(s: State, keycode: uint16, pressed: bool, repeatCount: int, mods: bv8): (r: Step)
    requires |s.osmKeys| <= EX_NUM_OSM_KEYS
  {
    var fix := RepeatFixup(keycode, repeatCount, mods);
    if IsMagic(keycode, pressed, repeatCount) then Step(s, fix + MagicActions(keycode))
    else
      var t := OneShot.TrackPending(s, keycode, pressed);
      Step(t.state, fix + t.actions)
  }

  /** The layer a layer key names. */
  function LayerOf(keycode: uint16): (layer: uint8)
    requires IsLayerKey(keycode)
    ensures layer <= MAX_LAYER && ExMo(layer) == keycode
  {
    (keycode - EX_LAYER) as uint8
  }

  /** The new globals, the calls made, and the value returned to QMK. */
  datatype Processed = Processed(step: Step, ret: bool)

  /** process_record_user. */
  function ProcessRecord(s: State, keycode: uint16, pressed: bool, now: uint32,
                         scrollLock: bool, repeatCount: int, mods: bv8): (p: Processed)
    requires Valid(s)
  {
    if IsLayerKey(keycode) then
      Processed(LayerStack.LayerKey(s, LayerOf(keycode), pressed, scrollLock), false)
    else if IsOneShotKey(keycode) then
      Processed(OneShot.OneShotKey(s, keycode - EX_ONE_SHOT_MOD, pressed, now), false)
    else if keycode == CLR_OSM then
      Processed(OneShot.ClearOsmKey(s, pressed), false)
    else
      Processed(PlainKey(s, keycode, pressed, repeatCount, mods), true)
  }

  /** housekeeping_task_user: the one-shot expiry, then the heartbeat. */
  function Housekeeping(s: State, now: uint32): (r: Step)
    requires |s.lastModTime| == EX_NUM_MODS
  {
    var e := OneShot.ExpireOneShot(s, now);
    var h := Reports.HeartbeatTimeout(e.state, now);
    Step(h.state, e.actions + h.actions)
  }

  // ---------------------------------------------------------------------
  // Properties.

  /** The keymap consumes its own keycodes and passes every other key on
      to QMK, the magic macros included. */
  lemma ProcessRecordReturns(s: State, keycode: uint16, pressed: bool, now: uint32,
                             scrollLock: bool, repeatCount: int, mods: bv8)
    requires Valid(s)
    ensures ProcessRecord(s, keycode, pressed, now, scrollLock, repeatCount, mods).ret
        <==> !IsEngineKey(keycode)
  {
  }

  lemma PlainKeyValid(s: State, keycode: uint16, pressed: bool, repeatCount: int, mods: bv8)
    requires Valid(s) && !IsEngineKey(keycode)
    ensures Valid(PlainKey(s, keycode, pressed, repeatCount, mods).state)
  {
    if !IsMagic(keycode, pressed, repeatCount) {
      OneShot.TrackPendingValid(s, keycode, pressed);
    }
  }

  /** Every key keeps the invariant. */
  lemma ProcessRecordValid(s: State, keycode: uint16, pressed: bool, now: uint32,
                           scrollLock: bool, repeatCount: int, mods: bv8)
    requires Valid(s)
    ensures Valid(ProcessRecord(s, keycode, pressed, now, scrollLock, repeatCount, mods).step.state)
  {
    if IsLayerKey(keycode) {
      LayerStack.LayerKeyValid(s, LayerOf(keycode), pressed, scrollLock);
    } else if IsOneShotKey(keycode) {
      OneShot.OneShotKeyValid(s, keycode - EX_ONE_SHOT_MOD, pressed, now);
    } else if keycode == CLR_OSM {
      OneShot.ClearOsmKeyValid(s, pressed);
    } else {
      PlainKeyValid(s, keycode, pressed, repeatCount, mods);
    }
  }

  lemma RepeatFixupNeutral(keycode: uint16, repeatCount: int, mods: bv8)
    ensures var fix := RepeatFixup(keycode, repeatCount, mods);
      forall i :: 0 <= i < |fix| ==> ModNeutral(fix[i])
  {
  }

  lemma MagicNeutral(keycode: uint16, fix: seq<Action>)
    requires forall i :: 0 <= i < |fix| ==> ModNeutral(fix[i])
    ensures var acts := fix + MagicActions(keycode);
      forall i :: 0 <= i < |acts| ==> ModNeutral(acts[i])
  {
  }

  lemma PlainKeyTracked(s: State, keycode: uint16, pressed: bool, repeatCount: int, mods: bv8)
    requires |s.osmKeys| <= EX_NUM_OSM_KEYS
    ensures KeepsModifiersTracked(s, PlainKey(s, keycode, pressed, repeatCount, mods))
  {
    var fix := RepeatFixup(keycode, repeatCount, mods);
    RepeatFixupNeutral(keycode, repeatCount, mods);
    if IsMagic(keycode, pressed, repeatCount) {
      MagicNeutral(keycode, fix);
      NeutralStepTracked(s, Step(s, fix + MagicActions(keycode)));
    } else {
      OneShot.TrackPendingTracked(s, keycode, pressed);
      NeutralPrefixTracked(s, fix, OneShot.TrackPending(s, keycode, pressed));
    }
  }

  lemma LayerKeyTracked(s: State, layer: uint8, pressed: bool, scrollLock: bool)
    requires LayerStack.StackOk(s.layerStack) && layer <= MAX_LAYER
    ensures KeepsModifiersTracked(s, LayerStack.LayerKey(s, layer, pressed, scrollLock))
  {
    NeutralStepTracked(s, LayerStack.LayerKey(s, layer, pressed, scrollLock));
  }

  /** No key ever leaves a modifier registered with QMK that is neither
      held nor latched, or drops one that still is. */
  lemma ProcessRecordTracked(s: State, keycode: uint16, pressed: bool, now: uint32,
                             scrollLock: bool, repeatCount: int, mods: bv8)
    requires Valid(s)
    ensures KeepsModifiersTracked(s, ProcessRecord(s, keycode, pressed, now, scrollLock, repeatCount, mods).step)
  {
    if IsLayerKey(keycode) {
      LayerBranchTracked(s, keycode, pressed, now, scrollLock, repeatCount, mods);
    } else if IsOneShotKey(keycode) {
      OneShotBranchTracked(s, keycode, pressed, now, scrollLock, repeatCount, mods);
    } else if keycode == CLR_OSM {
      OneShot.ClearOsmKeyTracked(s, pressed);
    } else {
      PlainKeyTracked(s, keycode, pressed, repeatCount, mods);
    }
  }

  lemma LayerBranchTracked(s: State, keycode: uint16, pressed: bool, now: uint32,
                           scrollLock: bool, repeatCount: int, mods: bv8)
    requires Valid(s) && IsLayerKey(keycode)
    ensures KeepsModifiersTracked(s, ProcessRecord(s, keycode, pressed, now, scrollLock, repeatCount, mods).step)
  {
    LayerKeyTracked(s, LayerOf(keycode), pressed, scrollLock);
  }

  lemma OneShotBranchTracked(s: State, keycode: uint16, pressed: bool, now: uint32,
                             scrollLock: bool, repeatCount: int, mods: bv8)
    requires Valid(s) && IsOneShotKey(keycode)
    ensures KeepsModifiersTracked(s, ProcessRecord(s, keycode, pressed, now, scrollLock, repeatCount, mods).step)
  {
    OneShot.OneShotKeyTracked(s, keycode - EX_ONE_SHOT_MOD, pressed, now);
  }

  /** A magic press types its macro and changes no global: it is not
      recorded as pending. Its release is not magic and goes to the
      pending-key list like any plain key. */
  lemma MagicPressNotRecorded(s: State, keycode: uint16, repeatCount: int, mods: bv8)
    requires |s.osmKeys| <= EX_NUM_OSM_KEYS && IsMagic(keycode, true, repeatCount)
    ensures var r := PlainKey(s, keycode, true, repeatCount, mods);
      r.state == s && r.actions == RepeatFixup(keycode, repeatCount, mods) + MagicActions(keycode)
    ensures PlainKey(s, keycode, false, repeatCount, mods).state
         == OneShot.TrackPending(s, keycode, false).state
  {
  }

  /** The fix-up fires exactly for an alternate repeat of a vowel with
      nothing but Shift held, and then the Repeat key types N. */
  lemma RepeatFixupExactly(keycode: uint16, repeatCount: int, mods: bv8)
    ensures RepeatFixup(keycode, repeatCount, mods) != []
        <==> repeatCount < 0 && AltRepeat.ShiftOnly(mods) && IsRepeatVowel(keycode)
    ensures RepeatFixup(keycode, repeatCount, mods) != [] ==>
        SetLastKeycode(KC_N) in RepeatFixup(keycode, repeatCount, mods)
  {
  }

  /** Housekeeping keeps the invariant and the modifiers tracked. */
  lemma HousekeepingValid(s: State, now: uint32)
    requires Valid(s)
    ensures Valid(Housekeeping(s, now).state)
  {
    OneShot.ExpireOneShotValid(s, now);
    Reports.HeartbeatTimeoutValid(OneShot.ExpireOneShot(s, now).state, now);
  }

  lemma HousekeepingTracked(s: State, now: uint32)
    requires |s.lastModTime| == EX_NUM_MODS
    ensures KeepsModifiersTracked(s, Housekeeping(s, now))
  {
    var e := OneShot.ExpireOneShot(s, now);
    OneShot.ExpireOneShotTracked(s, now);
    var r := Housekeeping(s, now);
    assert r.actions == e.actions + [] == e.actions;
    assert r.state.modBits == e.state.modBits && r.state.osmBits == e.state.osmBits;
    SameMasksTracked(s, e, r);
  }

  lemma SameMasksTracked(s: State, r: Step, r2: Step)
    requires KeepsModifiersTracked(s, r)
    requires r2.actions == r.actions
    requires r2.state.modBits == r.state.modBits && r2.state.osmBits == r.state.osmBits
    ensures KeepsModifiersTracked(s, r2)
  {
  }

  /** After housekeeping the channel is armed exactly when it was and the
      last heartbeat is at most 1500 ms old; the expiry leaves the flags
      and the heartbeat alone. */
  lemma HousekeepingDisarms(s: State, now: uint32)
    requires |s.lastModTime| == EX_NUM_MODS
    ensures var r := Housekeeping(s, now);
      && r.state.sendRaw == (s.sendRaw && Elapsed32(now, s.lastHeartbeat) <= Reports.HEARTBEAT_TIMEOUT_MS)
      && r.state.suppressReal == (s.suppressReal && Elapsed32(now, s.lastHeartbeat) <= Reports.HEARTBEAT_TIMEOUT_MS)
  {
    if s.osmBits != 0 && s.osmKeys == [] {
      OneShot.ExpireOneShotActive(s, now);
    }
  }

  /** The one-shot pattern end to end: tap a one-shot Shift, then type a
      key. The press registers Shift, the release keeps it latched, the
      key is recorded, and its release unregisters Shift and drops the
      latch. */
  lemma OneShotShiftScenario(s: State, key: uint16, now: uint32, lock: bool, mods: bv8)
    requires Valid(s) && s.osmBits == 0 && s.modBits == 0 && s.osmKeys == []
    requires !IsEngineKey(key) && !IsMagicMacro(key) && key != KC_SPC
    ensures
      var osm := ExOsm(KC_LSFT);
      var p1 := ProcessRecord(s, osm, true, now, lock, 0, mods).step;
      var p2 := ProcessRecord(p1.state, osm, false, now, lock, 0, mods).step;
      var p3 := ProcessRecord(p2.state, key, true, now, lock, 0, mods).step;
      var p4 := ProcessRecord(p3.state, key, false, now, lock, 0, mods).step;
      && p1.actions == [RegisterCode(KC_LSFT)]
      && p2.actions == [] && p2.state.osmBits == 0x02
      && p3.state.osmKeys == [key]
      && p4.actions == [UnregisterCode(KC_LSFT)]
      && p4.state.osmBits == 0 && p4.state.modBits == 0 && p4.state.osmKeys == []
  {
    var osm := ExOsm(KC_LSFT);
    var p1 := ProcessRecord(s, osm, true, now, lock, 0, mods).step;
    assert p1.state.osmBits == 0x02 && p1.state.modBits == 0x02;
    ProcessRecordValid(s, osm, true, now, lock, 0, mods);
    var p2 := ProcessRecord(p1.state, osm, false, now, lock, 0, mods).step;
    assert p2.state.osmBits == 0x02 && p2.state.modBits == 0;
    ProcessRecordValid(p1.state, osm, false, now, lock, 0, mods);
    var p3 := ProcessRecord(p2.state, key, true, now, lock, 0, mods).step;
    ProcessRecordValid(p2.state, key, true, now, lock, 0, mods);
    assert p3.state.osmKeys == [key];
    var p4 := ProcessRecord(p3.state, key, false, now, lock, 0, mods).step;
    assert Lists.RemoveFirst([key], key) == [];
  }
}
