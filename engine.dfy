/** The state the keymap keeps in its file-scope globals (keymap.c lines
    106-123), the effects it has on the rest of the firmware, and the
    invariant every operation keeps. The operations themselves are in the
    modules LayerStack, OneShot, Reports and Dispatch, and the class in
    module Keymap holds the same state in place. */
module Engine {
  import opened Types
  import opened Masks
  import opened Keycodes

  const LAYER_STACK_SIZE := 6
  const EX_NUM_OSM_KEYS := 32
  const KEYBOARD_REPORT_KEYS := 6
  const NKRO_REPORT_BITS := 30
  const RAW_EPSIZE := 32
  const REPORT_ID_NKRO: bv8 := 6
  // The Cantor's matrix: 8 rows (4 per half) of 6 columns, one byte per row.
  const MATRIX_ROWS := 8
  const MATRIX_COLS := 6
  const MATRIX_BYTES := MATRIX_ROWS
  /** First byte of the diagnostic packet after the matrix snapshot. */
  const PACKET_TAIL := 4 + MATRIX_BYTES

  /** The build-time checks of send_raw_hid_report (keymap.c lines 380-386):
      the shadow report fills one raw packet exactly, the matrix fits after
      the four header bytes, and the diagnostic marker 1 keeps away from the
      NKRO report id. */
  lemma StaticAsserts()
    ensures 2 + NKRO_REPORT_BITS == RAW_EPSIZE
    ensures MATRIX_BYTES <= RAW_EPSIZE - 4
    ensures MATRIX_ROWS <= 0xFF && MATRIX_COLS <= 0xFF && MATRIX_COLS <= 8
    ensures REPORT_ID_NKRO == 6 && REPORT_ID_NKRO != 1
  {
  }

  /** A 6-key keyboard report (report_keyboard_t): modifiers and keys. */
  datatype KeyboardReport = KeyboardReport(mods: bv8, keys: seq<uint8>)
  /** An N-key-rollover report (report_nkro_t): one bit per keycode. */
  datatype NkroReport = NkroReport(reportId: bv8, mods: bv8, bits: seq<bv8>)
  /** A system or consumer report (report_extra_t). */
  datatype ExtraReport = ExtraReport(reportId: bv8, usage: uint16)

  /** The calls the keymap makes into the rest of the firmware. */
  datatype Action =
    | RegisterCode(code: uint8)          // register_code
    | UnregisterCode(code: uint8)        // unregister_code
    | TapCode(code: uint8)               // tap_code
    | LayerMove(layer: uint8)            // layer_move
    | SetLastKeycode(keycode: uint16)    // set_last_keycode
    | SetLastMods(mods: bv8)             // set_last_mods
    | SendMacro(keycode: uint16)         // the string a magic macro types
    | AddOneshotMods(mods: bv8)          // add_oneshot_mods
    | RegisterMods(mods: bv8)            // register_mods
    | ForwardKeyboard(keyboard: KeyboardReport)  // the real send_keyboard
    | ForwardNkro(nkro: NkroReport)              // the real send_nkro
    | ForwardExtra(extra: ExtraReport)           // the real send_extra
    | RawHidSend(packet: seq<bv8>)       // raw_hid_send of RAW_EPSIZE bytes

  /** The globals. `layerStack` and `osmKeys` are the used prefixes of
      layer_stack and ex_osm_keys; `shadow` is nkro_report_user and
      `rawReport` is raw_hid_report. */
  datatype State = State(
    layerStack: seq<uint8>,
    activeLayer: uint8,
    osmBits: bv8,
    modBits: bv8,
    lastModTime: seq<uint32>,
    osmKeys: seq<uint16>,
    lastHeartbeat: uint32,
    suppressReal: bool,
    sendRaw: bool,
    shadow: NkroReport,
    rawReport: seq<bv8>)

  /** The new globals and the calls made on the way, in order. */
  datatype Step = Step(state: State, actions: seq<Action>)

  /** The invariant: the arrays keep their sizes and bounds, the stack holds
      only layer ids a layer key can name, the pending list holds only plain
      keys and is non-empty only while a one-shot modifier is latched, and
      the diagnostic packet is zero after the matrix snapshot. */
  predicate Valid(s: State) {
    && |s.layerStack| <= LAYER_STACK_SIZE
    && (forall i :: 0 <= i < |s.layerStack| ==> s.layerStack[i] <= MAX_LAYER)
    && s.activeLayer <= MAX_LAYER
    && |s.lastModTime| == EX_NUM_MODS
    && |s.osmKeys| <= EX_NUM_OSM_KEYS
    && (forall i :: 0 <= i < |s.osmKeys| ==> !IsEngineKey(s.osmKeys[i]))
    && (|s.osmKeys| > 0 ==> s.osmBits != 0)
    && |s.shadow.bits| == NKRO_REPORT_BITS
    && |s.rawReport| == RAW_EPSIZE
    && (forall i :: PACKET_TAIL <= i < RAW_EPSIZE ==> s.rawReport[i] == 0)
  }

  /** The globals at boot: everything zero, the shadow report tagged with
      the NKRO report id. */
  function Initial(): (s: State)
    ensures Valid(s)
    ensures s.layerStack == [] && s.osmKeys == [] && s.osmBits == 0 && s.modBits == 0
    ensures !s.suppressReal && !s.sendRaw
  {
    State([], 0, 0, 0, seq(EX_NUM_MODS, _ => 0), [], 0, false, false,
          NkroReport(REPORT_ID_NKRO, 0, seq(NKRO_REPORT_BITS, _ => 0)),
          seq(RAW_EPSIZE, _ => 0))
  }

  // ---------------------------------------------------------------------
  // The modifier keycodes held down.

  predicate IsModCode(code: int) { KC_LEFT_CTRL <= code < KC_LEFT_CTRL + EX_NUM_MODS }

  /** The modifier bit the model tracks for a keycode: nonzero exactly for
      the eight modifier keycodes 0xE0..0xE7. keymap.c passes modifier
      keycodes to MOD_BIT at lines 201 and 570, where MOD_BIT(code) =
      1 << (code & 7) agrees with ModBit; at lines 412 and 426 it passes the
      slot number m, and there MOD_BIT(m) = 1 << m is Bit(m)
      (Masks.BitIsShift). */
  function ModBit(code: uint8): (b: bv8)
    ensures IsModCode(code) <==> b != 0
  {
    if code == 0xE0 then 0x01
    else if code == 0xE1 then 0x02
    else if code == 0xE2 then 0x04
    else if code == 0xE3 then 0x08
    else if code == 0xE4 then 0x10
    else if code == 0xE5 then 0x20
    else if code == 0xE6 then 0x40
    else if code == 0xE7 then 0x80
    else 0
  }

  /** The keycode of slot `m` has the bit of slot `m`. */
  lemma ModBitOfSlot(m: nat)
    requires m < EX_NUM_MODS
    ensures ModBit(ExMod(m)) == Bit(m)
  {
  }

  /** The mask of modifier keycodes held down after one call, starting
      from `down`: register_code of a modifier keycode presses it,
      unregister_code releases it, nothing else touches it. */
  function ApplyModAction(down: bv8, a: Action): bv8 {
    match a
    case RegisterCode(c) => down | ModBit(c)
    case UnregisterCode(c) => down & !ModBit(c)
    case _ => down
  }

  /** The mask after a sequence of calls, applied in order. */
  function ApplyModActions(down: bv8, acts: seq<Action>): bv8
    decreases |acts|
  {
    if acts == [] then down else ApplyModActions(ApplyModAction(down, acts[0]), acts[1..])
  }

  /** register_code of slot `m`'s keycode presses slot `m`. */
  lemma RegisterSlot(down: bv8, m: nat)
    requires m < EX_NUM_MODS
    ensures ApplyModAction(down, RegisterCode(ExMod(m))) == down | Bit(m)
  {
  }

  /** unregister_code of slot `m`'s keycode releases slot `m`. */
  lemma UnregisterSlot(down: bv8, m: nat)
    requires m < EX_NUM_MODS
    ensures ApplyModAction(down, UnregisterCode(ExMod(m))) == down & !Bit(m)
  {
  }

  lemma ApplyModActionsSingle(down: bv8, a: Action)
    ensures ApplyModActions(down, [a]) == ApplyModAction(down, a)
  {
    assert [a][1..] == [];
  }

  lemma {:induction false} ApplyModActionsAppend(down: bv8, a: seq<Action>, b: seq<Action>)
    ensures ApplyModActions(down, a + b) == ApplyModActions(ApplyModActions(down, a), b)
    decreases |a|
  {
    if a == [] {
      assert a + b == b;
    } else {
      assert (a + b)[1..] == a[1..] + b;
      ApplyModActionsAppend(ApplyModAction(down, a[0]), a[1..], b);
    }
  }

  /** The modifier keycodes held down stay those of the slots that are
      physically held or latched: no call leaves a modifier stuck or drops
      one that is still wanted. */
  predicate KeepsModifiersTracked(s: State, r: Step) {
    ApplyModActions(s.modBits | s.osmBits, r.actions) == r.state.modBits | r.state.osmBits
  }

  /** Whether a call leaves the modifier keycodes alone. */
  predicate ModNeutral(a: Action) {
    !a.RegisterCode? && !a.UnregisterCode?
  }

  /** Calls that register and unregister nothing leave the mask as it is. */
  lemma {:induction false} ApplyModNeutral(down: bv8, acts: seq<Action>)
    requires forall i :: 0 <= i < |acts| ==> ModNeutral(acts[i])
    ensures ApplyModActions(down, acts) == down
    decreases |acts|
  {
    if acts != [] {
      ApplyModNeutral(ApplyModAction(down, acts[0]), acts[1..]);
    }
  }

  /** A step that changes neither mask and makes only neutral calls keeps
      the modifiers tracked. */
  lemma NeutralStepTracked(s: State, r: Step)
    requires forall i :: 0 <= i < |r.actions| ==> ModNeutral(r.actions[i])
    requires r.state.modBits == s.modBits && r.state.osmBits == s.osmBits
    ensures KeepsModifiersTracked(s, r)
  {
    ApplyModNeutral(s.modBits | s.osmBits, r.actions);
  }

  /** Neutral calls in front of a step that keeps the modifiers tracked
      keep them tracked. */
  lemma NeutralPrefixTracked(s: State, pre: seq<Action>, r: Step)
    requires forall i :: 0 <= i < |pre| ==> ModNeutral(pre[i])
    requires KeepsModifiersTracked(s, r)
    ensures KeepsModifiersTracked(s, Step(r.state, pre + r.actions))
  {
    var t := Step(r.state, pre + r.actions);
    NeutralPrefix(s.modBits | s.osmBits, pre, r.actions);
    assert t.actions == pre + r.actions && t.state == r.state;
  }

  /** Calls that touch no modifier can be dropped from the front of a log
      without changing the modifiers it leaves down. */
  lemma NeutralPrefix(down: bv8, pre: seq<Action>, acts: seq<Action>)
    requires forall i :: 0 <= i < |pre| ==> ModNeutral(pre[i])
    ensures ApplyModActions(down, pre + acts) == ApplyModActions(down, acts)
  {
    ApplyModNeutral(down, pre);
    ApplyModActionsAppend(down, pre, acts);
  }
}
