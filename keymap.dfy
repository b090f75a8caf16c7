/** The keymap as the firmware runs it: one object holding the file-scope
    globals of keymap.c (lines 106-123) in place, with the fixed buffers as
    arrays, and one method per entry point QMK calls. Every method updates
    the globals as the specification functions of LayerStack, OneShot,
    Reports and Dispatch say, and appends the calls it makes into the rest
    of the firmware to `effects`. */
module Keymap {
  import opened Types
  import opened Masks
  import opened Keycodes
  import opened Engine
  import Lists
  import LayerStack
  import OneShot
  import Reports
  import Dispatch
  import AltRepeat
  import UsageTable

  /** The removal loop of both lists (keymap.c lines 182-190 and 294-300):
      find the first `x` among the `n` used entries, shift the later ones
      down over it, and return the new count. */
  method RemoveFirstInPlace<T(==)>(a: array<T>, n: nat, x: T) returns (count: nat)
    requires n <= a.Length
    modifies a
    ensures count <= n
    ensures a[..count] == Lists.RemoveFirst(old(a[..n]), x)
    ensures forall k :: n <= k < a.Length ==> a[k] == old(a[k])
  {
    count := n;
    var i := 0;
    while i < n
      invariant 0 <= i <= n
      invariant a[..] == old(a[..])
      invariant forall k :: 0 <= k < i ==> a[k] != x
    {
      if a[i] == x {
        var j := i;
        while j < n - 1
          invariant i <= j <= n - 1
          invariant forall k :: 0 <= k < i ==> a[k] == old(a[k])
          invariant forall k :: i <= k < j ==> a[k] == old(a[k + 1])
          invariant forall k :: j <= k < a.Length ==> a[k] == old(a[k])
        {
          a[j] := a[j + 1];
          j := j + 1;
        }
        count := n - 1;
        ShiftedOut(old(a[..n]), a[..count], x, i);
        return;
      }
      i := i + 1;
    }
    assert old(a[..n]) == a[..n];
  }

  /** The shifted prefix is the removal at the first match. */
  lemma ShiftedOut<T>(s: seq<T>, r: seq<T>, x: T, i: nat)
    requires i < |s| && s[i] == x && forall k :: 0 <= k < i ==> s[k] != x
    requires |r| == |s| - 1
    requires forall k :: 0 <= k < i ==> r[k] == s[k]
    requires forall k :: i <= k < |r| ==> r[k] == s[k + 1]
    ensures r == Lists.RemoveFirst(s, x)
  {
    Lists.RemoveFirstAt(s, x, i);
    assert r == s[..i] + s[i + 1..];
  }

  /** The loop of clear_osm_mods (keymap.c lines 409-420) on the two
      masks: the unregister_code calls for the latched slots that are not
      held, in slot order. */
  method UnregisterLatched(osm: bv8, held: bv8) returns (acts: seq<Action>)
    ensures acts == OneShot.UnregisterSlots(osm & !held, NUM_SLOTS)
  {
    acts := [];
    ghost var mask := osm & !held;
    var mod := 0;
    while mod < EX_NUM_MODS
      invariant 0 <= mod <= EX_NUM_MODS
      invariant acts == OneShot.UnregisterSlots(mask, mod)
    {
      OneShot.UnregisterSlotsStep(mask, mod);
      AndNotAt(osm, held, mod);
      if HasBit(osm, mod) {
        if !HasBit(held, mod) {
          acts := acts + [UnregisterCode(ExMod(mod))];
        }
      }
      mod := mod + 1;
    }
  }

  /** The expiry loop of housekeeping_task_user (keymap.c lines 424-438)
      on the masks and time stamps: the latches left, and the
      unregister_code calls for the expired slots that are not held. */
  method ExpireLatched(osm: bv8, held: bv8, times: seq<uint32>, now: uint32)
    returns (left: bv8, acts: seq<Action>)
    requires |times| == EX_NUM_MODS
    ensures var e := OneShot.ExpiredMask(osm, held, times, now, NUM_SLOTS);
      left == osm & !e && acts == OneShot.UnregisterSlots(e & !held, NUM_SLOTS)
  {
    ghost var e := OneShot.ExpiredMask(osm, held, times, now, NUM_SLOTS);
    left, acts := osm, [];
    var mod := 0;
    while mod < EX_NUM_MODS
      invariant 0 <= mod <= EX_NUM_MODS
      invariant left == ClearSlots(osm, e, mod)
      invariant acts == OneShot.UnregisterSlots(e & !held, mod)
    {
      var expired := TimedOut(osm, held, times, now, e, left, mod);
      left, acts := DropSlot(osm, held, e, left, acts, mod, expired);
      mod := mod + 1;
    }
    ClearSlotsAll(osm, e);
  }

  /** The test of one slot: still latched, and its time past the timeout
      that applies while it is held or not. It holds exactly for the
      expired slots. */
  method TimedOut(osm: bv8, held: bv8, times: seq<uint32>, now: uint32, ghost e: bv8, left: bv8, mod: nat)
    returns (expired: bool)
    requires mod < NUM_SLOTS && |times| == EX_NUM_MODS
    requires e == OneShot.ExpiredMask(osm, held, times, now, NUM_SLOTS)
    requires left == ClearSlots(osm, e, mod)
    ensures expired <==> HasBit(e, mod)
  {
    ClearSlotsAt(osm, e, mod, mod);
    OneShot.ExpiredMaskAt(osm, held, times, now, NUM_SLOTS, mod);
    expired := false;
    if HasBit(left, mod) {
      var holding := HasBit(held, mod);
      if Elapsed32(now, times[mod]) > OneShot.Timeout(holding) {
        expired := true;
      }
    }
  }

  /** An expired slot loses its latch, and is unregistered unless held. */
  method DropSlot(osm: bv8, held: bv8, ghost e: bv8, left: bv8, acts: seq<Action>, mod: nat, expired: bool)
    returns (left': bv8, acts': seq<Action>)
    requires mod < NUM_SLOTS
    requires expired <==> HasBit(e, mod)
    requires left == ClearSlots(osm, e, mod)
    requires acts == OneShot.UnregisterSlots(e & !held, mod)
    ensures left' == ClearSlots(osm, e, mod + 1)
    ensures acts' == OneShot.UnregisterSlots(e & !held, mod + 1)
  {
    AndNotAt(e, held, mod);
    ClearSlotsStep(osm, e, mod);
    OneShot.UnregisterSlotsStep(e & !held, mod);
    left', acts' := left, acts;
    if expired {
      left' := left & !Bit(mod);
      if !HasBit(held, mod) {
        acts' := acts + [UnregisterCode(ExMod(mod))];
      }
    }
  }

  /** `memcpy(dst + off, src, |src|)`. */
  method CopyInto(dst: array<bv8>, off: nat, src: seq<bv8>)
    requires off + |src| <= dst.Length
    modifies dst
    ensures dst[..] == old(dst[..off]) + src + old(dst[off + |src|..])
  {
    var i := 0;
    while i < |src|
      invariant 0 <= i <= |src|
      invariant dst[..] == old(dst[..off]) + src[..i] + old(dst[off + i..])
    {
      dst[off + i] := src[i];
      i := i + 1;
    }
  }

  /** The key loop of send_keyboard_user (keymap.c lines 326-334): every
      nonzero code sets its bit in the bitmap, if its byte exists. */
  method MarkKeysInPlace(bits: array<bv8>, keys: seq<uint8>)
    requires bits.Length == NKRO_REPORT_BITS
    modifies bits
    ensures bits[..] == Reports.MarkKeys(old(bits[..]), keys)
  {
    var i := 0;
    while i < |keys|
      invariant 0 <= i <= |keys|
      invariant bits[..] == Reports.MarkKeys(old(bits[..]), keys[..i])
    {
      var code := keys[i];
      if code != 0 {
        if code / 8 < NKRO_REPORT_BITS {
          bits[code / 8] := bits[code / 8] | Bit(code % 8);
        }
      }
      assert keys[..i + 1][..i] == keys[..i];
      i := i + 1;
    }
    assert keys[..|keys|] == keys;
  }

  /** A clearing loop of send_extra_user (keymap.c lines 353-362): the bit
      of every code from `lo` up to `hi - 1` cleared, if its byte exists. */
  method ClearCodesInPlace(bits: array<bv8>, lo: nat, hi: nat)
    requires bits.Length == NKRO_REPORT_BITS && lo <= hi
    modifies bits
    ensures bits[..] == Reports.ClearCodes(old(bits[..]), lo, hi)
  {
    var code := lo;
    while code < hi
      invariant lo <= code <= hi
      invariant bits[..] == Reports.ClearCodes(old(bits[..]), lo, code)
    {
      if code / 8 < NKRO_REPORT_BITS {
        bits[code / 8] := bits[code / 8] & !Bit(code % 8);
      }
      code := code + 1;
    }
  }

  /** The diagnostic half of send_raw_hid_report (keymap.c lines 384-391):
      the header bytes, then the matrix rows copied in after them. */
  method WriteDiagnosticInPlace(raw: array<bv8>, layer: uint8, matrix: seq<bv8>)
    requires raw.Length == RAW_EPSIZE && |matrix| == MATRIX_BYTES
    modifies raw
    ensures raw[..] == Reports.WriteDiagnostic(old(raw[..]), layer, matrix)
  {
    raw[0] := Reports.DIAGNOSTIC_ID;
    raw[1] := layer as bv8;
    raw[2] := MATRIX_ROWS as bv8;
    raw[3] := MATRIX_COLS as bv8;
    CopyInto(raw, 4, matrix);
  }

  /** The answer of raw_hid_receive to an arm request (keymap.c lines
      398-401): the buffer cleared, then byte 1 set to 0xEF. */
  method FillAck(raw: array<bv8>)
    requires raw.Length == RAW_EPSIZE
    modifies raw
    ensures raw[..] == Reports.AckPacket()
  {
    forall i | 0 <= i < raw.Length {
      raw[i] := 0;
    }
    raw[1] := Reports.RAW_ACK;
  }

  class Keymap {
    const layerStack: array<uint8>     // layer_stack
    var stackSize: nat                 // stack_size
    var activeLayer: uint8             // active_layer
    var osmBits: bv8                   // ex_osm_bits
    var modBits: bv8                   // ex_mod_bits
    const lastModTime: array<uint32>   // last_mod_time
    var lastHeartbeat: uint32          // last_heartbeat_time
    const osmKeys: array<uint16>       // ex_osm_keys
    var osmKeyCount: nat               // ex_osm_key_count
    const rawReport: array<bv8>        // raw_hid_report
    var suppressReal: bool             // suppress_real_reports
    var sendRaw: bool                  // send_raw_hid_reports
    var shadowId: bv8                  // nkro_report_user.report_id
    var shadowMods: bv8                // nkro_report_user.mods
    const shadowBits: array<bv8>       // nkro_report_user.bits
    /** The calls made into the rest of the firmware, oldest first. */
    var effects: seq<Action>

    /** The buffers have their declared sizes and the counts fit them. */
    predicate Shaped()
      reads this`stackSize, this`osmKeyCount
    {
      && layerStack.Length == LAYER_STACK_SIZE && stackSize <= LAYER_STACK_SIZE
      && lastModTime.Length == EX_NUM_MODS
      && osmKeys.Length == EX_NUM_OSM_KEYS && osmKeyCount <= EX_NUM_OSM_KEYS
      && rawReport.Length == RAW_EPSIZE && shadowBits.Length == NKRO_REPORT_BITS
      && rawReport != shadowBits
      && Disjoint(rawReport) && Disjoint(shadowBits)
    }

    /** A byte buffer is none of the integer buffers. */
    predicate Disjoint(buf: array<bv8>) {
      buf as object != layerStack && buf as object != lastModTime && buf as object != osmKeys
    }

    /** The globals as a value. */
    function Model(): (s: State)
      requires Shaped()
      reads this`stackSize, this`activeLayer, this`osmBits, this`modBits, this`lastHeartbeat,
        this`osmKeyCount, this`suppressReal, this`sendRaw, this`shadowId, this`shadowMods
      reads layerStack, lastModTime, osmKeys, rawReport, shadowBits
      ensures Reports.BuffersOk(s) && |s.lastModTime| == EX_NUM_MODS
      ensures |s.layerStack| <= LAYER_STACK_SIZE && |s.osmKeys| <= EX_NUM_OSM_KEYS
    {
      State(layerStack[..stackSize], activeLayer, osmBits, modBits, lastModTime[..],
            osmKeys[..osmKeyCount], lastHeartbeat, suppressReal, sendRaw,
            NkroReport(shadowId, shadowMods, shadowBits[..]), rawReport[..])
    }

    predicate Valid()
      reads this`stackSize, this`activeLayer, this`osmBits, this`modBits, this`lastHeartbeat,
        this`osmKeyCount, this`suppressReal, this`sendRaw, this`shadowId, this`shadowMods
      reads layerStack, lastModTime, osmKeys, rawReport, shadowBits
    {
      Shaped() && Engine.Valid(Model())
    }

    /** The globals at boot. */
    constructor ()
      ensures Valid() && Model() == Initial() && effects == []
      ensures fresh(layerStack) && fresh(lastModTime) && fresh(osmKeys)
      ensures fresh(rawReport) && fresh(shadowBits)
    {
      layerStack := new uint8[LAYER_STACK_SIZE](_ => 0);
      stackSize := 0;
      activeLayer := 0;
      osmBits := 0;
      modBits := 0;
      lastModTime := new uint32[EX_NUM_MODS](_ => 0);
      lastHeartbeat := 0;
      osmKeys := new uint16[EX_NUM_OSM_KEYS](_ => 0);
      osmKeyCount := 0;
      rawReport := new bv8[RAW_EPSIZE](_ => 0);
      suppressReal := false;
      sendRaw := false;
      shadowId := REPORT_ID_NKRO;
      shadowMods := 0;
      shadowBits := new bv8[NKRO_REPORT_BITS](_ => 0);
      effects := [];
      new;
      assert lastModTime[..] == seq(EX_NUM_MODS, _ => 0);
      assert rawReport[..] == seq(RAW_EPSIZE, _ => 0);
      assert shadowBits[..] == seq(NKRO_REPORT_BITS, _ => 0);
    }

    // -------------------------------------------------------------------
    // process_record_user (keymap.c lines 158-310).

    /** process_record_user: the layer keys, the one-shot keys, CLR_OSM,
        and every other key, which QMK goes on to process. */
    method ProcessRecordUser(keycode: uint16, pressed: bool, now: uint32, scrollLock: bool,
                             repeatCount: int, mods: bv8) returns (ret: bool)
      requires Valid()
      modifies this`stackSize, this`activeLayer, this`osmBits, this`modBits, this`osmKeyCount, this`effects
      modifies layerStack, lastModTime, osmKeys
      ensures Valid()
      ensures var p := Dispatch.ProcessRecord(old(Model()), keycode, pressed, now, scrollLock, repeatCount, mods);
        Model() == p.step.state && effects == old(effects) + p.step.actions && ret == p.ret
    {
      Dispatch.ProcessRecordValid(Model(), keycode, pressed, now, scrollLock, repeatCount, mods);
      ret := ProcessKey(keycode, pressed, now, scrollLock, repeatCount, mods);
    }

    /** The four branches of process_record_user. */
    method ProcessKey(keycode: uint16, pressed: bool, now: uint32, scrollLock: bool,
                      repeatCount: int, mods: bv8) returns (ret: bool)
      requires Valid()
      modifies this`stackSize, this`activeLayer, this`osmBits, this`modBits, this`osmKeyCount, this`effects
      modifies layerStack, lastModTime, osmKeys
      ensures Shaped()
      ensures var p := Dispatch.ProcessRecord(old(Model()), keycode, pressed, now, scrollLock, repeatCount, mods);
        Model() == p.step.state && effects == old(effects) + p.step.actions && ret == p.ret
    {
      ret := true;
      if IsLayerKey(keycode) {
        LayerKeyEvent(Dispatch.LayerOf(keycode), pressed, scrollLock);
        ret := false;
      } else if IsOneShotKey(keycode) {
        OneShotEvent(keycode - EX_ONE_SHOT_MOD, pressed, now);
        ret := false;
      } else if keycode == CLR_OSM {
        ClearOsmKeyEvent(pressed);
        ret := false;
      } else {
        PlainKeyEvent(keycode, pressed, repeatCount, mods);
      }
    }

    /** The layer-key branch, ending with layer_move to the new active
        layer. */
    method LayerKeyEvent(layer: uint8, pressed: bool, scrollLock: bool)
      requires Shaped() && LayerStack.StackOk(Model().layerStack) && layer <= MAX_LAYER
      modifies this`stackSize, this`activeLayer, this`effects, layerStack
      ensures Shaped()
      ensures var r := LayerStack.LayerKey(old(Model()), layer, pressed, scrollLock);
        Model() == r.state && effects == old(effects) + r.actions
    {
      if pressed {
        LayerPress(layer, scrollLock);
      } else {
        LayerRelease(layer, scrollLock);
      }
    }

    /** A press: the scroll-lock tap, the push if there is room, and the
        pressed layer made active. */
    method LayerPress(layer: uint8, scrollLock: bool)
      requires Shaped() && LayerStack.StackOk(Model().layerStack) && layer <= MAX_LAYER
      modifies this`stackSize, this`activeLayer, this`effects, layerStack
      ensures Shaped()
      ensures Model() == old(Model()).(activeLayer := layer,
        layerStack := LayerStack.NewStack(old(Model()).layerStack, layer, true))
      ensures effects == old(effects) + LayerStack.ScrollLockTaps(layer, true, scrollLock) + [LayerMove(layer)]
    {
      if layer == LAYER_EXT && !scrollLock {
        effects := effects + [TapCode(KC_SCRL)];
      }
      if stackSize < LAYER_STACK_SIZE {
        layerStack[stackSize] := layer;
        stackSize := stackSize + 1;
        assert layerStack[..stackSize] == old(layerStack[..stackSize]) + [layer];
      }
      activeLayer := layer;
      effects := effects + [LayerMove(activeLayer)];
    }

    /** A release: the scroll-lock tap, the first entry of the layer taken
        out, and the new top made active, or layer 0. */
    method LayerRelease(layer: uint8, scrollLock: bool)
      requires Shaped() && LayerStack.StackOk(Model().layerStack) && layer <= MAX_LAYER
      modifies this`stackSize, this`activeLayer, this`effects, layerStack
      ensures Shaped()
      ensures var stack := LayerStack.NewStack(old(Model()).layerStack, layer, false);
        Model() == old(Model()).(layerStack := stack, activeLayer := Lists.LastOr(stack, 0))
      ensures effects == old(effects) + LayerStack.ScrollLockTaps(layer, false, scrollLock)
        + [LayerMove(activeLayer)]
    {
      ghost var s := Model();
      if layer == LAYER_EXT && scrollLock {
        effects := effects + [TapCode(KC_SCRL)];
      }
      PopLayer(layer);
      effects := effects + [LayerMove(activeLayer)];
      assert lastModTime[..] == s.lastModTime && osmKeys[..osmKeyCount] == s.osmKeys;
      assert rawReport[..] == s.rawReport && shadowBits[..] == s.shadow.bits;
      assert Model() == s.(layerStack := layerStack[..stackSize], activeLayer := activeLayer);
    }

    /** Takes the first entry of `layer` out of the stack and activates the
        new top, or layer 0. */
    method PopLayer(layer: uint8)
      requires stackSize <= layerStack.Length == LAYER_STACK_SIZE
      modifies this`stackSize, this`activeLayer, layerStack
      ensures stackSize <= LAYER_STACK_SIZE
      ensures layerStack[..stackSize] == Lists.RemoveFirst(old(layerStack[..stackSize]), layer)
      ensures activeLayer == Lists.LastOr(layerStack[..stackSize], 0)
    {
      stackSize := RemoveFirstInPlace(layerStack, stackSize, layer);
      if stackSize > 0 {
        activeLayer := layerStack[stackSize - 1];
      } else {
        activeLayer := 0;
      }
    }

    /** The one-shot branch for slot `m`. The slot's bit
        MOD_BIT(EX_MOD(m)) is `Bit(m)` (Engine.ModBitOfSlot). */
    method OneShotEvent(m: nat, pressed: bool, now: uint32)
      requires Shaped() && m < EX_NUM_MODS
      modifies this`modBits, this`osmBits, this`effects, lastModTime
      ensures Shaped()
      ensures var r := OneShot.OneShotKey(old(Model()), m, pressed, now);
        Model() == r.state && effects == old(effects) + r.actions
    {
      if pressed {
        OneShot.OneShotPressIs(Model(), m, now);
        OneShotPress(m, now);
      } else {
        OneShot.OneShotReleaseIs(Model(), m, now);
        OneShotRelease(m);
      }
    }

    /** A press: register_code(EX_MOD(m)), the slot held and latched, and
        its time stamped. */
    method OneShotPress(m: nat, now: uint32)
      requires Shaped() && m < EX_NUM_MODS
      modifies this`modBits, this`osmBits, this`effects, lastModTime
      ensures Model() == old(Model()).(modBits := old(modBits) | Bit(m), osmBits := old(osmBits) | Bit(m),
                                       lastModTime := old(Model()).lastModTime[m := now])
      ensures effects == old(effects) + [RegisterCode(ExMod(m))]
    {
      effects := effects + [RegisterCode(ExMod(m))];
      modBits := modBits | Bit(m);
      osmBits := osmBits | Bit(m);
      lastModTime[m] := now;
    }

    /** A release: unregister_code(EX_MOD(m)) unless the slot is latched,
        and the held bit cleared. */
    method OneShotRelease(m: nat)
      requires Shaped() && m < EX_NUM_MODS
      modifies this`modBits, this`effects
      ensures Model() == old(Model()).(modBits := old(modBits) & !Bit(m))
      ensures effects == old(effects) + if HasBit(osmBits, m) then [] else [UnregisterCode(ExMod(m))]
    {
      modBits := modBits & !Bit(m);
      if !HasBit(osmBits, m) {
        effects := effects + [UnregisterCode(ExMod(m))];
      }
    }

    /** clear_osm_mods: the unregisters of the latched slots not held, then
        every latch dropped. */
    method ClearOsmMods()
      requires Shaped()
      modifies this`osmBits, this`effects
      ensures var r := OneShot.ClearOsmMods(old(Model()));
        Model() == r.state && effects == old(effects) + r.actions
    {
      var acts := UnregisterLatched(osmBits, modBits);
      effects := effects + acts;
      osmBits := 0;
    }

    /** The CLR_OSM branch: a press forgets the pending keys and runs
        clear_osm_mods. */
    method ClearOsmKeyEvent(pressed: bool)
      requires Shaped()
      modifies this`osmKeyCount, this`osmBits, this`effects
      ensures Shaped()
      ensures var r := OneShot.ClearOsmKey(old(Model()), pressed);
        Model() == r.state && effects == old(effects) + r.actions
    {
      if pressed {
        osmKeyCount := 0;
        ClearOsmMods();
      }
    }

    /** Every other key: the Alternate Repeat fix-up, then the magic
        macros, then the pending-key list for a key that is not magic. */
    method PlainKeyEvent(keycode: uint16, pressed: bool, repeatCount: int, mods: bv8)
      requires Shaped()
      modifies this`osmKeyCount, this`osmBits, this`effects, osmKeys
      ensures Shaped()
      ensures var r := Dispatch.PlainKey(old(Model()), keycode, pressed, repeatCount, mods);
        Model() == r.state && effects == old(effects) + r.actions
    {
      RepeatFixupEvent(keycode, repeatCount, mods);
      var magic := MagicEvent(keycode, pressed, repeatCount);
      if !magic {
        PendingKeyEvent(keycode, pressed);
      }
    }

    /** After an alternate repeat of a vowel with at most Shift held, the
        last key becomes N without modifiers. */
    method RepeatFixupEvent(keycode: uint16, repeatCount: int, mods: bv8)
      modifies this`effects
      ensures effects == old(effects) + Dispatch.RepeatFixup(keycode, repeatCount, mods)
    {
      if repeatCount < 0 && AltRepeat.ShiftOnly(mods) && Dispatch.IsRepeatVowel(keycode) {
        effects := effects + [SetLastKeycode(KC_N), SetLastMods(0)];
      }
    }

    /** The magic switch on a press: a macro sends its string, Space while
        repeating adds one-shot Shift; `magic` says whether either ran. */
    method MagicEvent(keycode: uint16, pressed: bool, repeatCount: int) returns (magic: bool)
      modifies this`effects
      ensures magic == Dispatch.IsMagic(keycode, pressed, repeatCount)
      ensures effects == old(effects) + if magic then Dispatch.MagicActions(keycode) else []
    {
      magic := true;
      if !pressed {
        magic := false;
      } else if Dispatch.IsMagicMacro(keycode) {
        effects := effects + [SendMacro(keycode)];
      } else if keycode == KC_SPC {
        if repeatCount > 0 {
          effects := effects + [AddOneshotMods(MOD_LSFT), RegisterMods(MOD_LSFT)];
        } else {
          magic := false;
        }
      } else {
        magic := false;
      }
    }

    /** The pending-key list: only while something is latched, a press
        records the key and a release with keys pending forgets it. */
    method PendingKeyEvent(keycode: uint16, pressed: bool)
      requires Shaped()
      modifies this`osmKeyCount, this`osmBits, this`effects, osmKeys
      ensures Shaped()
      ensures var r := OneShot.TrackPending(old(Model()), keycode, pressed);
        Model() == r.state && effects == old(effects) + r.actions
    {
      if osmBits != 0 {
        if pressed {
          PendingPress(keycode);
        } else if osmKeyCount > 0 {
          PendingRelease(keycode);
        }
      }
    }

    /** A press records the key while there is room. */
    method PendingPress(keycode: uint16)
      requires Shaped() && osmBits != 0
      modifies this`osmKeyCount, osmKeys
      ensures Shaped()
      ensures var r := OneShot.TrackPending(old(Model()), keycode, true);
        Model() == r.state && r.actions == []
    {
      ghost var s := Model();
      if OneShot.PendingHasRoom(osmKeyCount) {
        osmKeys[osmKeyCount] := keycode;
        osmKeyCount := osmKeyCount + 1;
        assert osmKeys[..osmKeyCount] == s.osmKeys + [keycode];
        assert Model() == s.(osmKeys := s.osmKeys + [keycode]);
      }
    }

    /** A release forgets the first record of the key, and runs
        clear_osm_mods when that empties the list. */
    method PendingRelease(keycode: uint16)
      requires Shaped() && osmBits != 0 && osmKeyCount > 0
      modifies this`osmKeyCount, this`osmBits, this`effects, osmKeys
      ensures Shaped()
      ensures var r := OneShot.TrackPending(old(Model()), keycode, false);
        Model() == r.state && effects == old(effects) + r.actions
    {
      ghost var s := Model();
      osmKeyCount := RemoveFirstInPlace(osmKeys, osmKeyCount, keycode);
      ghost var keys := Lists.RemoveFirst(s.osmKeys, keycode);
      assert Model() == s.(osmKeys := keys);
      if osmKeyCount == 0 {
        ClearOsmMods();
      }
    }

    // -------------------------------------------------------------------
    // housekeeping_task_user (keymap.c lines 422-443).

    /** The one-shot expiry, then the heartbeat timeout. */
    method HousekeepingTaskUser(now: uint32)
      requires Valid()
      modifies this`osmBits, this`effects, this`sendRaw, this`suppressReal
      ensures Valid()
      ensures var r := Dispatch.Housekeeping(old(Model()), now);
        Model() == r.state && effects == old(effects) + r.actions
    {
      Dispatch.HousekeepingValid(Model(), now);
      ExpireOneShot(now);
      HeartbeatTimeout(now);
    }

    /** Only while something is latched and no key is pending: every
        latch past its timeout is dropped, and unregistered unless held. */
    method ExpireOneShot(now: uint32)
      requires Shaped()
      modifies this`osmBits, this`effects
      ensures var r := OneShot.ExpireOneShot(old(Model()), now);
        Model() == r.state && effects == old(effects) + r.actions
    {
      if osmBits != 0 && osmKeyCount == 0 {
        OneShot.ExpireOneShotActive(Model(), now);
        ExpireActive(now);
      }
    }

    /** The expiry loop itself, run on the globals. */
    method ExpireActive(now: uint32)
      requires Shaped()
      modifies this`osmBits, this`effects
      ensures var e := OneShot.Expired(old(Model()), now);
        && Model() == old(Model()).(osmBits := old(osmBits) & !e)
        && effects == old(effects) + OneShot.UnregisterSlots(e & !modBits, NUM_SLOTS)
    {
      var left, acts := ExpireLatched(osmBits, modBits, lastModTime[..], now);
      osmBits := left;
      effects := effects + acts;
    }

    /** A heartbeat older than 1500 ms disarms the channel. */
    method HeartbeatTimeout(now: uint32)
      requires Shaped()
      modifies this`sendRaw, this`suppressReal
      ensures Model() == Reports.HeartbeatTimeout(old(Model()), now).state
    {
      if Elapsed32(now, lastHeartbeat) > Reports.HEARTBEAT_TIMEOUT_MS {
        sendRaw := false;
        suppressReal := false;
      }
    }

    // -------------------------------------------------------------------
    // The report multiplexer (keymap.c lines 323-407).

    /** send_raw_hid_report: the shadow report as it stands, then the
        diagnostic packet written into raw_hid_report. `matrix` is the
        matrix rows QMK holds. */
    method SendRawHidReport(matrix: seq<bv8>)
      requires Shaped() && |matrix| == MATRIX_BYTES
      modifies this`effects, rawReport
      ensures var r := Reports.SendRawHidReport(old(Model()), matrix);
        Model() == r.state && effects == old(effects) + r.actions
    {
      ghost var s := Model();
      effects := effects + [RawHidSend(Reports.ShadowPacket(NkroReport(shadowId, shadowMods, shadowBits[..])))];
      WriteDiagnosticInPlace(rawReport, activeLayer, matrix);
      effects := effects + [RawHidSend(rawReport[..])];
      assert Model() == s.(rawReport := rawReport[..]);
    }

    /** The real sender is called unless a host tool suppresses it. */
    method ForwardReport(a: Action)
      modifies this`effects
      ensures effects == old(effects) + if suppressReal then [] else [a]
    {
      if !suppressReal {
        effects := effects + [a];
      }
    }

    /** send_keyboard_user: forward unless suppressed; while armed, the
        shadow takes the report's modifiers and the bitmap of its keys,
        and is sent. */
    method SendKeyboardUser(report: KeyboardReport, matrix: seq<bv8>)
      requires Valid() && |matrix| == MATRIX_BYTES
      modifies this`effects, this`shadowMods, shadowBits, rawReport
      ensures Valid()
      ensures var r := Reports.SendKeyboard(old(Model()), report, matrix);
        Model() == r.state && effects == old(effects) + r.actions
    {
      ghost var s := Model();
      ghost var shadow := s.shadow.(mods := report.mods, bits := Reports.KeyboardBits(report.keys));
      Reports.MirrorActions(s, Reports.Forward(s, ForwardKeyboard(report)), shadow, matrix);
      Reports.MirrorValid(s, Reports.Forward(s, ForwardKeyboard(report)), shadow, matrix);
      ForwardReport(ForwardKeyboard(report));
      if sendRaw {
        ShadowKeyboard(report);
        SendRawHidReport(matrix);
      }
    }

    /** The shadow of a keyboard report: its modifiers, and the bitmap
        cleared and then marked with its keys (keymap.c lines 326-334). */
    method ShadowKeyboard(report: KeyboardReport)
      requires Shaped()
      modifies this`shadowMods, shadowBits
      ensures Model() == old(Model()).(shadow := old(Model()).shadow.(mods := report.mods,
                                                                       bits := Reports.KeyboardBits(report.keys)))
    {
      ghost var s := Model();
      shadowMods := report.mods;
      forall i | 0 <= i < shadowBits.Length {
        shadowBits[i] := 0;
      }
      assert shadowBits[..] == Reports.Zeros(NKRO_REPORT_BITS);
      MarkKeysInPlace(shadowBits, report.keys);
      assert Model() == s.(shadow := s.shadow.(mods := report.mods, bits := shadowBits[..]));
    }

    /** send_nkro_user: forward unless suppressed; while armed, the shadow
        becomes a copy of the report, and is sent. */
    method SendNkroUser(report: NkroReport, matrix: seq<bv8>)
      requires Valid() && |report.bits| == NKRO_REPORT_BITS && |matrix| == MATRIX_BYTES
      modifies this`effects, this`shadowId, this`shadowMods, shadowBits, rawReport
      ensures Valid()
      ensures var r := Reports.SendNkro(old(Model()), report, matrix);
        Model() == r.state && effects == old(effects) + r.actions
    {
      ghost var s := Model();
      Reports.MirrorActions(s, Reports.Forward(s, ForwardNkro(report)), report, matrix);
      Reports.MirrorValid(s, Reports.Forward(s, ForwardNkro(report)), report, matrix);
      ForwardReport(ForwardNkro(report));
      if sendRaw {
        ShadowNkro(report);
        SendRawHidReport(matrix);
      }
    }

    /** The shadow of an NKRO report: a copy of it (keymap.c line 345). */
    method ShadowNkro(report: NkroReport)
      requires Shaped() && |report.bits| == NKRO_REPORT_BITS
      modifies this`shadowId, this`shadowMods, shadowBits
      ensures Model() == old(Model()).(shadow := report)
    {
      ghost var s := Model();
      shadowId, shadowMods := report.reportId, report.mods;
      forall i | 0 <= i < shadowBits.Length {
        shadowBits[i] := report.bits[i];
      }
      assert shadowBits[..] == report.bits;
      assert Model() == s.(shadow := report);
    }

    /** send_extra_user: forward unless suppressed; while armed, the
        shadow's bitmap takes the usage, and is sent. */
    method SendExtraUser(report: ExtraReport, matrix: seq<bv8>)
      requires Valid() && |matrix| == MATRIX_BYTES
      modifies this`effects, shadowBits, rawReport
      ensures Valid()
      ensures var r := Reports.SendExtra(old(Model()), report, matrix);
        Model() == r.state && effects == old(effects) + r.actions
    {
      ghost var s := Model();
      ghost var shadow := s.shadow.(bits := Reports.ExtraBits(s.shadow.bits, report.usage));
      Reports.MirrorActions(s, Reports.Forward(s, ForwardExtra(report)), shadow, matrix);
      Reports.MirrorValid(s, Reports.Forward(s, ForwardExtra(report)), shadow, matrix);
      ForwardReport(ForwardExtra(report));
      if sendRaw {
        ShadowExtra(report.usage);
        SendRawHidReport(matrix);
      }
    }

    /** The shadow of an extra report (keymap.c lines 353-374): usage 0
        clears the system and consumer band, any other usage sets the bit
        of its keycode. */
    method ShadowExtra(usage: uint16)
      requires Shaped()
      modifies shadowBits
      ensures Model() == old(Model()).(shadow := old(Model()).shadow.(
                bits := Reports.ExtraBits(old(Model()).shadow.bits, usage)))
    {
      ghost var s := Model();
      if usage == 0 {
        ClearCodesInPlace(shadowBits, KC_SYSTEM_POWER, KC_SYSTEM_WAKE + 1);
        ClearCodesInPlace(shadowBits, KC_AUDIO_MUTE, KC_LAUNCHPAD + 1);
      } else {
        var code := UsageTable.Usage2Keycode(usage);
        if code / 8 < NKRO_REPORT_BITS {
          shadowBits[code / 8] := shadowBits[code / 8] | Bit(code % 8);
        }
      }
      assert Model() == s.(shadow := s.shadow.(bits := shadowBits[..]));
    }


    /** raw_hid_receive: 0xBE arms the channel, stamps the heartbeat and
        answers with a packet zero but for byte 1 = 0xEF; 0xBF disarms it. */
    method RawHidReceive(data: seq<bv8>, now: uint32)
      requires Valid() && |data| > 0
      modifies this`lastHeartbeat, this`sendRaw, this`suppressReal, this`effects, rawReport
      ensures Valid()
      ensures var r := Reports.RawHidReceive(old(Model()), data, now);
        Model() == r.state && effects == old(effects) + r.actions
    {
      ghost var s := Model();
      Reports.RawHidReceiveValid(s, data, now);
      if data[0] == Reports.RAW_ARM {
        lastHeartbeat := now;
        sendRaw := true;
        suppressReal := true;
        FillAck(rawReport);
        effects := effects + [RawHidSend(rawReport[..])];
        assert Model() == s.(lastHeartbeat := now, sendRaw := true, suppressReal := true,
                             rawReport := Reports.AckPacket());
      } else if data[0] == Reports.RAW_DISARM {
        sendRaw := false;
        suppressReal := false;
      }
    }
  }
}
