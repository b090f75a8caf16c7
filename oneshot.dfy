/** The one-shot modifiers (keymap.c lines 198-219, 286-307, 409-438).
    Each of the eight modifier slots has a "held" bit in `modBits`, set
    while its one-shot key is down, and a "latched" bit in `osmBits`, set
    by the press and kept after the release. A latched modifier stays
    registered with QMK until the plain keys typed under it have all been
    released, until CLR_OSM, or until it times out. */
module OneShot {
  import opened Types
  import opened Masks
  import opened Keycodes
  import opened Engine
  import Lists

  const EX_MOD_HOLD_OSM_CLEAR_MS: uint32 := 500
  const EX_OSM_TIMEOUT_MS: uint32 := 5000

  // ---------------------------------------------------------------------
  // Press and release of a one-shot key.

  /** The one-shot branch of process_record_user for slot `m`. A press
      registers the modifier, marks the slot held and latched and stamps
      its time; a release drops the held bit and unregisters the modifier
      only if nothing latches it any more. */
  function OneShotKey(s: State, m: nat, pressed: bool, now: uint32): (r: Step)
    requires m < EX_NUM_MODS && |s.lastModTime| == EX_NUM_MODS
    ensures |r.state.lastModTime| == EX_NUM_MODS
    // Nothing but the slot masks and the time stamps changes.
    ensures r.state == s.(modBits := r.state.modBits, osmBits := r.state.osmBits,
                          lastModTime := r.state.lastModTime)
    ensures |r.actions| <= 1
  {
    if pressed then
      Step(s.(modBits := s.modBits | Bit(m), osmBits := s.osmBits | Bit(m),
              lastModTime := s.lastModTime[m := now]),
           [RegisterCode(ExMod(m))])
    else
      Step(s.(modBits := s.modBits & !Bit(m)),
           if s.osmBits & Bit(m) == 0 then [UnregisterCode(ExMod(m))] else [])
  }

  /** The two branches of OneShotKey written out. */
  lemma OneShotPressIs(s: State, m: nat, now: uint32)
    requires m < EX_NUM_MODS && |s.lastModTime| == EX_NUM_MODS
    ensures OneShotKey(s, m, true, now).state
      == s.(modBits := s.modBits | Bit(m), osmBits := s.osmBits | Bit(m),
            lastModTime := s.lastModTime[m := now])
    ensures OneShotKey(s, m, true, now).actions == [RegisterCode(ExMod(m))]
  {
  }

  lemma OneShotReleaseIs(s: State, m: nat, now: uint32)
    requires m < EX_NUM_MODS && |s.lastModTime| == EX_NUM_MODS
    ensures OneShotKey(s, m, false, now).state == s.(modBits := s.modBits & !Bit(m))
    ensures OneShotKey(s, m, false, now).actions
      == if HasBit(s.osmBits, m) then [] else [UnregisterCode(ExMod(m))]
  {
  }

  lemma PressModAt(s: State, m: nat, now: uint32, k: nat)
    requires m < EX_NUM_MODS && |s.lastModTime| == EX_NUM_MODS && k < NUM_SLOTS
    ensures HasBit(OneShotKey(s, m, true, now).state.modBits, k) <==> HasBit(s.modBits, k) || k == m
  {
    SetBitAt(s.modBits, m, k);
  }

  lemma PressOsmAt(s: State, m: nat, now: uint32, k: nat)
    requires m < EX_NUM_MODS && |s.lastModTime| == EX_NUM_MODS && k < NUM_SLOTS
    ensures HasBit(OneShotKey(s, m, true, now).state.osmBits, k) <==> HasBit(s.osmBits, k) || k == m
  {
    SetBitAt(s.osmBits, m, k);
  }

  /** A press registers slot `m`, sets it in both masks, leaves the other
      slots alone and stamps only slot `m` with `now`. */
  lemma OneShotPress(s: State, m: nat, now: uint32, k: nat)
    requires m < EX_NUM_MODS && |s.lastModTime| == EX_NUM_MODS && k < NUM_SLOTS
    ensures var r := OneShotKey(s, m, true, now);
      && r.actions == [RegisterCode(ExMod(m))]
      && (HasBit(r.state.modBits, k) <==> HasBit(s.modBits, k) || k == m)
      && (HasBit(r.state.osmBits, k) <==> HasBit(s.osmBits, k) || k == m)
      && r.state.lastModTime[k] == if k == m then now else s.lastModTime[k]
  {
    PressModAt(s, m, now, k);
    PressOsmAt(s, m, now, k);
  }

  lemma ReleaseModAt(s: State, m: nat, now: uint32, k: nat)
    requires m < EX_NUM_MODS && |s.lastModTime| == EX_NUM_MODS && k < NUM_SLOTS
    ensures HasBit(OneShotKey(s, m, false, now).state.modBits, k) <==> HasBit(s.modBits, k) && k != m
  {
    ClearBitAt(s.modBits, m, k);
  }

  lemma ReleaseActions(s: State, m: nat, now: uint32)
    requires m < EX_NUM_MODS && |s.lastModTime| == EX_NUM_MODS
    ensures var acts := OneShotKey(s, m, false, now).actions;
      && (acts == [UnregisterCode(ExMod(m))] <==> !HasBit(s.osmBits, m))
      && (acts == [] <==> HasBit(s.osmBits, m))
  {
  }

  /** A release clears only the held bit of slot `m`, keeps the latch, and
      unregisters the modifier exactly when slot `m` is not latched. */
  lemma OneShotRelease(s: State, m: nat, now: uint32, k: nat)
    requires m < EX_NUM_MODS && |s.lastModTime| == EX_NUM_MODS && k < NUM_SLOTS
    ensures var r := OneShotKey(s, m, false, now);
      && (r.actions == [UnregisterCode(ExMod(m))] <==> !HasBit(s.osmBits, m))
      && (r.actions == [] <==> HasBit(s.osmBits, m))
      && (HasBit(r.state.modBits, k) <==> HasBit(s.modBits, k) && k != m)
      && r.state.osmBits == s.osmBits
      && r.state.lastModTime == s.lastModTime
  {
    ReleaseActions(s, m, now);
    ReleaseModAt(s, m, now, k);
  }

  /** One register_code of slot `m` presses that modifier. */
  lemma RegisterOne(d: bv8, m: nat)
    requires m < NUM_SLOTS
    ensures ApplyModActions(d, [RegisterCode(ExMod(m))]) == d | Bit(m)
  {
    ApplyModActionsSingle(d, RegisterCode(ExMod(m)));
    RegisterSlot(d, m);
  }

  lemma RegisteredMasks(s: State, r: Step, m: nat)
    requires m < NUM_SLOTS && r.actions == [RegisterCode(ExMod(m))]
    requires r.state.modBits | r.state.osmBits == (s.modBits | s.osmBits) | Bit(m)
    ensures ApplyModActions(s.modBits | s.osmBits, r.actions) == r.state.modBits | r.state.osmBits
  {
    RegisterOne(s.modBits | s.osmBits, m);
  }

  /** A step that only registers slot `m`, and whose masks gain exactly
      slot `m`, keeps the modifiers tracked. */
  lemma TrackedAfterRegister(s: State, r: Step, m: nat)
    requires m < NUM_SLOTS && r.actions == [RegisterCode(ExMod(m))]
    requires r.state.modBits | r.state.osmBits == (s.modBits | s.osmBits) | Bit(m)
    ensures KeepsModifiersTracked(s, r)
  {
    RegisteredMasks(s, r, m);
  }

  /** The press keeps QMK's modifiers equal to the held or latched slots. */
  lemma PressMasks(mod: bv8, osm: bv8, m: nat)
    requires m < NUM_SLOTS
    ensures (mod | Bit(m)) | (osm | Bit(m)) == (mod | osm) | Bit(m)
  {
  }

  /** So does the release of a slot that is not latched, which
      unregisters it ... */
  lemma ReleaseUnlatchedMasks(mod: bv8, osm: bv8, m: nat)
    requires m < NUM_SLOTS && osm & Bit(m) == 0
    ensures ApplyModActions(mod | osm, [UnregisterCode(ExMod(m))]) == (mod & !Bit(m)) | osm
  {
    ApplyModActionsSingle(mod | osm, UnregisterCode(ExMod(m)));
    UnregisterSlot(mod | osm, m);
  }

  /** ... and of a latched one, which leaves it registered. */
  lemma ReleaseLatchedMasks(mod: bv8, osm: bv8, m: nat)
    requires m < NUM_SLOTS && osm & Bit(m) != 0
    ensures mod | osm == (mod & !Bit(m)) | osm
  {
    match m
    case 0 => case 1 => case 2 => case 3 =>
    case 4 => case 5 => case 6 => case 7 =>
  }

  lemma OneShotPressTracked(s: State, m: nat, now: uint32)
    requires m < EX_NUM_MODS && |s.lastModTime| == EX_NUM_MODS
    ensures KeepsModifiersTracked(s, OneShotKey(s, m, true, now))
  {
    PressMasks(s.modBits, s.osmBits, m);
    TrackedAfterRegister(s, OneShotKey(s, m, true, now), m);
  }

  lemma UnlatchedReleaseStep(s: State, m: nat)
    requires m < NUM_SLOTS && s.osmBits & Bit(m) == 0
    ensures KeepsModifiersTracked(s, Step(s.(modBits := s.modBits & !Bit(m)), [UnregisterCode(ExMod(m))]))
  {
    ReleaseUnlatchedMasks(s.modBits, s.osmBits, m);
  }

  lemma LatchedReleaseStep(s: State, m: nat)
    requires m < NUM_SLOTS && s.osmBits & Bit(m) != 0
    ensures KeepsModifiersTracked(s, Step(s.(modBits := s.modBits & !Bit(m)), []))
  {
    ReleaseLatchedMasks(s.modBits, s.osmBits, m);
  }

  lemma OneShotReleaseTracked(s: State, m: nat, now: uint32)
    requires m < EX_NUM_MODS && |s.lastModTime| == EX_NUM_MODS
    ensures KeepsModifiersTracked(s, OneShotKey(s, m, false, now))
  {
    if s.osmBits & Bit(m) == 0 {
      UnlatchedReleaseStep(s, m);
    } else {
      LatchedReleaseStep(s, m);
    }
  }

  /** One-shot keys never leave QMK's modifiers out of step with the slots
      held or latched. */
  lemma OneShotKeyTracked(s: State, m: nat, pressed: bool, now: uint32)
    requires m < EX_NUM_MODS && |s.lastModTime| == EX_NUM_MODS
    ensures KeepsModifiersTracked(s, OneShotKey(s, m, pressed, now))
  {
    if pressed {
      OneShotPressTracked(s, m, now);
    } else {
      OneShotReleaseTracked(s, m, now);
    }
  }

  // ---------------------------------------------------------------------
  // Unregistering a set of slots, as clear_osm_mods and the expiry do.

  /** The unregister_code calls for the slots below `n` set in `mask`, in
      ascending slot order. */
  function UnregisterSlots(mask: bv8, n: nat): (acts: seq<Action>)
    requires n <= NUM_SLOTS
    ensures |acts| <= n
  {
    if n == 0 then []
    else UnregisterSlots(mask, n - 1) + (if HasBit(mask, n - 1) then [UnregisterCode(ExMod(n - 1))] else [])
  }

  /** One slot more. */
  lemma UnregisterSlotsStep(mask: bv8, n: nat)
    requires n < NUM_SLOTS
    ensures UnregisterSlots(mask, n + 1)
      == UnregisterSlots(mask, n) + if HasBit(mask, n) then [UnregisterCode(ExMod(n))] else []
  {
  }

  /** Every call is an unregister_code of a modifier keycode. */
  lemma {:induction false} UnregisterSlotsOnly(mask: bv8, n: nat)
    requires n <= NUM_SLOTS
    ensures forall a :: a in UnregisterSlots(mask, n) ==> a.UnregisterCode? && IsModCode(a.code)
  {
    if n > 0 {
      UnregisterSlotsOnly(mask, n - 1);
    }
  }

  /** The calls unregister exactly the slots of the mask below `n`. */
  lemma {:induction false} UnregisterSlotsExactly(mask: bv8, n: nat, k: nat)
    requires n <= NUM_SLOTS && k < NUM_SLOTS
    ensures UnregisterCode(ExMod(k)) in UnregisterSlots(mask, n) <==> k < n && HasBit(mask, k)
  {
    if n > 0 {
      UnregisterSlotsExactly(mask, n - 1, k);
      var tail := if HasBit(mask, n - 1) then [UnregisterCode(ExMod(n - 1))] else [];
      assert UnregisterSlots(mask, n) == UnregisterSlots(mask, n - 1) + tail;
    }
  }

  /** One unregister_code of slot `j` releases that modifier. */
  lemma UnregisterOne(d: bv8, head: seq<Action>, j: nat)
    requires j < NUM_SLOTS
    ensures ApplyModActions(d, head + [UnregisterCode(ExMod(j))]) == ApplyModActions(d, head) & !Bit(j)
  {
    ApplyModActionsAppend(d, head, [UnregisterCode(ExMod(j))]);
    ApplyModActionsSingle(ApplyModActions(d, head), UnregisterCode(ExMod(j)));
    UnregisterSlot(ApplyModActions(d, head), j);
  }

  lemma SlotsStepSet(d: bv8, mask: bv8, n: nat)
    requires 0 < n <= NUM_SLOTS && HasBit(mask, n - 1)
    ensures ApplyModActions(d, UnregisterSlots(mask, n))
         == ApplyModActions(d, UnregisterSlots(mask, n - 1)) & !Bit(n - 1)
  {
    var head := UnregisterSlots(mask, n - 1);
    assert UnregisterSlots(mask, n) == head + [UnregisterCode(ExMod(n - 1))];
    UnregisterOne(d, head, n - 1);
  }

  lemma SlotsStepSkip(d: bv8, mask: bv8, n: nat)
    requires 0 < n <= NUM_SLOTS && !HasBit(mask, n - 1)
    ensures ApplyModActions(d, UnregisterSlots(mask, n)) == ApplyModActions(d, UnregisterSlots(mask, n - 1))
  {
    var head := UnregisterSlots(mask, n - 1);
    assert UnregisterSlots(mask, n) == head + [];
    assert head + [] == head;
  }

  /** One slot more of the walk. */
  lemma SlotsStepBelow(d: bv8, mask: bv8, n: nat)
    requires 0 < n <= NUM_SLOTS
    requires ApplyModActions(d, UnregisterSlots(mask, n - 1)) == d & !(mask & LowBits(n - 1))
    ensures ApplyModActions(d, UnregisterSlots(mask, n)) == d & !(mask & LowBits(n))
  {
    if HasBit(mask, n - 1) {
      SlotsStepSet(d, mask, n);
      LowBitsSet(d, mask, n);
    } else {
      SlotsStepSkip(d, mask, n);
      LowBitsSkip(d, mask, n);
    }
  }

  /** The calls for the slots below `n` release exactly the modifiers of
      the mask below `n`. */
  lemma {:induction false} ApplyUnregisterSlotsBelow(d: bv8, mask: bv8, n: nat)
    requires n <= NUM_SLOTS
    ensures ApplyModActions(d, UnregisterSlots(mask, n)) == d & !(mask & LowBits(n))
  {
    if n > 0 {
      ApplyUnregisterSlotsBelow(d, mask, n - 1);
      SlotsStepBelow(d, mask, n);
    }
  }

  /** All eight slots: the calls release exactly the modifiers of the mask. */
  lemma ApplyUnregisterSlots(d: bv8, mask: bv8)
    ensures ApplyModActions(d, UnregisterSlots(mask, NUM_SLOTS)) == d & !mask
  {
    ApplyUnregisterSlotsBelow(d, mask, NUM_SLOTS);
    assert mask & LowBits(NUM_SLOTS) == mask;
  }

  // ---------------------------------------------------------------------
  // clear_osm_mods and CLR_OSM.

  /** clear_osm_mods: unregister the latched slots that are not held, and
      drop every latch. */
  function ClearOsmMods(s: State): (r: Step)
    ensures r.state == s.(osmBits := 0)
  {
    Step(s.(osmBits := 0), UnregisterSlots(s.osmBits & !s.modBits, NUM_SLOTS))
  }

  /** The unregisters for the slots of `e` not held, slot by slot. */
  lemma UnregistersOf(e: bv8, mod: bv8, k: nat, gone: bool)
    requires k < NUM_SLOTS && (HasBit(e, k) <==> gone)
    ensures UnregisterCode(ExMod(k)) in UnregisterSlots(e & !mod, NUM_SLOTS) <==> gone && !HasBit(mod, k)
  {
    AndNotAt(e, mod, k);
    UnregisterSlotsExactly(e & !mod, NUM_SLOTS, k);
  }

  lemma ClearOsmModsUnregisters(s: State, k: nat)
    requires k < NUM_SLOTS
    ensures UnregisterCode(ExMod(k)) in UnregisterSlots(s.osmBits & !s.modBits, NUM_SLOTS)
        <==> HasBit(s.osmBits, k) && !HasBit(s.modBits, k)
  {
    UnregistersOf(s.osmBits, s.modBits, k, HasBit(s.osmBits, k));
  }

  /** The commit unregisters exactly the latched slots not physically held,
      leaves the held slots and everything else alone, and drops every
      latch. */
  lemma ClearOsmModsExactly(s: State, k: nat)
    requires k < NUM_SLOTS
    ensures var r := ClearOsmMods(s);
      && r.state.osmBits == 0 && r.state.modBits == s.modBits
      && (UnregisterCode(ExMod(k)) in r.actions <==> HasBit(s.osmBits, k) && !HasBit(s.modBits, k))
      && (forall a :: a in r.actions ==> a.UnregisterCode?)
  {
    ClearOsmModsUnregisters(s, k);
    UnregisterSlotsOnly(s.osmBits & !s.modBits, NUM_SLOTS);
  }

  /** Releasing the latched slots that are not held leaves the held ones. */
  lemma CommitMasks(mod: bv8, osm: bv8)
    ensures mod | 0 == (mod | osm) & !(osm & !mod)
  {
  }

  /** A step whose calls are the unregisters of `mask`, and whose masks
      lose exactly `mask`, keeps the modifiers tracked. */
  lemma TrackedAfterRelease(s: State, r: Step, mask: bv8)
    requires r.actions == UnregisterSlots(mask, NUM_SLOTS)
    requires r.state.modBits | r.state.osmBits == (s.modBits | s.osmBits) & !mask
    ensures KeepsModifiersTracked(s, r)
  {
    ApplyUnregisterSlots(s.modBits | s.osmBits, mask);
  }

  lemma ClearOsmModsTracked(s: State)
    ensures KeepsModifiersTracked(s, ClearOsmMods(s))
  {
    CommitMasks(s.modBits, s.osmBits);
    TrackedAfterRelease(s, ClearOsmMods(s), s.osmBits & !s.modBits);
  }

  /** The CLR_OSM branch: a press forgets the pending keys and commits. */
  function ClearOsmKey(s: State, pressed: bool): (r: Step)
    ensures pressed ==> r.state.osmKeys == [] && r.state.osmBits == 0
    ensures !pressed ==> r == Step(s, [])
    ensures r.state.modBits == s.modBits
  {
    if pressed then ClearOsmMods(s.(osmKeys := [])) else Step(s, [])
  }

  lemma ClearOsmKeyTracked(s: State, pressed: bool)
    ensures KeepsModifiersTracked(s, ClearOsmKey(s, pressed))
  {
    if pressed {
      ClearOsmModsTracked(s.(osmKeys := []));
    }
  }

  // ---------------------------------------------------------------------
  // The pending-key list.

  /** The room check before a key is recorded, as keymap.c line 289 writes
      it: against sizeof(ex_osm_keys), the size in BYTES of an array of 32
      two-byte keycodes. */
  predicate PendingGuardAsWritten(count: uint8) {
    count < 2 * EX_NUM_OSM_KEYS
  }

  /** In every state with a slot latched and all 32 records taken, the guard
      as written still lets the next press be stored, at index
      |osmKeys| = 32, which is not a slot of the 32-slot array. */
  lemma PendingGuardAsWrittenOverflows(s: State)
    requires Valid(s) && s.osmBits != 0 && |s.osmKeys| == EX_NUM_OSM_KEYS
    ensures PendingGuardAsWritten(|s.osmKeys| as uint8)
    ensures !PendingHasRoom(|s.osmKeys|)
  {
  }

  /** Such a state exists: one latched slot and 32 presses of A pending. */
  lemma FullPendingListPossible()
    ensures exists s: State :: Valid(s) && s.osmBits != 0 && |s.osmKeys| == EX_NUM_OSM_KEYS
  {
    var keys := seq(EX_NUM_OSM_KEYS, _ => KC_A);
    var s := Initial().(osmBits := 1, osmKeys := keys);
    assert !IsEngineKey(KC_A);
    assert Valid(s);
  }

  /** The intended room check: there is a free slot in the 32-slot array. */
  predicate PendingHasRoom(count: nat) {
    count < EX_NUM_OSM_KEYS
  }

  /** The pending-key branch of process_record_user for a key that is not a
      magic macro. While something is latched, a press records the key if
      there is room; a release with keys pending forgets the first record
      of the key, and the release that empties the list commits. */
  function TrackPending(s: State, keycode: uint16, pressed: bool): (r: Step)
    requires |s.osmKeys| <= EX_NUM_OSM_KEYS
    ensures |r.state.osmKeys| <= EX_NUM_OSM_KEYS
    // Only the pending list and, on a commit, the latches change.
    ensures r.state == s.(osmKeys := r.state.osmKeys, osmBits := r.state.osmBits)
    ensures r.state.osmBits == s.osmBits || r.state.osmBits == 0
  {
    if s.osmBits == 0 then Step(s, [])
    else if pressed then
      if PendingHasRoom(|s.osmKeys|) then Step(s.(osmKeys := s.osmKeys + [keycode]), [])
      else Step(s, [])
    else if |s.osmKeys| > 0 then
      var keys := Lists.RemoveFirst(s.osmKeys, keycode);
      if keys == [] then ClearOsmMods(s.(osmKeys := keys)) else Step(s.(osmKeys := keys), [])
    else Step(s, [])
  }

  /** Nothing is recorded while no slot is latched. */
  lemma TrackPendingIdle(s: State, keycode: uint16, pressed: bool)
    requires |s.osmKeys| <= EX_NUM_OSM_KEYS && s.osmBits == 0
    ensures TrackPending(s, keycode, pressed) == Step(s, [])
  {
  }

  /** While latched, a press appends the key when fewer than 32 are pending
      and is dropped otherwise; the press never commits. */
  lemma TrackPendingPress(s: State, keycode: uint16)
    requires |s.osmKeys| <= EX_NUM_OSM_KEYS && s.osmBits != 0
    ensures var r := TrackPending(s, keycode, true);
      && r.actions == [] && r.state.osmBits == s.osmBits
      && (|s.osmKeys| < EX_NUM_OSM_KEYS ==> r.state.osmKeys == s.osmKeys + [keycode])
      && (|s.osmKeys| == EX_NUM_OSM_KEYS ==> r.state.osmKeys == s.osmKeys)
  {
  }

  /** While latched, a release of a key that is not pending changes nothing. */
  lemma TrackPendingReleaseOther(s: State, keycode: uint16)
    requires |s.osmKeys| <= EX_NUM_OSM_KEYS && s.osmBits != 0 && keycode !in s.osmKeys
    ensures TrackPending(s, keycode, false) == Step(s, [])
  {
  }

  /** While latched, a release of a pending key takes out its first record
      and keeps the others in order; if that was the last one, the latches
      are committed, otherwise nothing is called. */
  lemma TrackPendingRelease(s: State, keycode: uint16)
    requires |s.osmKeys| <= EX_NUM_OSM_KEYS && s.osmBits != 0 && keycode in s.osmKeys
    ensures var r := TrackPending(s, keycode, false);
      var i := Lists.FirstIndex(s.osmKeys, keycode);
      && r.state.osmKeys == s.osmKeys[..i] + s.osmKeys[i + 1..]
      && (|s.osmKeys| == 1 ==> r == ClearOsmMods(s.(osmKeys := [])))
      && (|s.osmKeys| > 1 ==> r.actions == [] && r.state.osmBits == s.osmBits)
  {
    Lists.RemoveFirstSplit(s.osmKeys, keycode);
  }

  /** A step that calls nothing and keeps both masks keeps them tracked. */
  lemma QuietStepTracked(s: State, r: Step)
    requires r.actions == [] && r.state.modBits == s.modBits && r.state.osmBits == s.osmBits
    ensures KeepsModifiersTracked(s, r)
  {
  }

  /** The release that empties the pending list commits the latches. */
  lemma TrackPendingCommitTracked(s: State, keycode: uint16)
    requires |s.osmKeys| <= EX_NUM_OSM_KEYS && s.osmBits != 0 && |s.osmKeys| > 0
    requires Lists.RemoveFirst(s.osmKeys, keycode) == []
    ensures KeepsModifiersTracked(s, TrackPending(s, keycode, false))
  {
    var t := s.(osmKeys := []);
    assert TrackPending(s, keycode, false) == ClearOsmMods(t);
    ClearOsmModsTracked(t);
  }

  /** Every other step of the pending list calls nothing and keeps both masks. */
  lemma TrackPendingQuietTracked(s: State, keycode: uint16, pressed: bool)
    requires |s.osmKeys| <= EX_NUM_OSM_KEYS
    requires s.osmBits == 0 || pressed || |s.osmKeys| == 0
      || Lists.RemoveFirst(s.osmKeys, keycode) != []
    ensures KeepsModifiersTracked(s, TrackPending(s, keycode, pressed))
  {
    QuietStepTracked(s, TrackPending(s, keycode, pressed));
  }

  lemma TrackPendingTracked(s: State, keycode: uint16, pressed: bool)
    requires |s.osmKeys| <= EX_NUM_OSM_KEYS
    ensures KeepsModifiersTracked(s, TrackPending(s, keycode, pressed))
  {
    if s.osmBits != 0 && !pressed && |s.osmKeys| > 0 && Lists.RemoveFirst(s.osmKeys, keycode) == [] {
      TrackPendingCommitTracked(s, keycode);
    } else {
      TrackPendingQuietTracked(s, keycode, pressed);
    }
  }

  /** Keys are pending only while something is latched, and only plain
      keys are ever recorded. */
  lemma TrackPendingValid(s: State, keycode: uint16, pressed: bool)
    requires Valid(s) && !IsEngineKey(keycode)
    ensures Valid(TrackPending(s, keycode, pressed).state)
  {
    var r := TrackPending(s, keycode, pressed);
    forall i | 0 <= i < |r.state.osmKeys| ensures !IsEngineKey(r.state.osmKeys[i]) {
      if !pressed && s.osmBits != 0 && |s.osmKeys| > 0 {
        Lists.RemoveFirstSubset(s.osmKeys, keycode, r.state.osmKeys[i]);
      }
    }
  }

  // ---------------------------------------------------------------------
  // Expiry in housekeeping_task_user.

  /** A held latch clears after 500 ms, a released one after 5000 ms. */
  function Timeout(holding: bool): uint32 {
    if holding then EX_MOD_HOLD_OSM_CLEAR_MS else EX_OSM_TIMEOUT_MS
  }

  /** Whether slot `k` is latched and its time is strictly past its
      timeout, the elapsed time taken modulo 2^32. */
  predicate SlotExpired(osm: bv8, mod: bv8, times: seq<uint32>, now: uint32, k: nat)
    requires k < NUM_SLOTS && |times| == EX_NUM_MODS
  {
    HasBit(osm, k) && Elapsed32(now, times[k]) > Timeout(HasBit(mod, k))
  }

  /** The expired slots below `n`. */
  function ExpiredMask(osm: bv8, mod: bv8, times: seq<uint32>, now: uint32, n: nat): (e: bv8)
    requires n <= NUM_SLOTS && |times| == EX_NUM_MODS
  {
    if n == 0 then 0
    else ExpiredMask(osm, mod, times, now, n - 1)
           | (if SlotExpired(osm, mod, times, now, n - 1) then Bit(n - 1) else 0)
  }

  /** One slot more of the expiry mask, on the slot's bits alone: slot
      `n - 1` is added exactly when it expired, and the slots below keep
      their bits. */
  lemma ExpiredStep(below: bool, after: bool, n: nat, k: nat, was: bool, add: bool)
    requires 0 < n
    requires below <==> k < n - 1 && was
    requires k == n - 1 ==> (add <==> was)
    requires after <==> below || (add && k == n - 1)
    ensures after <==> k < n && was
  {
  }

  lemma {:induction false} ExpiredMaskAt(osm: bv8, mod: bv8, times: seq<uint32>, now: uint32, n: nat, k: nat)
    requires n <= NUM_SLOTS && k < NUM_SLOTS && |times| == EX_NUM_MODS
    ensures HasBit(ExpiredMask(osm, mod, times, now, n), k)
        <==> k < n && SlotExpired(osm, mod, times, now, k)
  {
    if n > 0 {
      ExpiredMaskAt(osm, mod, times, now, n - 1, k);
      var low := ExpiredMask(osm, mod, times, now, n - 1);
      var add := SlotExpired(osm, mod, times, now, n - 1);
      OrMaybeBit(low, ExpiredMask(osm, mod, times, now, n), n - 1, k, add);
      ExpiredStep(HasBit(low, k), HasBit(ExpiredMask(osm, mod, times, now, n), k), n, k,
                  SlotExpired(osm, mod, times, now, k), add);
    }
  }

  /** The slots of housekeeping_task_user at time `now`. */
  function Expired(s: State, now: uint32): bv8
    requires |s.lastModTime| == EX_NUM_MODS
  {
    ExpiredMask(s.osmBits, s.modBits, s.lastModTime, now, NUM_SLOTS)
  }

  lemma ExpiredAt(s: State, now: uint32, k: nat)
    requires |s.lastModTime| == EX_NUM_MODS && k < NUM_SLOTS
    ensures HasBit(Expired(s, now), k) <==> SlotExpired(s.osmBits, s.modBits, s.lastModTime, now, k)
  {
    ExpiredMaskAt(s.osmBits, s.modBits, s.lastModTime, now, NUM_SLOTS, k);
  }

  /** The expiry part of housekeeping_task_user: only when something is
      latched and no key is pending, every expired latch is dropped and the
      expired slots not held are unregistered. */
  function ExpireOneShot(s: State, now: uint32): (r: Step)
    requires |s.lastModTime| == EX_NUM_MODS
  {
    if s.osmBits != 0 && s.osmKeys == [] then
      var e := Expired(s, now);
      Step(s.(osmBits := s.osmBits & !e), UnregisterSlots(e & !s.modBits, NUM_SLOTS))
    else Step(s, [])
  }

  /** With nothing latched, or with keys pending, expiry does nothing. */
  lemma ExpireOneShotIdle(s: State, now: uint32)
    requires |s.lastModTime| == EX_NUM_MODS
    requires s.osmBits == 0 || s.osmKeys != []
    ensures ExpireOneShot(s, now) == Step(s, [])
  {
  }

  /** Otherwise only the latches change: the expired ones are dropped and
      the expired slots not held are unregistered, in slot order. */
  lemma ExpireOneShotActive(s: State, now: uint32)
    requires |s.lastModTime| == EX_NUM_MODS
    requires s.osmBits != 0 && s.osmKeys == []
    ensures var e := Expired(s, now);
      ExpireOneShot(s, now) == Step(s.(osmBits := s.osmBits & !e), UnregisterSlots(e & !s.modBits, NUM_SLOTS))
  {
  }

  lemma DropAt(osm: bv8, e: bv8, k: nat, gone: bool)
    requires k < NUM_SLOTS && (HasBit(e, k) <==> gone)
    ensures HasBit(osm & !e, k) <==> HasBit(osm, k) && !gone
  {
    AndNotAt(osm, e, k);
  }

  lemma LatchAfterExpiry(s: State, now: uint32, k: nat)
    requires |s.lastModTime| == EX_NUM_MODS && k < NUM_SLOTS
    ensures HasBit(s.osmBits & !Expired(s, now), k)
        <==> HasBit(s.osmBits, k) && !SlotExpired(s.osmBits, s.modBits, s.lastModTime, now, k)
  {
    ExpiredAt(s, now, k);
    DropAt(s.osmBits, Expired(s, now), k, SlotExpired(s.osmBits, s.modBits, s.lastModTime, now, k));
  }

  /** Slot by slot, a latch survives unless it expired... */
  lemma ExpireOneShotLatch(s: State, now: uint32, k: nat)
    requires |s.lastModTime| == EX_NUM_MODS && k < NUM_SLOTS
    requires s.osmBits != 0 && s.osmKeys == []
    ensures HasBit(ExpireOneShot(s, now).state.osmBits, k)
        <==> HasBit(s.osmBits, k) && !SlotExpired(s.osmBits, s.modBits, s.lastModTime, now, k)
  {
    ExpireOneShotActive(s, now);
    LatchAfterExpiry(s, now, k);
  }

  lemma UnregistersExpired(s: State, now: uint32, k: nat)
    requires |s.lastModTime| == EX_NUM_MODS && k < NUM_SLOTS
    ensures UnregisterCode(ExMod(k)) in UnregisterSlots(Expired(s, now) & !s.modBits, NUM_SLOTS)
        <==> SlotExpired(s.osmBits, s.modBits, s.lastModTime, now, k) && !HasBit(s.modBits, k)
  {
    ExpiredAt(s, now, k);
    UnregistersOf(Expired(s, now), s.modBits, k, SlotExpired(s.osmBits, s.modBits, s.lastModTime, now, k));
  }

  /** ... and a modifier is unregistered exactly when its latch expired
      while its key was not held. */
  lemma ExpireOneShotUnregisters(s: State, now: uint32, k: nat)
    requires |s.lastModTime| == EX_NUM_MODS && k < NUM_SLOTS
    requires s.osmBits != 0 && s.osmKeys == []
    ensures UnregisterCode(ExMod(k)) in ExpireOneShot(s, now).actions
        <==> SlotExpired(s.osmBits, s.modBits, s.lastModTime, now, k) && !HasBit(s.modBits, k)
  {
    ExpireOneShotActive(s, now);
    UnregistersExpired(s, now, k);
  }

  /** The timeouts are strict: a held latch stamped at `t` survives at
      t + 500 and expires at t + 501; a released one survives at t + 5000
      and expires at t + 5001, across the 32-bit wrap of the timer too. */
  lemma ExpiryBoundaries(osm: bv8, mod: bv8, times: seq<uint32>, k: nat)
    requires |times| == EX_NUM_MODS && k < NUM_SLOTS && HasBit(osm, k)
    ensures var t := times[k];
      var limit := if HasBit(mod, k) then 500 else 5000;
      && !SlotExpired(osm, mod, times, ((t + limit) % TIMER_PERIOD) as uint32, k)
      && SlotExpired(osm, mod, times, ((t + limit + 1) % TIMER_PERIOD) as uint32, k)
  {
    var t := times[k];
    var limit := if HasBit(mod, k) then 500 else 5000;
    assert Elapsed32(((t + limit) % TIMER_PERIOD) as uint32, t) == limit;
    assert Elapsed32(((t + limit + 1) % TIMER_PERIOD) as uint32, t) == limit + 1;
  }

  /** Dropping the latches of `e` and unregistering those not held keeps
      QMK's modifiers in step, whichever slots `e` holds. */
  lemma DropMasks(mod: bv8, osm: bv8, e: bv8)
    ensures mod | (osm & !e) == (mod | osm) & !(e & !mod)
  {
  }

  lemma DropLatchesTracked(s: State, e: bv8)
    ensures KeepsModifiersTracked(s, Step(s.(osmBits := s.osmBits & !e), UnregisterSlots(e & !s.modBits, NUM_SLOTS)))
  {
    DropMasks(s.modBits, s.osmBits, e);
    TrackedAfterRelease(s, Step(s.(osmBits := s.osmBits & !e), UnregisterSlots(e & !s.modBits, NUM_SLOTS)), e & !s.modBits);
  }

  lemma ExpireOneShotTracked(s: State, now: uint32)
    requires |s.lastModTime| == EX_NUM_MODS
    ensures KeepsModifiersTracked(s, ExpireOneShot(s, now))
  {
    if s.osmBits != 0 && s.osmKeys == [] {
      ExpireOneShotActive(s, now);
      DropLatchesTracked(s, Expired(s, now));
    }
  }

  // ---------------------------------------------------------------------
  // The invariant.

  /** One-shot keys keep the invariant: a press latches its slot, so the
      pending list may stay non-empty. */
  lemma OneShotKeyValid(s: State, m: nat, pressed: bool, now: uint32)
    requires Valid(s) && m < EX_NUM_MODS
    ensures Valid(OneShotKey(s, m, pressed, now).state)
  {
    if pressed {
      SetBitAt(s.osmBits, m, m);
    }
  }

  /** CLR_OSM empties the pending list before it drops the latches. */
  lemma ClearOsmKeyValid(s: State, pressed: bool)
    requires Valid(s)
    ensures Valid(ClearOsmKey(s, pressed).state)
  {
  }

  /** Expiry runs only with no key pending, so dropping latches keeps the
      invariant. */
  lemma ExpireOneShotValid(s: State, now: uint32)
    requires Valid(s)
    ensures Valid(ExpireOneShot(s, now).state)
  {
    if s.osmBits != 0 && s.osmKeys == [] {
      ExpireOneShotActive(s, now);
    }
  }
}
