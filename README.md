# windexlight Cantor keymap, modelled in Dafny

This model covers the user keymap `keymap.c` of the windexlight QMK userspace for the Cantor split keyboard. That keymap replaces QMK's own layer and one-shot-modifier handling with its own. It also adds a raw-HID side channel, through which a host tool receives a shadow of every report and a diagnostic packet.

The model has two layers:

- **Pure specification functions** over a value `Engine.State` that holds the file-scope globals. Each one returns `Step(state, actions)`: the new globals, and the calls made into the rest of the firmware, in order.
- **The class `Keymap.Keymap`**. It holds the same globals in place:
  - `layer_stack`, `last_mod_time`, `ex_osm_keys`, `raw_hid_report` and the shadow report's bitmap are arrays;
  - the counters, masks and flags are fields;
  - the calls go into an appended log, `effects`.

  Each entry point QMK calls is a method. Its loops carry invariants, and its `ensures` ties the new globals and the log to the specification function of the old globals.

The components:

- **Layer stack** (`LayerStack`). Momentary layer keys `EX_MO(n)`:
  - a press pushes the layer onto a six-entry stack while there is room;
  - a release removes the first entry of that layer and shifts the rest down;
  - the active layer is the top of the stack, or 0;
  - layer `_EXT` keeps the host's scroll lock set exactly while it is held.
- **One-shot modifiers** (`OneShot`). Each of the eight modifier slots has a held bit (`ex_mod_bits`) and a latched bit (`ex_osm_bits`). A latched modifier stays registered until one of these happens:
  - every plain key typed under it has been released;
  - CLR_OSM is pressed;
  - it times out: 500 ms while its key is still held, 5000 ms after the key was released.
- **Pending keys** (`OneShot.TrackPending`). The plain keys pressed while something is latched, in order. The release that empties the list commits the latches through `clear_osm_mods`.
- **Report multiplexer** (`Reports`):
  - the real keyboard, NKRO and extra reports are forwarded unless suppressed;
  - while a host tool has armed the channel (first byte 0xBE, answered with 0xEF), every report is mirrored into the NKRO shadow bitmap and sent over raw HID, followed by the diagnostic packet `[1, active_layer, MATRIX_ROWS, MATRIX_COLS, matrix…]`;
  - 0xBF disarms the channel, and so does more than 1500 ms without a heartbeat.
- **Tables**:
  - `UsageTable.Usage2Keycode` is `USAGE2KEYCODE`;
  - `AltRepeat.AltRepeatKeycode` is `get_alt_repeat_key_keycode_user`;
  - `CapsWord.CapsWordPress` is `caps_word_press_user`.
- **Dispatch** (`Dispatch.ProcessRecord` and `Dispatch.Housekeeping`) assembles `process_record_user` and `housekeeping_task_user` from the parts. It includes:
  - the Alternate Repeat fix-up;
  - the `magic` flag of the macro keys.

Invariants proved over the whole keymap:

- `Engine.Valid`, kept by every key and every housekeeping step:
  - the stack holds at most six layer ids;
  - at most 32 keys are pending, and all of them are plain keys;
  - keys are pending only while a modifier is latched.
- `Engine.KeepsModifiersTracked`: after every key press, key release and housekeeping step, the modifier keycodes registered with QMK are exactly the slots that are held or latched.

QMK's constants are written out in `Engine` and `Keycodes`:

| Constant | Value |
|---|---|
| SAFE_RANGE | 0x7E40 |
| NKRO_REPORT_BITS | 30 |
| RAW_EPSIZE | 32 |
| REPORT_ID_NKRO | 6 |
| Cantor matrix | 8 rows of 6 columns, one byte per row |

Other things to know:

- **Inputs.** The timer, the host's scroll-lock state, the repeat-key count, the current modifiers and the matrix rows are method parameters.
- **Elapsed time** is computed modulo 2^32, as `timer_elapsed32` does.
- **Unmapped usage.** An unmapped nonzero usage is not ignored: `USAGE2KEYCODE` maps it to 0 and `send_extra_user` then sets bit 0 of byte 0 of the shadow bitmap (`Reports.ExtraBitsUnmapped`).
- **Magic Space.** A magic Space press calls `add_oneshot_mods` and `register_mods`. The `else unregister_mods` next to them (keymap.c line 275) sits inside a branch that runs only on a press, so it can never execute, and the model has no such call.
- **`!` and the magic key.** The table of alternates in the comment at keymap.c line 623 says `! *` types `!==`, but the code returns KC_EQL for KC_EXLM (lines 716-723), so `! *` types `!=`. The model and `AltRepeat.DocumentedMacroAlternates` follow the code.

## Model

| member | source | states |
|---|---|---|
| Types.Elapsed32Wraps | keyboards/cantor/keymaps/windexlight/keymap.c:430 | timer_elapsed32 is the unsigned 32-bit difference: it equals (now - since) mod 2^32, and adding it to `since` on the 32-bit timer gives back `now` |
| Masks.BitIsShift | keyboards/cantor/keymaps/windexlight/keymap.c:200-201 | the slot bit table is QMK's `1 << m` |
| Keycodes.ExMo | keyboards/cantor/keymaps/windexlight/keymap.c:96 | EX_MO(n) is a layer key naming layer n |
| Keycodes.ExOsm | keyboards/cantor/keymaps/windexlight/keymap.c:97 | EX_OSM(kc) is a one-shot key, chosen by the low three bits of kc |
| Keycodes.ExMod | keyboards/cantor/keymaps/windexlight/keymap.c:98 | EX_MOD(m) is one of the eight modifier keycodes 0xE0..0xE7 |
| Keycodes.OneShotKeyRoundTrip | keyboards/cantor/keymaps/windexlight/keymap.c:97-98 | for a modifier keycode, EX_MOD of the slot of EX_OSM(kc) is kc again |
| Keycodes.BandsDisjoint | keyboards/cantor/keymaps/windexlight/keymap.c:48-53 | the layer, one-shot and CLR_OSM codes do not overlap, and all lie from SAFE_RANGE up to, not including, the first macro code |
| Lists.RemoveFirst | keyboards/cantor/keymaps/windexlight/keymap.c:181-189 | removing a present key shortens the list by one; removing an absent key changes nothing |
| Lists.RemoveFirstCount | keyboards/cantor/keymaps/windexlight/keymap.c:181-189 | removal takes out exactly one copy of the key and keeps every other element (multiset) |
| Lists.RemoveFirstSplit | keyboards/cantor/keymaps/windexlight/keymap.c:181-189 | removal closes the gap at the first match: everything before and after it stays in order |
| Engine.StaticAsserts | keyboards/cantor/keymaps/windexlight/keymap.c:380-386 | the shadow report fills one raw packet, the matrix fits after the four header bytes, rows and columns fit a byte, and REPORT_ID_NKRO is 6 and differs from the diagnostic id 1 |
| Engine.Initial | keyboards/cantor/keymaps/windexlight/keymap.c:106-123 | the boot globals satisfy the invariant: empty stack and pending list, no held or latched slot, both channel flags off |
| Engine.ModBit | keyboards/cantor/keymaps/windexlight/keymap.c:200-201 | the tracked bit is nonzero exactly for the eight modifier keycodes 0xE0..0xE7, where it agrees with QMK's MOD_BIT = 1 << (code & 7); keymap.c passes modifier keycodes to MOD_BIT at lines 201 and 570, while at lines 412 and 426 it passes the slot number m, where MOD_BIT(m) = 1 << m is Bit(m) (Masks.BitIsShift) |
| Engine.ModBitOfSlot | keyboards/cantor/keymaps/windexlight/keymap.c:200-201 | MOD_BIT(EX_MOD(m)) is the bit of slot m |
| LayerStack.NewStack | keyboards/cantor/keymaps/windexlight/keymap.c:171-173 | the new stack fits six entries; a release removes the first match; a press appends only when there is room, and otherwise leaves the stack unchanged |
| LayerStack.LayerKey | keyboards/cantor/keymaps/windexlight/keymap.c:163-197 | a layer key changes only the stack and the active layer, keeps the stack within bounds, and its last call is layer_move to the new active layer |
| LayerStack.LayerKeyValid | keyboards/cantor/keymaps/windexlight/keymap.c:171-173 | layer keys keep the invariant, so the stack never exceeds six entries |
| LayerStack.LayerPress | keyboards/cantor/keymaps/windexlight/keymap.c:171-174 | a press appends only while fewer than six layers are held, and the pressed layer becomes active even when the push was dropped |
| LayerStack.FullStackPressNotOnTop | keyboards/cantor/keymaps/windexlight/keymap.c:171-174 | on a full stack the pressed layer is active but not on top of the stack |
| LayerStack.LayerRelease | keyboards/cantor/keymaps/windexlight/keymap.c:181-194 | a release removes only the first entry of the layer, keeps the rest in order, and activates the new top, or layer 0 |
| LayerStack.ScrollLockFollowsExt | keyboards/cantor/keymaps/windexlight/keymap.c:166-179 | at most one KC_SCRL tap; after a key of layer _EXT the host's scroll lock equals "pressed"; other layers leave scroll lock alone |
| LayerStack.StackReleaseOrder | keyboards/cantor/keymaps/windexlight/keymap.c:171-189 | two new layers pushed and released in either order give back the original stack, with the other layer on top in between |
| LayerStack.ReleaseOrderIndependent | keyboards/cantor/keymaps/windexlight/keymap.c:163-197 | while two layer keys are held the later one is active; releasing either restores the other; releasing both restores the original stack and activates its top, or 0 when it is empty |
| LayerStack.TwoLayerKeysExample | keyboards/cantor/keymaps/windexlight/keymap.c:163-197 | holding EX_MO(2) then EX_MO(3), then releasing 2 and then 3, makes layers 2, 3, 3 and 0 active |
| OneShot.OneShotKey | keyboards/cantor/keymaps/windexlight/keymap.c:198-213 | a one-shot key changes only the two slot masks and the time stamps, and makes at most one call |
| OneShot.OneShotPress | keyboards/cantor/keymaps/windexlight/keymap.c:202-206 | slot by slot: a press adds slot m to both masks, leaves the others alone, and stamps only slot m |
| OneShot.OneShotRelease | keyboards/cantor/keymaps/windexlight/keymap.c:207-212 | a release unregisters exactly when the slot is not latched, clears only its held bit, and keeps the latches and time stamps |
| OneShot.OneShotKeyTracked | keyboards/cantor/keymaps/windexlight/keymap.c:198-213 | one-shot keys keep the modifiers registered with QMK equal to the held-or-latched slots |
| OneShot.UnregisterSlotsExactly | keyboards/cantor/keymaps/windexlight/keymap.c:411-418 | the walk unregisters exactly the slots of the mask, and only below n |
| OneShot.ApplyUnregisterSlots | keyboards/cantor/keymaps/windexlight/keymap.c:411-418 | the walk's calls release exactly the modifiers of the mask |
| OneShot.ClearOsmMods | keyboards/cantor/keymaps/windexlight/keymap.c:409-420 | clear_osm_mods changes nothing but the latches, which end at 0 |
| OneShot.ClearOsmModsExactly | keyboards/cantor/keymaps/windexlight/keymap.c:409-420 | clear_osm_mods unregisters exactly the slots that are latched and not held, calls nothing else, keeps ex_mod_bits, and ends with ex_osm_bits == 0 |
| OneShot.ClearOsmModsTracked | keyboards/cantor/keymaps/windexlight/keymap.c:409-420 | the commit keeps QMK's modifiers in step with the held slots |
| OneShot.ClearOsmKey | keyboards/cantor/keymaps/windexlight/keymap.c:214-219 | a CLR_OSM press empties the pending list and drops every latch; a release changes nothing; the held bits stay |
| OneShot.ClearOsmKeyTracked | keyboards/cantor/keymaps/windexlight/keymap.c:214-219 | CLR_OSM keeps the modifiers tracked |
| OneShot.PendingGuardAsWrittenOverflows | keyboards/cantor/keymaps/windexlight/keymap.c:289 | in every valid state with a slot latched and all 32 records taken, the guard as written, `count < sizeof(ex_osm_keys)` = 64, still admits the store, at index 32, which is not a slot of the 32-slot array |
| OneShot.FullPendingListPossible | keyboards/cantor/keymaps/windexlight/keymap.c:288-291 | a valid state with a slot latched and all 32 records taken exists |
| OneShot.TrackPending | keyboards/cantor/keymaps/windexlight/keymap.c:286-307 | pending-key handling changes only the list and the latches, keeps at most 32 entries, and either keeps the latches or drops all of them |
| OneShot.TrackPendingIdle | keyboards/cantor/keymaps/windexlight/keymap.c:287 | with nothing latched, nothing is recorded and nothing is called |
| OneShot.TrackPendingPress | keyboards/cantor/keymaps/windexlight/keymap.c:288-291 | while latched, a press appends the key if fewer than 32 are pending and is dropped otherwise; it never commits |
| OneShot.TrackPendingReleaseOther | keyboards/cantor/keymaps/windexlight/keymap.c:292-301 | the release of a key that is not pending changes nothing |
| OneShot.TrackPendingRelease | keyboards/cantor/keymaps/windexlight/keymap.c:292-305 | the release of a pending key removes its first record and keeps the order of the rest; the release that empties the list is exactly clear_osm_mods; any other release calls nothing |
| OneShot.TrackPendingTracked | keyboards/cantor/keymaps/windexlight/keymap.c:286-307 | pending-key handling keeps the modifiers tracked |
| OneShot.TrackPendingValid | keyboards/cantor/keymaps/windexlight/keymap.c:286-307 | keys are pending only while something is latched, and only plain keys are recorded |
| OneShot.ExpiredMaskAt | keyboards/cantor/keymaps/windexlight/keymap.c:425-435 | the expiry mask holds exactly the latched slots whose elapsed time is past their timeout |
| OneShot.ExpireOneShotIdle | keyboards/cantor/keymaps/windexlight/keymap.c:424 | with nothing latched, or with keys pending, expiry does nothing |
| OneShot.ExpireOneShotLatch | keyboards/cantor/keymaps/windexlight/keymap.c:427-431 | slot by slot, a latch survives exactly when it did not expire |
| OneShot.ExpireOneShotUnregisters | keyboards/cantor/keymaps/windexlight/keymap.c:428-434 | a modifier is unregistered exactly when its latch expired while its key was not held |
| OneShot.ExpiryBoundaries | keyboards/cantor/keymaps/windexlight/keymap.c:429-430 | a held latch stamped at t survives at t+500 and expires at t+501; a released one survives at t+5000 and expires at t+5001; this holds across the 32-bit wrap |
| OneShot.ExpireOneShotTracked | keyboards/cantor/keymaps/windexlight/keymap.c:424-438 | expiry keeps the modifiers tracked |
| OneShot.OneShotKeyValid | keyboards/cantor/keymaps/windexlight/keymap.c:198-213 | one-shot keys keep the invariant |
| OneShot.ClearOsmKeyValid | keyboards/cantor/keymaps/windexlight/keymap.c:214-219 | CLR_OSM keeps the invariant: the list is emptied before the latches drop |
| OneShot.ExpireOneShotValid | keyboards/cantor/keymaps/windexlight/keymap.c:424-438 | expiry keeps the invariant, since it runs only with no key pending |
| UsageTable.Usage2Keycode | keyboards/cantor/keymaps/windexlight/keymap.c:445-510 | the result is KC_NO or a keycode of the system and consumer band |
| UsageTable.Keycode2Usage | keyboards/cantor/keymaps/windexlight/keymap.c:445-510 | the reverse table is nonzero exactly on the band |
| UsageTable.UsageRoundTrip | keyboards/cantor/keymaps/windexlight/keymap.c:445-510 | every usage the table maps comes back from its keycode |
| UsageTable.KeycodeRoundTrip | keyboards/cantor/keymaps/windexlight/keymap.c:445-510 | every keycode of the band is reached, from its own usage |
| UsageTable.Usage2KeycodeInjective | keyboards/cantor/keymaps/windexlight/keymap.c:445-510 | distinct mapped usages give distinct keycodes |
| AltRepeat.AltRepeatKeycode | keyboards/cantor/keymaps/windexlight/keymap.c:630-741 | with a modifier other than Shift (apart from left Alt alone) the result is KC_TRNS, and the result is never one of the keymap's own layer or one-shot keys |
| AltRepeat.DocumentedLetterAlternates | keyboards/cantor/keymaps/windexlight/keymap.c:596-602 | with at most Shift held, each letter of the documented table gives its documented alternate: A/O, O/A, E/U, U/E, L and S to K, C, D, G, P to Y, Y to P, R to L |
| AltRepeat.DocumentedMacroAlternates | keyboards/cantor/keymaps/windexlight/keymap.c:596-629 | with at most Shift held, M gives MENT, Q QUEN, T TMENT, Space THE, = ===, ! =, ` the code fence, # #include and & &nbsp; |
| AltRepeat.DocumentedShiftDependentAlternates | keyboards/cantor/keymaps/windexlight/keymap.c:596-629 | without Shift, I gives ION and dot gives ../; with Shift held, quote (that is, `"`) gives the docstring macro |
| Dispatch.MagicThenRepeatTypesN | keyboards/cantor/keymaps/windexlight/keymap.c:606-613 | after A, D, E or O the magic key types a vowel or Y whose fix-up makes N the next key the Repeat key types (AON, DYN, EUN, OAN) |
| AltRepeat.AltLayerPairsSymmetric | keyboards/cantor/keymaps/windexlight/keymap.c:633-639 | with left Alt, U/O and N/I are swapped in pairs |
| AltRepeat.VowelSwapInvolution | keyboards/cantor/keymaps/windexlight/keymap.c:657-660 | with at most Shift held, the vowel swaps A/O and E/U undo each other |
| AltRepeat.ShiftIrrelevantElsewhere | keyboards/cantor/keymaps/windexlight/keymap.c:640-731 | Shift changes the result only for N, I, dot, comma and quote |
| AltRepeat.ShiftToggleOnN | keyboards/cantor/keymaps/windexlight/keymap.c:650-654 | after N the magic key toggles Shift |
| CapsWord.CapsWordPress | keyboards/cantor/keymaps/windexlight/keymap.c:566-589 | Shift is the only modifier ever added, and only to a key that continues Caps Word |
| CapsWord.ShiftsExactlyLetters | keyboards/cantor/keymaps/windexlight/keymap.c:569-571 | Shift is added exactly for A..Z |
| CapsWord.DigitsContinueEngineKeysStop | keyboards/cantor/keymaps/windexlight/keymap.c:574-587 | digits continue Caps Word unshifted; the keymap's own keys end it |
| Reports.SetCodeBitAt | keyboards/cantor/keymaps/windexlight/keymap.c:372 | setting a code sets exactly that code's bit, if it has one, and keeps every other bit |
| Reports.ClearCodeBitAt | keyboards/cantor/keymaps/windexlight/keymap.c:361 | clearing a code clears exactly that code's bit and keeps every other bit |
| Reports.MarkKeysAt | keyboards/cantor/keymaps/windexlight/keymap.c:331-337 | marking keys sets exactly the nonzero codes among them |
| Reports.KeyboardBitsAt | keyboards/cantor/keymaps/windexlight/keymap.c:328-338 | the keyboard shadow holds exactly the report's nonzero keys that have a bit |
| Reports.ClearCodesAt | keyboards/cantor/keymaps/windexlight/keymap.c:359-363 | a clearing loop clears exactly the codes from lo up to hi - 1 |
| Reports.ClearExtraBandAt | keyboards/cantor/keymaps/windexlight/keymap.c:358-368 | usage 0 clears exactly the system and consumer band |
| Reports.ExtraBitsPress | keyboards/cantor/keymaps/windexlight/keymap.c:369-373 | a nonzero usage sets the bit of its keycode and no other |
| Reports.ExtraPressRelease | keyboards/cantor/keymaps/windexlight/keymap.c:358-373 | pressing and releasing an extra key leaves its bit clear and keeps every bit outside the band |
| Reports.ExtraBitsUnmapped | keyboards/cantor/keymaps/windexlight/keymap.c:370-372 | a usage the table does not know sets the bit of keycode 0 |
| Reports.ShadowPacketRoundTrip | keyboards/cantor/keymaps/windexlight/keymap.c:381 | the shadow packet carries the whole report and nothing else, in both directions |
| Reports.DiagnosticLayout | keyboards/cantor/keymaps/windexlight/keymap.c:387-391 | over a buffer that is zero past the matrix, the packet is [1, active_layer, 8, 6, matrix rows..., zeros] |
| Reports.ForwardExactly | keyboards/cantor/keymaps/windexlight/keymap.c:324-326 | the real sender is called exactly when real reports are not suppressed |
| Reports.SendKeyboardIdempotent | keyboards/cantor/keymaps/windexlight/keymap.c:328-338 | the keyboard shadow depends only on the report: sending it twice leaves the state of the first send |
| Reports.SendNkroMirrors | keyboards/cantor/keymaps/windexlight/keymap.c:347-349 | while armed, the NKRO shadow is a copy of the report and its packet holds the report's own bytes |
| Reports.ArmAcknowledges | keyboards/cantor/keymaps/windexlight/keymap.c:396-402 | 0xBE sets both flags, records the heartbeat, and sends one packet that is zero except byte 1 = 0xEF |
| Reports.DisarmOrIgnore | keyboards/cantor/keymaps/windexlight/keymap.c:403-406 | 0xBF clears both flags and sends nothing; any other first byte changes nothing |
| Reports.HeartbeatBoundary | keyboards/cantor/keymaps/windexlight/keymap.c:439-442 | a heartbeat 1500 ms old keeps the channel armed and one 1501 ms old disarms it, across the timer wrap too |
| Reports.ChannelFlagsAgree | keyboards/cantor/keymaps/windexlight/keymap.c:398-405 | raw_hid_receive and the heartbeat timeout move the two flags together |
| Reports.ForwardOrMirror | keyboards/cantor/keymaps/windexlight/keymap.c:323-340 | with the flags in step, a report is either forwarded or mirrored: never both, never neither |
| Reports.MirrorValid | keyboards/cantor/keymaps/windexlight/keymap.c:323-377 | the report paths keep the invariant and change no mask, pending key or stack entry |
| Reports.RawHidReceiveValid | keyboards/cantor/keymaps/windexlight/keymap.c:395-407 | raw_hid_receive keeps the invariant |
| Reports.HeartbeatTimeoutValid | keyboards/cantor/keymaps/windexlight/keymap.c:439-442 | the heartbeat timeout keeps the invariant |
| Dispatch.LayerOf | keyboards/cantor/keymaps/windexlight/keymap.c:164 | the layer a layer key names, which EX_MO maps back to the key |
| Dispatch.ProcessRecordReturns | keyboards/cantor/keymaps/windexlight/keymap.c:309 | process_record_user returns false exactly for layer, one-shot and CLR_OSM codes |
| Dispatch.ProcessRecordValid | keyboards/cantor/keymaps/windexlight/keymap.c:158-310 | every key keeps the invariant |
| Dispatch.ProcessRecordTracked | keyboards/cantor/keymaps/windexlight/keymap.c:158-310 | no key leaves a modifier registered that is neither held nor latched, or drops one that still is |
| Dispatch.LayerKeyTracked | keyboards/cantor/keymaps/windexlight/keymap.c:163-197 | layer keys touch no modifier |
| Dispatch.PlainKeyTracked | keyboards/cantor/keymaps/windexlight/keymap.c:220-307 | plain keys keep the modifiers tracked |
| Dispatch.MagicPressNotRecorded | keyboards/cantor/keymaps/windexlight/keymap.c:237-286 | a magic press types its macro and changes no global; its release goes to the pending-key list |
| Dispatch.RepeatFixupExactly | keyboards/cantor/keymaps/windexlight/keymap.c:230-236 | the last key is set to N exactly after an alternate repeat of A, E, I, O, U or Y with at most Shift held |
| Dispatch.HousekeepingValid | keyboards/cantor/keymaps/windexlight/keymap.c:422-443 | housekeeping keeps the invariant |
| Dispatch.HousekeepingTracked | keyboards/cantor/keymaps/windexlight/keymap.c:422-443 | housekeeping keeps the modifiers tracked |
| Dispatch.HousekeepingDisarms | keyboards/cantor/keymaps/windexlight/keymap.c:439-442 | after housekeeping each flag is set exactly when it was set before and the heartbeat is at most 1500 ms old |
| Dispatch.OneShotShiftScenario | keyboards/cantor/keymaps/windexlight/keymap.c:198-305 | tap one-shot Shift, then type a key: Shift is registered, it stays latched after its release, the key is recorded, and the key's release unregisters Shift and clears every mask and the list |
| Keymap.RemoveFirstInPlace | keyboards/cantor/keymaps/windexlight/keymap.c:181-189 | the in-place shift leaves exactly the list without its first match in the used prefix, and leaves the slots past the old count alone |
| Keymap.UnregisterLatched | keyboards/cantor/keymaps/windexlight/keymap.c:411-418 | the loop's calls are the unregisters of the latched slots that are not held, in slot order |
| Keymap.ExpireLatched | keyboards/cantor/keymaps/windexlight/keymap.c:425-437 | the loop leaves the latches without the expired slots, and its calls are the unregisters of the expired slots that are not held |
| Keymap.TimedOut | keyboards/cantor/keymaps/windexlight/keymap.c:427-430 | the nested test holds exactly for an expired slot |
| Keymap.DropSlot | keyboards/cantor/keymaps/windexlight/keymap.c:431-434 | one iteration extends the cleared latches and the unregisters by one slot |
| Keymap.CopyInto | keyboards/cantor/keymaps/windexlight/keymap.c:391 | memcpy puts the source bytes at the offset and keeps the rest |
| Keymap.MarkKeysInPlace | keyboards/cantor/keymaps/windexlight/keymap.c:331-337 | the key loop writes the bitmap with the report's keys marked |
| Keymap.ClearCodesInPlace | keyboards/cantor/keymaps/windexlight/keymap.c:359-363 | a clearing loop clears the codes from lo up to hi - 1 in place |
| Keymap.WriteDiagnosticInPlace | keyboards/cantor/keymaps/windexlight/keymap.c:387-391 | the header bytes and the matrix copy write the diagnostic packet over the buffer |
| Keymap.FillAck | keyboards/cantor/keymaps/windexlight/keymap.c:400-401 | memset then byte 1: the buffer is the acknowledgement |
| Keymap.Keymap.constructor | keyboards/cantor/keymaps/windexlight/keymap.c:106-123 | the globals start as the boot state, which satisfies the invariant, with nothing called yet |
| Keymap.Keymap.ProcessRecordUser | keyboards/cantor/keymaps/windexlight/keymap.c:158-310 | process_record_user keeps the invariant, updates the globals and the calls as the specification does, and returns its value |
| Keymap.Keymap.ProcessKey | keyboards/cantor/keymaps/windexlight/keymap.c:162-309 | the four branches, each updating the globals as the specification does |
| Keymap.Keymap.LayerKeyEvent | keyboards/cantor/keymaps/windexlight/keymap.c:163-197 | the layer branch updates the stack, the active layer and the calls as LayerKey says |
| Keymap.Keymap.LayerPress | keyboards/cantor/keymaps/windexlight/keymap.c:165-174 | the tap if needed, the push if there is room, the pressed layer active, then layer_move |
| Keymap.Keymap.LayerRelease | keyboards/cantor/keymaps/windexlight/keymap.c:175-196 | the tap if needed, the first entry removed, the new top or 0 active, then layer_move |
| Keymap.Keymap.PopLayer | keyboards/cantor/keymaps/windexlight/keymap.c:181-194 | the array prefix is the stack without its first match, and the active layer its new top, or 0 |
| Keymap.Keymap.OneShotEvent | keyboards/cantor/keymaps/windexlight/keymap.c:198-213 | the one-shot branch updates the masks, time stamps and calls as OneShotKey says |
| Keymap.Keymap.OneShotPress | keyboards/cantor/keymaps/windexlight/keymap.c:202-206 | register_code, the slot held and latched, its time stamped; nothing else changes |
| Keymap.Keymap.OneShotRelease | keyboards/cantor/keymaps/windexlight/keymap.c:207-212 | the held bit cleared, and unregister_code unless the slot is latched; nothing else changes |
| Keymap.Keymap.ClearOsmMods | keyboards/cantor/keymaps/windexlight/keymap.c:409-420 | clear_osm_mods on the globals, as the specification says |
| Keymap.Keymap.ClearOsmKeyEvent | keyboards/cantor/keymaps/windexlight/keymap.c:214-219 | the CLR_OSM branch on the globals |
| Keymap.Keymap.PlainKeyEvent | keyboards/cantor/keymaps/windexlight/keymap.c:220-307 | the repeat fix-up, the magic switch, then the pending-key list for a key that is not magic |
| Keymap.Keymap.RepeatFixupEvent | keyboards/cantor/keymaps/windexlight/keymap.c:230-236 | the fix-up calls, as RepeatFixup says |
| Keymap.Keymap.MagicEvent | keyboards/cantor/keymaps/windexlight/keymap.c:237-285 | the flag is IsMagic, and the calls are the macro's, or one-shot Shift, exactly when it is set |
| Keymap.Keymap.PendingKeyEvent | keyboards/cantor/keymaps/windexlight/keymap.c:286-307 | the pending-key branch on the globals, as TrackPending says |
| Keymap.Keymap.PendingPress | keyboards/cantor/keymaps/windexlight/keymap.c:288-291 | a press records the key while there is room and calls nothing |
| Keymap.Keymap.PendingRelease | keyboards/cantor/keymaps/windexlight/keymap.c:292-305 | a release removes the key's first record and runs clear_osm_mods when that empties the list |
| Keymap.Keymap.HousekeepingTaskUser | keyboards/cantor/keymaps/windexlight/keymap.c:422-443 | housekeeping keeps the invariant and updates the globals and the calls as the specification does |
| Keymap.Keymap.ExpireOneShot | keyboards/cantor/keymaps/windexlight/keymap.c:424-438 | the expiry on the globals, as ExpireOneShot says |
| Keymap.Keymap.ExpireActive | keyboards/cantor/keymaps/windexlight/keymap.c:425-437 | the loop drops the expired latches and unregisters the expired slots that are not held |
| Keymap.Keymap.HeartbeatTimeout | keyboards/cantor/keymaps/windexlight/keymap.c:439-442 | the dead-man timeout on the flags |
| Keymap.Keymap.SendRawHidReport | keyboards/cantor/keymaps/windexlight/keymap.c:379-393 | the shadow packet, then the diagnostic packet written into raw_hid_report and sent |
| Keymap.Keymap.ForwardReport | keyboards/cantor/keymaps/windexlight/keymap.c:324-326 | the real sender is called unless suppressed |
| Keymap.Keymap.SendKeyboardUser | keyboards/cantor/keymaps/windexlight/keymap.c:323-341 | send_keyboard_user on the globals, as SendKeyboard says |
| Keymap.Keymap.ShadowKeyboard | keyboards/cantor/keymaps/windexlight/keymap.c:328-338 | the shadow takes the report's modifiers and the bitmap of its keys; nothing else changes |
| Keymap.Keymap.SendNkroUser | keyboards/cantor/keymaps/windexlight/keymap.c:343-351 | send_nkro_user on the globals, as SendNkro says |
| Keymap.Keymap.ShadowNkro | keyboards/cantor/keymaps/windexlight/keymap.c:348 | the shadow becomes a copy of the report; nothing else changes |
| Keymap.Keymap.SendExtraUser | keyboards/cantor/keymaps/windexlight/keymap.c:353-377 | send_extra_user on the globals, as SendExtra says |
| Keymap.Keymap.ShadowExtra | keyboards/cantor/keymaps/windexlight/keymap.c:358-374 | the shadow bitmap takes the usage as ExtraBits says; nothing else changes |
| Keymap.Keymap.RawHidReceive | keyboards/cantor/keymaps/windexlight/keymap.c:395-407 | raw_hid_receive on the globals, as RawHidReceive says |

## Left out

- **Macro strings.** The text the magic macros type (`MAGIC_STRING`, `SEND_STRING_DELAY`, `magic_send_string_P`) is host output. It is one `SendMacro(keycode)` action; only its effect on the `magic` flag is modelled.
- **Console logging.** The `uprintf` logging in `process_record_user` is not modelled.
- **Driver patching.** `keyboard_post_init_user` patches the `chibios_driver` function pointers at run time. That is pointer patching, so it is not modelled. Calling the real sender is the `ForwardKeyboard`, `ForwardNkro` and `ForwardExtra` actions.
- **QMK state read by the keymap.** It comes in as parameters:
  - `timer_read32` is `now`;
  - `host_keyboard_led_state().scroll_lock` is `scrollLock`;
  - `get_repeat_key_count` is `repeatCount`;
  - `get_mods() | get_weak_mods() | get_oneshot_mods()` is `mods`;
  - the `matrix` rows are `matrix`;
  - `get_tap_keycode` is applied by the caller of `AltRepeatKeycode`.
- **Calls into QMK** are actions in the log; what they do inside QMK is not modelled. They are `register_code`, `unregister_code`, `tap_code`, `layer_move`, `set_last_keycode`, `set_last_mods`, `add_oneshot_mods`, `register_mods` and `raw_hid_send`.
- **`register_mods` and the register tracking.** `Engine.KeepsModifiersTracked` follows only `register_code` and `unregister_code` of the modifier keycodes. The magic Space press's `register_mods(MOD_LSFT)` registers Shift without touching a slot, so that invariant does not cover it.
- **Caps Word callback.** `is_caps_word_on` and the rest of QMK's Caps Word feature are outside the model. `CapsWordPress` returns whether the word continues and the weak modifiers it adds.
- **Static data.** The `keymaps` layout table is static data with no logic. The trackball `config.h` holds only build-time defines.
- **Build-time assertions.** The `static_assert`s are the lemma `Engine.StaticAsserts`.
- **Concurrency.** `raw_hid_receive`, the senders and housekeeping are sequential method calls; interrupt timing is not modelled.
- **raw_hid_receive length.** `raw_hid_receive` reads `data[0]` without looking at `length`. The model requires a non-empty packet and ignores `length`.
- **Keyboard report length.** `send_keyboard_user` walks the `KEYBOARD_REPORT_KEYS` (6) keys of the report. The model accepts a key list of any length.
- **Integer widths.** `stack_size` and `ex_osm_key_count` are `uint8_t` in the source and `nat` fields here. Both are bounded by their arrays (6 and 32), so they never wrap.
- Keymap.Keymap.OneShotRelease: the source calls `unregister_code` and then clears the held bit; the method clears the held bit first. `unregister_code` does not read `ex_mod_bits`, so the globals and the calls are the same.
- Keymap.UnregisterLatched: the loop of `clear_osm_mods` builds its list of calls, which the method then appends. The order of the calls is the source's.
- Keymap.ExpireLatched: the expiry loop builds its list of calls, which the method then appends. The order of the calls is the source's.
- Keymap.TimedOut: the loop body of the expiry is split in two. `TimedOut` evaluates the source's nested test; `DropSlot` does the update.
- **The pending-key guard.** The store uses the corrected 32-slot guard `OneShot.PendingHasRoom`. The guard as written would index past the array (see Findings), so it is not modelled.

## Findings

| source | as written | input that shows it | evidently intended | confidence | as-written member | corrected member |
|---|---|---|---|---|---|---|
| keyboards/cantor/keymaps/windexlight/keymap.c:289 | `ex_osm_key_count < sizeof(ex_osm_keys)`: sizeof is 64 bytes for 32 `uint16_t` slots | 32 plain keys pressed and held under a latched modifier, then a 33rd press: count 32 passes the guard and `ex_osm_keys[32]` is written past the end of the array | `ex_osm_key_count < EX_NUM_OSM_KEYS` (32) | high; by reading, not executed | OneShot.PendingGuardAsWrittenOverflows | OneShot.TrackPendingPress |
