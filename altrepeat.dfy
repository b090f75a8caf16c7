/** get_alt_repeat_key_keycode_user (keymap.c lines 630-741): what the
    "magic" Alternate Repeat key types after the last key. QMK's
    get_tap_keycode, which strips tap-hold wrappers first, is outside the
    model: `keycode` here is its result. */
module AltRepeat {
  import opened Types
  import opened Keycodes

  predicate ShiftOnly(mods: bv8) { mods & !MOD_MASK_SHIFT == 0 }

  /** The vowel swaps of the magic key. */
  predicate IsSwappedVowel(keycode: int) {
    keycode == KC_A || keycode == KC_O || keycode == KC_E || keycode == KC_U
  }

  /** The keys whose alternate depends on whether Shift is held. */
  predicate IsShiftSensitive(keycode: int) {
    keycode == KC_N || keycode == KC_I || keycode == KC_DOT
    || keycode == KC_COMM || keycode == KC_QUOT
  }

  function AltRepeatKeycode(keycode: uint16, mods: bv8): (r: uint16)
    // With any modifier other than Shift (left Alt alone aside) the key is
    // transparent.
    ensures mods != MOD_BIT_LALT && !ShiftOnly(mods) ==> r == KC_TRNS
    // The magic key never produces one of the engine's own keycodes.
    ensures !IsEngineKey(r)
  {
    if mods == MOD_BIT_LALT then
      if keycode == KC_U then LAlt(KC_O as uint8)
      else if keycode == KC_O then LAlt(KC_U as uint8)
      else if keycode == KC_N then LAlt(KC_I as uint8)
      else if keycode == KC_I then LAlt(KC_N as uint8)
      else KC_TRNS
    else if ShiftOnly(mods) then
      var shifted := mods & MOD_MASK_SHIFT != 0;
      if keycode == KC_SPC || keycode == KC_ENT || keycode == KC_TAB then M_THE
      else if keycode == KC_N then (if !shifted then LShift(KC_N as uint8) else KC_N)
      else if keycode == KC_A then KC_O
      else if keycode == KC_O then KC_A
      else if keycode == KC_E then KC_U
      else if keycode == KC_U then KC_E
      else if keycode == KC_I then (if !shifted then M_ION else KC_QUOT)
      else if keycode == KC_M then M_MENT
      else if keycode == KC_Q then M_QUEN
      else if keycode == KC_T then M_TMENT
      else if keycode == KC_C || keycode == KC_D || keycode == KC_G || keycode == KC_P then KC_Y
      else if keycode == KC_Y then KC_P
      else if keycode == KC_L || keycode == KC_S then KC_K
      else if keycode == KC_R then KC_L
      else if keycode == KC_DOT then (if !shifted then M_UPDIR else M_NOOP)
      else if keycode == KC_HASH then M_INCLUDE
      else if keycode == KC_AMPR then M_NBSP
      else if keycode == KC_EQL then M_EQEQ
      else if keycode == KC_RBRC then KC_SCLN
      else if keycode == KC_COMM then (if shifted then KC_EQL else M_NOOP)
      else if keycode == KC_QUOT then (if shifted then M_DOCSTR else M_NOOP)
      else if keycode == KC_GRV then M_MKGRVS
      else if keycode == KC_LABK then KC_MINS
      else if keycode == KC_SLSH then KC_SLSH
      else if keycode in {KC_PLUS, KC_MINS, KC_ASTR, KC_PERC, KC_PIPE, KC_CIRC, KC_TILD,
                          KC_EXLM, KC_DLR, KC_RABK, KC_LPRN, KC_RPRN, KC_UNDS, KC_COLN}
      then KC_EQL
      else if keycode == KC_F || keycode == KC_V || keycode == KC_X || keycode == KC_SCLN
              || (KC_1 <= keycode <= KC_0)
      then M_NOOP
      else KC_TRNS
    else
      KC_TRNS
  }

  /** With left Alt, U/O and N/I are swapped pairwise: the alternate of the
      alternate's base key is Alt plus the first key again. */
  lemma AltLayerPairsSymmetric(keycode: uint16, partner: uint8)
    requires AltRepeatKeycode(keycode, MOD_BIT_LALT) == LAlt(partner)
    ensures keycode < 0x100 && AltRepeatKeycode(partner, MOD_BIT_LALT) == LAlt(keycode as uint8)
  {
  }

  /** Without modifiers other than Shift, the vowel swaps A/O and E/U undo
      each other. */
  lemma VowelSwapInvolution(keycode: uint16, mods: bv8)
    requires ShiftOnly(mods) && mods != MOD_BIT_LALT && IsSwappedVowel(keycode)
    ensures IsSwappedVowel(AltRepeatKeycode(keycode, mods))
    ensures AltRepeatKeycode(AltRepeatKeycode(keycode, mods), mods) == keycode
  {
  }

  /** Shift changes the result only for N, I, dot, comma and quote. */
  lemma ShiftIrrelevantElsewhere(keycode: uint16, mods: bv8)
    requires ShiftOnly(mods) && !IsShiftSensitive(keycode)
    ensures AltRepeatKeycode(keycode, mods) == AltRepeatKeycode(keycode, 0)
  {
  }

  /** After N the magic key toggles Shift: N gives Shift+N, Shift+N gives N. */
  lemma ShiftToggleOnN(mods: bv8)
    requires ShiftOnly(mods)
    ensures AltRepeatKeycode(KC_N, mods) == if mods == 0 then LShift(KC_N as uint8) else KC_N
  {
  }
  /** The letter entries of the table of the magic key's alternates in the
      comment above get_alt_repeat_key_keycode_user: with no modifier other
      than Shift, each listed letter gives the documented letter. */
  lemma DocumentedLetterAlternates(mods: bv8)
    requires ShiftOnly(mods)
    ensures AltRepeatKeycode(KC_A, mods) == KC_O && AltRepeatKeycode(KC_O, mods) == KC_A
    ensures AltRepeatKeycode(KC_E, mods) == KC_U && AltRepeatKeycode(KC_U, mods) == KC_E
    ensures AltRepeatKeycode(KC_L, mods) == KC_K && AltRepeatKeycode(KC_S, mods) == KC_K
    ensures AltRepeatKeycode(KC_C, mods) == KC_Y && AltRepeatKeycode(KC_D, mods) == KC_Y
    ensures AltRepeatKeycode(KC_G, mods) == KC_Y && AltRepeatKeycode(KC_P, mods) == KC_Y
    ensures AltRepeatKeycode(KC_Y, mods) == KC_P && AltRepeatKeycode(KC_R, mods) == KC_L
  {
  }

  /** The entries of that table that type a string or a symbol. For `!`
      the code gives KC_EQL, so `! *` types `!=` where the table shows
      `!==`. */
  lemma DocumentedMacroAlternates(mods: bv8)
    requires ShiftOnly(mods)
    ensures AltRepeatKeycode(KC_M, mods) == M_MENT && AltRepeatKeycode(KC_Q, mods) == M_QUEN
    ensures AltRepeatKeycode(KC_T, mods) == M_TMENT && AltRepeatKeycode(KC_SPC, mods) == M_THE
    ensures AltRepeatKeycode(KC_EQL, mods) == M_EQEQ && AltRepeatKeycode(KC_EXLM, mods) == KC_EQL
    ensures AltRepeatKeycode(KC_GRV, mods) == M_MKGRVS && AltRepeatKeycode(KC_HASH, mods) == M_INCLUDE
    ensures AltRepeatKeycode(KC_AMPR, mods) == M_NBSP
  {
  }

  /** The entries of that table that hold only without Shift (I, dot) or
      only with it (the double quote is Shift plus quote). */
  lemma DocumentedShiftDependentAlternates(mods: bv8)
    requires ShiftOnly(mods) && mods != 0
    ensures AltRepeatKeycode(KC_I, 0) == M_ION && AltRepeatKeycode(KC_DOT, 0) == M_UPDIR
    ensures AltRepeatKeycode(KC_QUOT, mods) == M_DOCSTR
  {
  }
}
