/** caps_word_press_user (keymap.c lines 566-589): which keys keep Caps Word
    on, and which of them get Shift applied. */
module CapsWord {
  import opened Types
  import opened Keycodes

  /** The result of the callback: whether Caps Word stays on, and the weak
      modifiers it adds (`add_weak_mods`) before the key is sent. */
  datatype CapsWordOutcome = CapsWordOutcome(continues: bool, weakMods: bv8)

  predicate IsLetter(keycode: int) { KC_A <= keycode <= KC_Z }
  predicate IsDigit(keycode: int) { KC_1 <= keycode <= KC_0 }

  function CapsWordPress(keycode: uint16): (r: CapsWordOutcome)
    // Shift is only ever added to a key that continues Caps Word, and it is
    // the one modifier ever added.
    ensures r.weakMods != 0 ==> r.continues && r.weakMods == MOD_BIT_LSHIFT
  {
    if IsLetter(keycode) then
      CapsWordOutcome(true, MOD_BIT_LSHIFT)
    else if IsDigit(keycode) || keycode == KC_BSPC || keycode == KC_DEL || keycode == KC_UNDS
            || keycode == M_THE || keycode == M_ION || keycode == M_MENT
            || keycode == M_QUEN || keycode == M_TMENT then
      CapsWordOutcome(true, 0)
    else
      CapsWordOutcome(false, 0)
  }

  /** Shift is applied to exactly the letters. */
  lemma ShiftsExactlyLetters(keycode: uint16)
    ensures CapsWordPress(keycode).weakMods == MOD_BIT_LSHIFT <==> IsLetter(keycode)
    ensures !IsLetter(keycode) ==> CapsWordPress(keycode).weakMods == 0
  {
  }

  /** Digits continue Caps Word unshifted, and the engine's own keys end it. */
  lemma DigitsContinueEngineKeysStop(keycode: uint16)
    ensures IsDigit(keycode) ==> CapsWordPress(keycode) == CapsWordOutcome(true, 0)
    ensures IsEngineKey(keycode) ==> !CapsWordPress(keycode).continues
  {
  }
}
