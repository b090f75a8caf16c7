/** The QMK keycodes the keymap names, and the bands of custom keycodes that
    the keymap reserves above SAFE_RANGE for its own layer and one-shot keys
    (keymap.c lines 48-69 and 96-98). */
module Keycodes {
  import opened Types

  // Basic keycodes (HID keyboard/keypad usage page).
  const KC_NO: uint16 := 0x00
  const KC_TRNS: uint16 := 0x01
  const KC_A: uint16 := 0x04
  const KC_C: uint16 := 0x06
  const KC_D: uint16 := 0x07
  const KC_E: uint16 := 0x08
  const KC_F: uint16 := 0x09
  const KC_G: uint16 := 0x0A
  const KC_I: uint16 := 0x0C
  const KC_K: uint16 := 0x0E
  const KC_L: uint16 := 0x0F
  const KC_M: uint16 := 0x10
  const KC_N: uint16 := 0x11
  const KC_O: uint16 := 0x12
  const KC_P: uint16 := 0x13
  const KC_Q: uint16 := 0x14
  const KC_R: uint16 := 0x15
  const KC_S: uint16 := 0x16
  const KC_T: uint16 := 0x17
  const KC_U: uint16 := 0x18
  const KC_V: uint16 := 0x19
  const KC_X: uint16 := 0x1B
  const KC_Y: uint16 := 0x1C
  const KC_Z: uint16 := 0x1D
  const KC_1: uint16 := 0x1E
  const KC_0: uint16 := 0x27
  const KC_ENT: uint16 := 0x28
  const KC_BSPC: uint16 := 0x2A
  const KC_TAB: uint16 := 0x2B
  const KC_SPC: uint16 := 0x2C
  const KC_MINS: uint16 := 0x2D
  const KC_EQL: uint16 := 0x2E
  const KC_RBRC: uint16 := 0x30
  const KC_BSLS: uint16 := 0x31
  const KC_SCLN: uint16 := 0x33
  const KC_QUOT: uint16 := 0x34
  const KC_GRV: uint16 := 0x35
  const KC_COMM: uint16 := 0x36
  const KC_DOT: uint16 := 0x37
  const KC_SLSH: uint16 := 0x38
  const KC_SCRL: uint8 := 0x47
  const KC_DEL: uint16 := 0x4C
  const KC_LEFT_CTRL: uint8 := 0xE0
  const KC_LSFT: uint8 := 0xE1

  // System and consumer keycodes, one contiguous band.
  const KC_SYSTEM_POWER: uint8 := 0xA5
  const KC_SYSTEM_SLEEP: uint8 := 0xA6
  const KC_SYSTEM_WAKE: uint8 := 0xA7
  const KC_AUDIO_MUTE: uint8 := 0xA8
  const KC_AUDIO_VOL_UP: uint8 := 0xA9
  const KC_AUDIO_VOL_DOWN: uint8 := 0xAA
  const KC_MEDIA_NEXT_TRACK: uint8 := 0xAB
  const KC_MEDIA_PREV_TRACK: uint8 := 0xAC
  const KC_MEDIA_STOP: uint8 := 0xAD
  const KC_MEDIA_PLAY_PAUSE: uint8 := 0xAE
  const KC_MEDIA_SELECT: uint8 := 0xAF
  const KC_MEDIA_EJECT: uint8 := 0xB0
  const KC_MAIL: uint8 := 0xB1
  const KC_CALCULATOR: uint8 := 0xB2
  const KC_MY_COMPUTER: uint8 := 0xB3
  const KC_WWW_SEARCH: uint8 := 0xB4
  const KC_WWW_HOME: uint8 := 0xB5
  const KC_WWW_BACK: uint8 := 0xB6
  const KC_WWW_FORWARD: uint8 := 0xB7
  const KC_WWW_STOP: uint8 := 0xB8
  const KC_WWW_REFRESH: uint8 := 0xB9
  const KC_WWW_FAVORITES: uint8 := 0xBA
  const KC_MEDIA_FAST_FORWARD: uint8 := 0xBB
  const KC_MEDIA_REWIND: uint8 := 0xBC
  const KC_BRIGHTNESS_UP: uint8 := 0xBD
  const KC_BRIGHTNESS_DOWN: uint8 := 0xBE
  const KC_CONTROL_PANEL: uint8 := 0xBF
  const KC_ASSISTANT: uint8 := 0xC0
  const KC_MISSION_CONTROL: uint8 := 0xC1
  const KC_LAUNCHPAD: uint8 := 0xC2

  // Modified keycodes: QK_LSFT | kc is S(kc), QK_LALT | kc is A(kc).
  const QK_LSFT: uint16 := 0x0200
  const QK_LALT: uint16 := 0x0400

  function LShift(kc: uint8): uint16 { QK_LSFT + kc }
  function LAlt(kc: uint8): uint16 { QK_LALT + kc }

  const KC_EXLM: uint16 := QK_LSFT + 0x1E
  const KC_HASH: uint16 := QK_LSFT + 0x20
  const KC_DLR: uint16 := QK_LSFT + 0x21
  const KC_PERC: uint16 := QK_LSFT + 0x22
  const KC_CIRC: uint16 := QK_LSFT + 0x23
  const KC_AMPR: uint16 := QK_LSFT + 0x24
  const KC_ASTR: uint16 := QK_LSFT + 0x25
  const KC_LPRN: uint16 := QK_LSFT + 0x26
  const KC_RPRN: uint16 := QK_LSFT + 0x27
  const KC_UNDS: uint16 := QK_LSFT + 0x2D
  const KC_PLUS: uint16 := QK_LSFT + 0x2E
  const KC_PIPE: uint16 := QK_LSFT + 0x31
  const KC_COLN: uint16 := QK_LSFT + 0x33
  const KC_TILD: uint16 := QK_LSFT + 0x35
  const KC_LABK: uint16 := QK_LSFT + 0x36
  const KC_RABK: uint16 := QK_LSFT + 0x37

  // 8-bit modifier masks (one bit per modifier key, as HID reports them).
  const MOD_BIT_LSHIFT: bv8 := 0x02
  const MOD_BIT_LALT: bv8 := 0x04
  const MOD_MASK_SHIFT: bv8 := 0x22
  // QMK's 5-bit modifier encoding, used by add_oneshot_mods/register_mods.
  const MOD_LSFT: bv8 := 0x02

  // First keycode free for user keycodes.
  const SAFE_RANGE: uint16 := 0x7E40

  // The keymap's custom keycodes, in declaration order.
  const EX_NUM_MODS := 8
  const EX_LAYER: uint16 := SAFE_RANGE
  const EX_LAYER_MAX: uint16 := EX_LAYER + 10
  const EX_ONE_SHOT_MOD: uint16 := EX_LAYER_MAX + 1
  const EX_ONE_SHOT_MOD_MAX: uint16 := EX_ONE_SHOT_MOD + EX_NUM_MODS - 1
  const CLR_OSM: uint16 := EX_ONE_SHOT_MOD_MAX + 1
  const UPDIR: uint16 := CLR_OSM + 1
  const M_DOCSTR: uint16 := CLR_OSM + 2
  const M_EQEQ: uint16 := CLR_OSM + 3
  const M_INCLUDE: uint16 := CLR_OSM + 4
  const M_ION: uint16 := CLR_OSM + 5
  const M_MENT: uint16 := CLR_OSM + 6
  const M_MKGRVS: uint16 := CLR_OSM + 7
  const M_QUEN: uint16 := CLR_OSM + 8
  const M_THE: uint16 := CLR_OSM + 9
  const M_TMENT: uint16 := CLR_OSM + 10
  const M_UPDIR: uint16 := CLR_OSM + 11
  const M_NBSP: uint16 := CLR_OSM + 12
  const M_NOOP: uint16 := CLR_OSM + 13

  // The layers of the keymap.
  const LAYER_MAGIC_STURDY: uint8 := 0
  const LAYER_NUM: uint8 := 1
  const LAYER_SYM: uint8 := 2
  const LAYER_FNC: uint8 := 3
  const LAYER_EXT: uint8 := 4
  const LAYER_MSE: uint8 := 5

  /** The largest layer id a layer key can name. */
  const MAX_LAYER: uint8 := EX_LAYER_MAX - EX_LAYER

  predicate IsLayerKey(keycode: int) { EX_LAYER <= keycode <= EX_LAYER_MAX }
  predicate IsOneShotKey(keycode: int) { EX_ONE_SHOT_MOD <= keycode <= EX_ONE_SHOT_MOD_MAX }

  /** The keycodes that the layer and one-shot engine consumes itself. */
  predicate IsEngineKey(keycode: int) {
    IsLayerKey(keycode) || IsOneShotKey(keycode) || keycode == CLR_OSM
  }

  /** EX_MO(n): the momentary layer key of layer `n`. */
  function ExMo(n: uint8): (k: uint16)
    requires n <= MAX_LAYER
    ensures IsLayerKey(k) && k - EX_LAYER == n
  {
    EX_LAYER + n
  }

  /** EX_OSM(kc): the one-shot key of a modifier keycode, by its low three bits. */
  function ExOsm(kc: uint8): (k: uint16)
    ensures IsOneShotKey(k)
  {
    EX_ONE_SHOT_MOD + kc % 8
  }

  /** EX_MOD(m): the modifier keycode of modifier slot `m`. */
  function ExMod(m: nat): (kc: uint8)
    requires m < EX_NUM_MODS
    ensures KC_LEFT_CTRL <= kc < KC_LEFT_CTRL + EX_NUM_MODS
  {
    KC_LEFT_CTRL + m
  }

  /** The one-shot key of a modifier keycode leads back to that modifier. */
  lemma OneShotKeyRoundTrip(kc: uint8)
    requires KC_LEFT_CTRL <= kc < KC_LEFT_CTRL + EX_NUM_MODS
    ensures ExMod(ExOsm(kc) - EX_ONE_SHOT_MOD) == kc
  {
  }

  /** The custom bands do not overlap one another or the macro keycodes. */
  lemma BandsDisjoint(k: int)
    ensures !(IsLayerKey(k) && IsOneShotKey(k))
    ensures IsLayerKey(k) || IsOneShotKey(k) ==> k != CLR_OSM
    ensures IsEngineKey(k) ==> k < UPDIR && k >= SAFE_RANGE
  {
  }
}
