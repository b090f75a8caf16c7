/** USAGE2KEYCODE (keymap.c lines 445-510): the table from the HID usage of
    a system or consumer ("extra") report back to the QMK keycode that sent
    it, so that the diagnostic shadow report can carry one bit per key. */
module UsageTable {
  import opened Types
  import opened Keycodes

  // Generic Desktop system-control usages.
  const SYSTEM_POWER_DOWN: uint16 := 0x081
  const SYSTEM_SLEEP: uint16 := 0x082
  const SYSTEM_WAKE_UP: uint16 := 0x083
  // Consumer-page usages.
  const BRIGHTNESS_UP: uint16 := 0x06F
  const BRIGHTNESS_DOWN: uint16 := 0x070
  const TRANSPORT_FAST_FORWARD: uint16 := 0x0B3
  const TRANSPORT_REWIND: uint16 := 0x0B4
  const TRANSPORT_NEXT_TRACK: uint16 := 0x0B5
  const TRANSPORT_PREV_TRACK: uint16 := 0x0B6
  const TRANSPORT_STOP: uint16 := 0x0B7
  const TRANSPORT_STOP_EJECT: uint16 := 0x0CC
  const TRANSPORT_PLAY_PAUSE: uint16 := 0x0CD
  const AUDIO_MUTE: uint16 := 0x0E2
  const AUDIO_VOL_UP: uint16 := 0x0E9
  const AUDIO_VOL_DOWN: uint16 := 0x0EA
  const AL_CC_CONFIG: uint16 := 0x183
  const AL_EMAIL: uint16 := 0x18A
  const AL_CALCULATOR: uint16 := 0x192
  const AL_LOCAL_BROWSER: uint16 := 0x194
  const AL_CONTROL_PANEL: uint16 := 0x19F
  const AL_ASSISTANT: uint16 := 0x1CB
  const AC_SEARCH: uint16 := 0x221
  const AC_HOME: uint16 := 0x223
  const AC_BACK: uint16 := 0x224
  const AC_FORWARD: uint16 := 0x225
  const AC_STOP: uint16 := 0x226
  const AC_REFRESH: uint16 := 0x227
  const AC_BOOKMARKS: uint16 := 0x22A
  const AC_DESKTOP_SHOW_ALL_WINDOWS: uint16 := 0x29F
  const AC_SOFT_KEY_LEFT: uint16 := 0x2A0

  /** The keycodes of the system and consumer band, which the extra report
      path sets and clears in the shadow report. */
  predicate IsExtraKeycode(kc: int) {
    KC_SYSTEM_POWER <= kc <= KC_LAUNCHPAD
  }

  /** USAGE2KEYCODE: the keycode of a usage, or KC_NO for a usage the table
      does not list. */
  function Usage2Keycode(usage: uint16): (kc: uint8)
    ensures kc == KC_NO || IsExtraKeycode(kc)
  {
    if usage == SYSTEM_POWER_DOWN then KC_SYSTEM_POWER
    else if usage == SYSTEM_SLEEP then KC_SYSTEM_SLEEP
    else if usage == SYSTEM_WAKE_UP then KC_SYSTEM_WAKE
    else if usage == AUDIO_MUTE then KC_AUDIO_MUTE
    else if usage == AUDIO_VOL_UP then KC_AUDIO_VOL_UP
    else if usage == AUDIO_VOL_DOWN then KC_AUDIO_VOL_DOWN
    else if usage == TRANSPORT_NEXT_TRACK then KC_MEDIA_NEXT_TRACK
    else if usage == TRANSPORT_PREV_TRACK then KC_MEDIA_PREV_TRACK
    else if usage == TRANSPORT_FAST_FORWARD then KC_MEDIA_FAST_FORWARD
    else if usage == TRANSPORT_REWIND then KC_MEDIA_REWIND
    else if usage == TRANSPORT_STOP then KC_MEDIA_STOP
    else if usage == TRANSPORT_STOP_EJECT then KC_MEDIA_EJECT
    else if usage == TRANSPORT_PLAY_PAUSE then KC_MEDIA_PLAY_PAUSE
    else if usage == AL_CC_CONFIG then KC_MEDIA_SELECT
    else if usage == AL_EMAIL then KC_MAIL
    else if usage == AL_CALCULATOR then KC_CALCULATOR
    else if usage == AL_LOCAL_BROWSER then KC_MY_COMPUTER
    else if usage == AL_CONTROL_PANEL then KC_CONTROL_PANEL
    else if usage == AL_ASSISTANT then KC_ASSISTANT
    else if usage == AC_SEARCH then KC_WWW_SEARCH
    else if usage == AC_HOME then KC_WWW_HOME
    else if usage == AC_BACK then KC_WWW_BACK
    else if usage == AC_FORWARD then KC_WWW_FORWARD
    else if usage == AC_STOP then KC_WWW_STOP
    else if usage == AC_REFRESH then KC_WWW_REFRESH
    else if usage == BRIGHTNESS_UP then KC_BRIGHTNESS_UP
    else if usage == BRIGHTNESS_DOWN then KC_BRIGHTNESS_DOWN
    else if usage == AC_BOOKMARKS then KC_WWW_FAVORITES
    else if usage == AC_DESKTOP_SHOW_ALL_WINDOWS then KC_MISSION_CONTROL
    else if usage == AC_SOFT_KEY_LEFT then KC_LAUNCHPAD
    else KC_NO
  }

  /** The reverse table: the usage QMK sends for a keycode of the band, the
      independent reference the table is checked against. */
  function Keycode2Usage(kc: uint8): (usage: uint16)
    ensures usage != 0 <==> IsExtraKeycode(kc)
  {
    if kc == KC_SYSTEM_POWER then SYSTEM_POWER_DOWN
    else if kc == KC_SYSTEM_SLEEP then SYSTEM_SLEEP
    else if kc == KC_SYSTEM_WAKE then SYSTEM_WAKE_UP
    else if kc == KC_AUDIO_MUTE then AUDIO_MUTE
    else if kc == KC_AUDIO_VOL_UP then AUDIO_VOL_UP
    else if kc == KC_AUDIO_VOL_DOWN then AUDIO_VOL_DOWN
    else if kc == KC_MEDIA_NEXT_TRACK then TRANSPORT_NEXT_TRACK
    else if kc == KC_MEDIA_PREV_TRACK then TRANSPORT_PREV_TRACK
    else if kc == KC_MEDIA_STOP then TRANSPORT_STOP
    else if kc == KC_MEDIA_PLAY_PAUSE then TRANSPORT_PLAY_PAUSE
    else if kc == KC_MEDIA_SELECT then AL_CC_CONFIG
    else if kc == KC_MEDIA_EJECT then TRANSPORT_STOP_EJECT
    else if kc == KC_MAIL then AL_EMAIL
    else if kc == KC_CALCULATOR then AL_CALCULATOR
    else if kc == KC_MY_COMPUTER then AL_LOCAL_BROWSER
    else if kc == KC_WWW_SEARCH then AC_SEARCH
    else if kc == KC_WWW_HOME then AC_HOME
    else if kc == KC_WWW_BACK then AC_BACK
    else if kc == KC_WWW_FORWARD then AC_FORWARD
    else if kc == KC_WWW_STOP then AC_STOP
    else if kc == KC_WWW_REFRESH then AC_REFRESH
    else if kc == KC_WWW_FAVORITES then AC_BOOKMARKS
    else if kc == KC_MEDIA_FAST_FORWARD then TRANSPORT_FAST_FORWARD
    else if kc == KC_MEDIA_REWIND then TRANSPORT_REWIND
    else if kc == KC_BRIGHTNESS_UP then BRIGHTNESS_UP
    else if kc == KC_BRIGHTNESS_DOWN then BRIGHTNESS_DOWN
    else if kc == KC_CONTROL_PANEL then AL_CONTROL_PANEL
    else if kc == KC_ASSISTANT then AL_ASSISTANT
    else if kc == KC_MISSION_CONTROL then AC_DESKTOP_SHOW_ALL_WINDOWS
    else if kc == KC_LAUNCHPAD then AC_SOFT_KEY_LEFT
    else 0
  }

  /** Every usage the table maps comes back from its keycode. */
  lemma UsageRoundTrip(usage: uint16)
    requires Usage2Keycode(usage) != KC_NO
    ensures Keycode2Usage(Usage2Keycode(usage)) == usage
  {
  }

  /** Every keycode of the band is reached, from exactly its own usage. */
  lemma KeycodeRoundTrip(kc: uint8)
    requires IsExtraKeycode(kc)
    ensures Usage2Keycode(Keycode2Usage(kc)) == kc
  {
  }

  /** Distinct mapped usages give distinct keycodes, so one shadow bit never
      stands for two usages. */
  lemma Usage2KeycodeInjective(u1: uint16, u2: uint16)
    requires Usage2Keycode(u1) != KC_NO && Usage2Keycode(u1) == Usage2Keycode(u2)
    ensures u1 == u2
  {
    UsageRoundTrip(u1);
    UsageRoundTrip(u2);
  }
}
