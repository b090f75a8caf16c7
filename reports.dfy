/** The report multiplexer (keymap.c lines 323-407, 439-442): the real
    keyboard, NKRO and extra reports are forwarded unless a host tool has
    armed the raw-HID channel, and while it is armed every report is
    mirrored into an NKRO shadow bitmap, one bit per keycode, and sent out
    over raw HID with a diagnostic packet behind it. */
module Reports {
  import opened Types
  import opened Masks
  import opened Keycodes
  import opened UsageTable
  import opened Engine

  const HEARTBEAT_TIMEOUT_MS: uint32 := 1500
  /** The first byte of a raw-HID packet that arms the channel ... */
  const RAW_ARM: bv8 := 0xBE
  /** ... the one that disarms it ... */
  const RAW_DISARM: bv8 := 0xBF
  /** ... and the byte the acknowledgement carries at index 1. */
  const RAW_ACK: bv8 := 0xEF
  /** The report id of the diagnostic packet, kept away from the NKRO id. */
  const DIAGNOSTIC_ID: bv8 := 1
  /** The number of keycodes the shadow bitmap has a bit for. */
  const NKRO_CODES := 8 * NKRO_REPORT_BITS

  /** The buffers have their declared sizes. */
  predicate BuffersOk(s: State) {
    |s.shadow.bits| == NKRO_REPORT_BITS && |s.rawReport| == RAW_EPSIZE
  }

  function Zeros(n: nat): (z: seq<bv8>)
    ensures |z| == n && forall i :: 0 <= i < n ==> z[i] == 0
  {
    seq(n, _ => 0)
  }

  // ---------------------------------------------------------------------
  // The shadow bitmap, one bit per keycode: byte code >> 3, bit code & 7.

  /** Whether keycode `c` is set in the bitmap. */
  predicate CodeSet(bits: seq<bv8>, c: int)
    requires |bits| == NKRO_REPORT_BITS && 0 <= c < NKRO_CODES
  {
    HasBit(bits[c / 8], c % 8)
  }

  /** `bits[code >> 3] |= 1 << (code & 7)`, only when the byte exists. */
  function SetCodeBit(bits: seq<bv8>, code: int): (r: seq<bv8>)
    requires |bits| == NKRO_REPORT_BITS && 0 <= code
    ensures |r| == NKRO_REPORT_BITS
  {
    if code / 8 < NKRO_REPORT_BITS then bits[code / 8 := bits[code / 8] | Bit(code % 8)] else bits
  }

  /** `bits[code >> 3] &= ~(1 << (code & 7))`, only when the byte exists. */
  function ClearCodeBit(bits: seq<bv8>, code: int): (r: seq<bv8>)
    requires |bits| == NKRO_REPORT_BITS && 0 <= code
    ensures |r| == NKRO_REPORT_BITS
  {
    if code / 8 < NKRO_REPORT_BITS then bits[code / 8 := bits[code / 8] & !Bit(code % 8)] else bits
  }

  /** A keycode's slot is its byte and bit, and only it has them. */
  lemma SameSlot(c: int, code: int)
    requires 0 <= c && 0 <= code
    ensures c == code <==> c / 8 == code / 8 && c % 8 == code % 8
  {
  }

  /** Setting a code sets exactly that code: every other bit stays. */
  lemma SetCodeBitAt(bits: seq<bv8>, code: int, c: int)
    requires |bits| == NKRO_REPORT_BITS && 0 <= code && 0 <= c < NKRO_CODES
    ensures CodeSet(SetCodeBit(bits, code), c) <==> CodeSet(bits, c) || c == code
  {
    SameSlot(c, code);
    if code / 8 < NKRO_REPORT_BITS && c / 8 == code / 8 {
      SetBitAt(bits[c / 8], code % 8, c % 8);
    }
  }

  /** Clearing a code clears exactly that code: every other bit stays. */
  lemma ClearCodeBitAt(bits: seq<bv8>, code: int, c: int)
    requires |bits| == NKRO_REPORT_BITS && 0 <= code && 0 <= c < NKRO_CODES
    ensures CodeSet(ClearCodeBit(bits, code), c) <==> CodeSet(bits, c) && c != code
  {
    if code / 8 < NKRO_REPORT_BITS && c / 8 == code / 8 {
      ClearSameByte(bits, code, c);
    } else {
      ClearOtherByte(bits, code, c);
    }
  }

  lemma ClearSameByte(bits: seq<bv8>, code: int, c: int)
    requires |bits| == NKRO_REPORT_BITS && 0 <= code && 0 <= c < NKRO_CODES
    requires code / 8 < NKRO_REPORT_BITS && c / 8 == code / 8
    ensures CodeSet(ClearCodeBit(bits, code), c) <==> CodeSet(bits, c) && c != code
  {
    SameSlot(c, code);
    ByteCleared(bits[c / 8], ClearCodeBit(bits, code)[c / 8], code % 8, c % 8);
  }

  lemma ClearOtherByte(bits: seq<bv8>, code: int, c: int)
    requires |bits| == NKRO_REPORT_BITS && 0 <= code && 0 <= c < NKRO_CODES
    requires !(code / 8 < NKRO_REPORT_BITS && c / 8 == code / 8)
    ensures CodeSet(ClearCodeBit(bits, code), c) <==> CodeSet(bits, c) && c != code
  {
    assert ClearCodeBit(bits, code)[c / 8] == bits[c / 8];
  }

  lemma ByteCleared(before: bv8, after: bv8, m: nat, k: nat)
    requires m < NUM_SLOTS && k < NUM_SLOTS && after == before & !Bit(m)
    ensures HasBit(after, k) <==> HasBit(before, k) && k != m
  {
    ClearBitAt(before, m, k);
  }

  lemma ZerosEmpty(c: int)
    requires 0 <= c < NKRO_CODES
    ensures !CodeSet(Zeros(NKRO_REPORT_BITS), c)
  {
    assert Zeros(NKRO_REPORT_BITS)[c / 8] == 0;
  }

  // ---------------------------------------------------------------------
  // send_keyboard_user: the shadow rebuilt from a 6-key report.

  /** One key of the report: a nonzero code sets its bit. */
  function MarkKey(bits: seq<bv8>, code: uint8): (r: seq<bv8>)
    requires |bits| == NKRO_REPORT_BITS
    ensures |r| == NKRO_REPORT_BITS
  {
    if code != 0 then SetCodeBit(bits, code) else bits
  }

  /** The keys of the report, in order. */
  function MarkKeys(bits: seq<bv8>, keys: seq<uint8>): (r: seq<bv8>)
    requires |bits| == NKRO_REPORT_BITS
    ensures |r| == NKRO_REPORT_BITS
    decreases |keys|
  {
    if keys == [] then bits else MarkKey(MarkKeys(bits, keys[..|keys| - 1]), keys[|keys| - 1])
  }

  /** The bitmap of a keyboard report: cleared, then the keys marked. */
  function KeyboardBits(keys: seq<uint8>): (r: seq<bv8>)
    ensures |r| == NKRO_REPORT_BITS
  {
    MarkKeys(Zeros(NKRO_REPORT_BITS), keys)
  }

  lemma MarkKeyAt(bits: seq<bv8>, code: uint8, c: int)
    requires |bits| == NKRO_REPORT_BITS && 0 <= c < NKRO_CODES
    ensures CodeSet(MarkKey(bits, code), c) <==> CodeSet(bits, c) || (c != 0 && c == code)
  {
    if code != 0 {
      SetCodeBitAt(bits, code, c);
    }
  }

  lemma InLast(keys: seq<uint8>, c: int)
    requires keys != []
    ensures c in keys <==> c in keys[..|keys| - 1] || c == keys[|keys| - 1]
  {
    assert keys == keys[..|keys| - 1] + [keys[|keys| - 1]];
  }

  /** Marking keys sets exactly the nonzero codes among them. */
  lemma {:induction false} MarkKeysAt(bits: seq<bv8>, keys: seq<uint8>, c: int)
    requires |bits| == NKRO_REPORT_BITS && 0 <= c < NKRO_CODES
    ensures CodeSet(MarkKeys(bits, keys), c) <==> CodeSet(bits, c) || (c != 0 && c in keys)
    decreases |keys|
  {
    if keys != [] {
      var prefix := keys[..|keys| - 1];
      MarkKeysAt(bits, prefix, c);
      MarkKeyAt(MarkKeys(bits, prefix), keys[|keys| - 1], c);
      InLast(keys, c);
    }
  }

  /** The shadow of a keyboard report holds exactly its nonzero keys that
      have a bit; a code of 0xF0 or above has none and is dropped. */
  lemma KeyboardBitsAt(keys: seq<uint8>, c: int)
    requires 0 <= c < NKRO_CODES
    ensures CodeSet(KeyboardBits(keys), c) <==> c != 0 && c in keys
  {
    ZerosEmpty(c);
    MarkKeysAt(Zeros(NKRO_REPORT_BITS), keys, c);
  }

  // ---------------------------------------------------------------------
  // send_extra_user: a usage sets its keycode's bit, usage 0 clears the
  // system and consumer band.

  /** The codes `lo` up to `hi - 1` cleared, in ascending order. */
  function ClearCodes(bits: seq<bv8>, lo: nat, hi: nat): (r: seq<bv8>)
    requires |bits| == NKRO_REPORT_BITS
    ensures |r| == NKRO_REPORT_BITS
    decreases hi
  {
    if hi <= lo then bits else ClearCodeBit(ClearCodes(bits, lo, hi - 1), hi - 1)
  }

  lemma {:induction false} ClearCodesAt(bits: seq<bv8>, lo: nat, hi: nat, c: int)
    requires |bits| == NKRO_REPORT_BITS && 0 <= c < NKRO_CODES
    ensures CodeSet(ClearCodes(bits, lo, hi), c) <==> CodeSet(bits, c) && !(lo <= c < hi)
    decreases hi
  {
    if hi > lo {
      ClearCodesAt(bits, lo, hi - 1, c);
      ClearCodeBitAt(ClearCodes(bits, lo, hi - 1), hi - 1, c);
    }
  }

  /** Usage 0 (every extra key released): the two loops over
      KC_SYSTEM_POWER..KC_SYSTEM_WAKE and KC_AUDIO_MUTE..KC_LAUNCHPAD. */
  function ClearExtraBand(bits: seq<bv8>): (r: seq<bv8>)
    requires |bits| == NKRO_REPORT_BITS
    ensures |r| == NKRO_REPORT_BITS
  {
    ClearCodes(ClearCodes(bits, KC_SYSTEM_POWER, KC_SYSTEM_WAKE + 1), KC_AUDIO_MUTE, KC_LAUNCHPAD + 1)
  }

  /** The new bitmap for an extra report. An unmapped usage maps to KC_NO,
      whose bit (bit 0 of byte 0) is then set. */
  function ExtraBits(bits: seq<bv8>, usage: uint16): (r: seq<bv8>)
    requires |bits| == NKRO_REPORT_BITS
    ensures |r| == NKRO_REPORT_BITS
  {
    if usage == 0 then ClearExtraBand(bits) else SetCodeBit(bits, Usage2Keycode(usage))
  }

  /** Usage 0 clears exactly the system and consumer band. */
  lemma ClearExtraBandAt(bits: seq<bv8>, c: int)
    requires |bits| == NKRO_REPORT_BITS && 0 <= c < NKRO_CODES
    ensures CodeSet(ClearExtraBand(bits), c) <==> CodeSet(bits, c) && !IsExtraKeycode(c)
  {
    var first := ClearCodes(bits, KC_SYSTEM_POWER, KC_SYSTEM_WAKE + 1);
    ClearCodesAt(bits, KC_SYSTEM_POWER, KC_SYSTEM_WAKE + 1, c);
    ClearCodesAt(first, KC_AUDIO_MUTE, KC_LAUNCHPAD + 1, c);
  }

  /** A usage sets the bit of its keycode and no other. */
  lemma ExtraBitsPress(bits: seq<bv8>, usage: uint16, c: int)
    requires |bits| == NKRO_REPORT_BITS && 0 <= c < NKRO_CODES && usage != 0
    ensures CodeSet(ExtraBits(bits, usage), c) <==> CodeSet(bits, c) || c == Usage2Keycode(usage)
  {
    SetCodeBitAt(bits, Usage2Keycode(usage), c);
  }

  /** Pressing an extra key and releasing it leaves its bit clear and
      every bit outside the band as it was. */
  lemma ExtraPressRelease(bits: seq<bv8>, usage: uint16, c: int)
    requires |bits| == NKRO_REPORT_BITS && 0 <= c < NKRO_CODES && Usage2Keycode(usage) != KC_NO
    ensures !CodeSet(ExtraBits(ExtraBits(bits, usage), 0), Usage2Keycode(usage))
    ensures !IsExtraKeycode(c) ==> (CodeSet(ExtraBits(ExtraBits(bits, usage), 0), c) <==> CodeSet(bits, c))
  {
    var pressed := ExtraBits(bits, usage);
    ClearExtraBandAt(pressed, Usage2Keycode(usage));
    ClearExtraBandAt(pressed, c);
    ExtraBitsPress(bits, usage, c);
  }

  /** A usage the table does not know sets the bit of keycode 0. */
  lemma ExtraBitsUnmapped(bits: seq<bv8>, usage: uint16)
    requires |bits| == NKRO_REPORT_BITS && usage != 0 && Usage2Keycode(usage) == KC_NO
    ensures CodeSet(ExtraBits(bits, usage), 0)
  {
    ExtraBitsPress(bits, usage, 0);
  }

  // ---------------------------------------------------------------------
  // send_raw_hid_report: the two packets.

  /** The shadow report's bytes as raw_hid_send sees them (report_nkro_t:
      report id, modifiers, bitmap). */
  function ShadowPacket(report: NkroReport): (p: seq<bv8>)
    requires |report.bits| == NKRO_REPORT_BITS
    ensures |p| == RAW_EPSIZE
  {
    [report.reportId, report.mods] + report.bits
  }

  /** Reading a report_nkro_t back from its bytes. */
  function ParseNkro(p: seq<bv8>): (report: NkroReport)
    requires |p| == RAW_EPSIZE
    ensures |report.bits| == NKRO_REPORT_BITS
  {
    NkroReport(p[0], p[1], p[2..])
  }

  /** The shadow packet carries the whole report and nothing else. */
  lemma ShadowPacketRoundTrip(report: NkroReport, p: seq<bv8>)
    requires |report.bits| == NKRO_REPORT_BITS && |p| == RAW_EPSIZE
    ensures ParseNkro(ShadowPacket(report)) == report
    ensures ShadowPacket(ParseNkro(p)) == p
  {
    assert ShadowPacket(report)[2..] == report.bits;
    assert p == [p[0], p[1]] + p[2..];
  }

  /** The diagnostic packet written over `raw`: report id 1, the active
      layer, the matrix size, the matrix rows, and the rest of `raw`. */
  function WriteDiagnostic(raw: seq<bv8>, layer: uint8, matrix: seq<bv8>): (out: seq<bv8>)
    requires |raw| == RAW_EPSIZE && |matrix| == MATRIX_BYTES
    ensures |out| == RAW_EPSIZE
  {
    [DIAGNOSTIC_ID, layer as bv8, MATRIX_ROWS as bv8, MATRIX_COLS as bv8] + matrix + raw[PACKET_TAIL..]
  }

  /** The packet a host tool reads: the header, the matrix, then zeros. */
  function DiagnosticPacket(layer: uint8, matrix: seq<bv8>): (p: seq<bv8>)
    requires |matrix| == MATRIX_BYTES
    ensures |p| == RAW_EPSIZE
  {
    [DIAGNOSTIC_ID, layer as bv8, MATRIX_ROWS as bv8, MATRIX_COLS as bv8] + matrix + Zeros(RAW_EPSIZE - PACKET_TAIL)
  }

  /** Over a buffer zero past the matrix it writes exactly that packet,
      whose fields sit where a host tool looks for them. */
  lemma DiagnosticLayout(raw: seq<bv8>, layer: uint8, matrix: seq<bv8>)
    requires |raw| == RAW_EPSIZE && |matrix| == MATRIX_BYTES
    requires forall i :: PACKET_TAIL <= i < RAW_EPSIZE ==> raw[i] == 0
    ensures WriteDiagnostic(raw, layer, matrix) == DiagnosticPacket(layer, matrix)
    ensures var p := DiagnosticPacket(layer, matrix);
      && p[0] == 1 && p[1] == layer as bv8 && p[2] == 8 && p[3] == 6
      && p[4..PACKET_TAIL] == matrix
      && forall i :: PACKET_TAIL <= i < RAW_EPSIZE ==> p[i] == 0
  {
    assert raw[PACKET_TAIL..] == Zeros(RAW_EPSIZE - PACKET_TAIL);
    var p := DiagnosticPacket(layer, matrix);
    assert p[4..PACKET_TAIL] == matrix;
  }

  /** send_raw_hid_report: the shadow packet, then the diagnostic packet,
      which stays in raw_hid_report. */
  function SendRawHidReport(s: State, matrix: seq<bv8>): (r: Step)
    requires BuffersOk(s) && |matrix| == MATRIX_BYTES
  {
    var raw := WriteDiagnostic(s.rawReport, s.activeLayer, matrix);
    Step(s.(rawReport := raw), [RawHidSend(ShadowPacket(s.shadow)), RawHidSend(raw)])
  }

  // ---------------------------------------------------------------------
  // The three senders.

  /** The real sender is called unless a host tool suppresses it. */
  function Forward(s: State, a: Action): seq<Action> {
    if s.suppressReal then [] else [a]
  }

  /** After forwarding, an armed channel mirrors the report: the new shadow
      is built from the old one and the report is sent out. */
  function Mirror(s: State, forward: seq<Action>, shadow: NkroReport, matrix: seq<bv8>): (r: Step)
    requires BuffersOk(s) && |shadow.bits| == NKRO_REPORT_BITS && |matrix| == MATRIX_BYTES
  {
    if s.sendRaw then
      var raw := SendRawHidReport(s.(shadow := shadow), matrix);
      Step(raw.state, forward + raw.actions)
    else Step(s, forward)
  }

  /** send_keyboard_user: the shadow takes the report's modifiers and the
      bitmap of its keys. */
  function SendKeyboard(s: State, report: KeyboardReport, matrix: seq<bv8>): (r: Step)
    requires BuffersOk(s) && |matrix| == MATRIX_BYTES
  {
    Mirror(s, Forward(s, ForwardKeyboard(report)),
           s.shadow.(mods := report.mods, bits := KeyboardBits(report.keys)), matrix)
  }

  /** send_nkro_user: the shadow becomes a copy of the report. */
  function SendNkro(s: State, report: NkroReport, matrix: seq<bv8>): (r: Step)
    requires BuffersOk(s) && |report.bits| == NKRO_REPORT_BITS && |matrix| == MATRIX_BYTES
  {
    Mirror(s, Forward(s, ForwardNkro(report)), report, matrix)
  }

  /** send_extra_user: the shadow's bitmap takes the usage. */
  function SendExtra(s: State, report: ExtraReport, matrix: seq<bv8>): (r: Step)
    requires BuffersOk(s) && |matrix| == MATRIX_BYTES
  {
    Mirror(s, Forward(s, ForwardExtra(report)),
           s.shadow.(bits := ExtraBits(s.shadow.bits, report.usage)), matrix)
  }

  /** Each sender forwards the report exactly when the real reports are
      not suppressed, and mirrors it exactly when the channel is armed:
      first the forward, then the shadow packet of the new shadow, then
      the diagnostic packet. */
  lemma MirrorActions(s: State, forward: seq<Action>, shadow: NkroReport, matrix: seq<bv8>)
    requires BuffersOk(s) && |shadow.bits| == NKRO_REPORT_BITS && |matrix| == MATRIX_BYTES
    ensures var r := Mirror(s, forward, shadow, matrix);
      r.actions == forward + (if s.sendRaw
        then [RawHidSend(ShadowPacket(shadow)), RawHidSend(WriteDiagnostic(s.rawReport, s.activeLayer, matrix))]
        else [])
    ensures var r := Mirror(s, forward, shadow, matrix);
      r.state == (if s.sendRaw
        then s.(shadow := shadow, rawReport := WriteDiagnostic(s.rawReport, s.activeLayer, matrix))
        else s)
  {
  }

  lemma ForwardExactly(s: State, a: Action)
    ensures a in Forward(s, a) <==> !s.suppressReal
    ensures |Forward(s, a)| <= 1
  {
  }

  /** The keyboard shadow depends on the report alone: sending the same
      report twice leaves the state the first send left. */
  lemma SendKeyboardIdempotent(s: State, report: KeyboardReport, matrix: seq<bv8>)
    requires BuffersOk(s) && |matrix| == MATRIX_BYTES
    ensures var once := SendKeyboard(s, report, matrix).state;
      BuffersOk(once) && SendKeyboard(once, report, matrix).state == once
  {
    var once := SendKeyboard(s, report, matrix).state;
    if s.sendRaw {
      var raw := WriteDiagnostic(s.rawReport, s.activeLayer, matrix);
      assert WriteDiagnostic(raw, s.activeLayer, matrix) == raw;
    }
  }

  /** With the channel armed, the NKRO shadow packet is the report's own
      bytes, the copy send_nkro_user makes. */
  lemma SendNkroMirrors(s: State, report: NkroReport, matrix: seq<bv8>)
    requires BuffersOk(s) && |report.bits| == NKRO_REPORT_BITS && |matrix| == MATRIX_BYTES
    requires s.sendRaw
    ensures var r := SendNkro(s, report, matrix);
      r.state.shadow == report
      && r.actions[|r.actions| - 2] == RawHidSend(ShadowPacket(report))
      && ParseNkro(ShadowPacket(report)) == report
  {
    MirrorActions(s, Forward(s, ForwardNkro(report)), report, matrix);
    ShadowPacketRoundTrip(report, ShadowPacket(report));
  }

  // ---------------------------------------------------------------------
  // raw_hid_receive and the heartbeat.

  /** The acknowledgement of an arm request: all zero but byte 1. */
  function AckPacket(): (p: seq<bv8>)
    ensures |p| == RAW_EPSIZE
  {
    Zeros(RAW_EPSIZE)[1 := RAW_ACK]
  }

  /** raw_hid_receive: 0xBE arms the channel, stamps the heartbeat and
      answers with the acknowledgement, which stays in raw_hid_report;
      0xBF disarms it; any other first byte is ignored. */
  function RawHidReceive(s: State, data: seq<bv8>, now: uint32): (r: Step)
    requires |data| > 0
  {
    if data[0] == RAW_ARM then
      Step(s.(lastHeartbeat := now, sendRaw := true, suppressReal := true, rawReport := AckPacket()),
           [RawHidSend(AckPacket())])
    else if data[0] == RAW_DISARM then
      Step(s.(sendRaw := false, suppressReal := false), [])
    else Step(s, [])
  }

  /** The dead-man timeout of housekeeping_task_user: a heartbeat older
      than 1500 ms disarms the channel. */
  function HeartbeatTimeout(s: State, now: uint32): (r: Step) {
    if Elapsed32(now, s.lastHeartbeat) > HEARTBEAT_TIMEOUT_MS
    then Step(s.(sendRaw := false, suppressReal := false), [])
    else Step(s, [])
  }

  /** Arming sets both flags, records the heartbeat and sends one packet,
      zero but for byte 1 = 0xEF. */
  lemma ArmAcknowledges(s: State, data: seq<bv8>, now: uint32)
    requires |data| > 0 && data[0] == RAW_ARM
    ensures var r := RawHidReceive(s, data, now);
      && r.state.sendRaw && r.state.suppressReal && r.state.lastHeartbeat == now
      && r.actions == [RawHidSend(r.state.rawReport)]
      && r.state.rawReport[1] == 0xEF
      && forall i :: 0 <= i < RAW_EPSIZE && i != 1 ==> r.state.rawReport[i] == 0
  {
  }

  /** Disarming clears both flags and sends nothing; any other byte
      changes nothing at all. */
  lemma DisarmOrIgnore(s: State, data: seq<bv8>, now: uint32)
    requires |data| > 0 && data[0] != RAW_ARM
    ensures var r := RawHidReceive(s, data, now);
      && r.actions == []
      && (data[0] == RAW_DISARM ==> r.state == s.(sendRaw := false, suppressReal := false))
      && (data[0] != RAW_DISARM ==> r.state == s)
  {
  }

  /** The timeout is strict: a host tool that answers within 1500 ms keeps
      the channel armed, and one that is 1501 ms late loses it, across the
      wrap of the 32-bit timer too. */
  lemma HeartbeatBoundary(s: State)
    ensures var t := s.lastHeartbeat;
      && HeartbeatTimeout(s, ((t + 1500) % TIMER_PERIOD) as uint32).state == s
      && !HeartbeatTimeout(s, ((t + 1501) % TIMER_PERIOD) as uint32).state.sendRaw
  {
    var t := s.lastHeartbeat;
    assert Elapsed32(((t + 1500) % TIMER_PERIOD) as uint32, t) == 1500;
    assert Elapsed32(((t + 1501) % TIMER_PERIOD) as uint32, t) == 1501;
  }

  /** The two flags always move together. */
  predicate FlagsAgree(s: State) {
    s.sendRaw == s.suppressReal
  }

  lemma ChannelFlagsAgree(s: State, data: seq<bv8>, now: uint32)
    requires |data| > 0 && FlagsAgree(s)
    ensures FlagsAgree(RawHidReceive(s, data, now).state)
    ensures FlagsAgree(HeartbeatTimeout(s, now).state)
  {
  }

  /** So while the channel is armed the real reports are never forwarded,
      and while it is disarmed they always are: a report is either mirrored
      or forwarded, never both and never neither. */
  lemma ForwardOrMirror(s: State, report: KeyboardReport, matrix: seq<bv8>)
    requires BuffersOk(s) && |matrix| == MATRIX_BYTES && FlagsAgree(s)
    ensures var r := SendKeyboard(s, report, matrix);
      (ForwardKeyboard(report) in r.actions) != s.sendRaw
      && (RawHidSend(ShadowPacket(r.state.shadow)) in r.actions <==> s.sendRaw)
  {
    var r := SendKeyboard(s, report, matrix);
    var shadow := s.shadow.(mods := report.mods, bits := KeyboardBits(report.keys));
    MirrorActions(s, Forward(s, ForwardKeyboard(report)), shadow, matrix);
    if !s.sendRaw {
      assert r.actions == [ForwardKeyboard(report)];
    }
  }

  /** No report path touches the modifiers or the one-shot state, and each
      keeps the buffers and the invariant. */
  lemma MirrorValid(s: State, forward: seq<Action>, shadow: NkroReport, matrix: seq<bv8>)
    requires Valid(s) && |shadow.bits| == NKRO_REPORT_BITS && |matrix| == MATRIX_BYTES
    requires forall a :: a in forward ==> !a.RegisterCode? && !a.UnregisterCode?
    ensures var r := Mirror(s, forward, shadow, matrix);
      Valid(r.state) && r.state.modBits == s.modBits && r.state.osmBits == s.osmBits
      && r.state.osmKeys == s.osmKeys && r.state.layerStack == s.layerStack
  {
    MirrorActions(s, forward, shadow, matrix);
  }

  lemma RawHidReceiveValid(s: State, data: seq<bv8>, now: uint32)
    requires Valid(s) && |data| > 0
    ensures Valid(RawHidReceive(s, data, now).state)
  {
  }

  /** The heartbeat timeout keeps the invariant. */
  lemma HeartbeatTimeoutValid(s: State, now: uint32)
    requires Valid(s)
    ensures Valid(HeartbeatTimeout(s, now).state)
  {
  }
}
