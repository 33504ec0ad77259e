/** The DS5 Bluetooth input report (`struct ds5_input_report`): a packed,
    little-endian, LSB-first bit-field overlay on the bytes received from the
    controller, padded to 64 bytes by `aligned(32)`. */
module Report {
  import opened Bytes

  /** `sizeof(struct ds5_input_report)`: 43 packed bytes rounded up to 64. */
  const REPORT_SIZE := 64
  const PACKED_SIZE := 43
  const UNK1_SIZE := 5
  const UNK2_SIZE := 2
  const TAIL_SIZE := REPORT_SIZE - PACKED_SIZE

  /** One 32-bit touch word: `id:7 | activelow:1 | x:12 | y:12`. */
  datatype Finger = Finger(id: bv7, activeLow: bv1, x: bv12, y: bv12)

  /** Every field of the report, in layout order. The three gyroscope words
      also go by roll, yaw and pitch (a C union): see the members below. */
  datatype InputReport = InputReport(
    reportId: byte,
    leftX: byte, leftY: byte, rightX: byte, rightY: byte,
    dpad: bv4, square: bv1, cross: bv1, circle: bv1, triangle: bv1,
    l1: bv1, r1: bv1, l2: bv1, r2: bv1, share: bv1, options: bv1, l3: bv1, r3: bv1,
    ps: bv1, tpad: bv1, counter: bv6,
    lTrigger: byte, rTrigger: byte,
    cnt2: byte, cnt3: byte, battery: byte,
    accelX: bv16, accelY: bv16, accelZ: bv16,
    gyroZ: bv16, gyroY: bv16, gyroX: bv16,
    unk1: seq<byte>,
    batteryLevel: bv4, usbPlugged: bv1, headphones: bv1, microphone: bv1, padding: bv1,
    unk2: seq<byte>, trackpadPackets: byte, packetCnt: byte,
    finger1: Finger, finger2: Finger,
    tail: seq<byte>)
  {
    /** `roll` shares its storage with `gyro_z`: the word at bytes 19-20. */
    function Roll(): (v: bv16)
      ensures U16(Motion(this)[6], Motion(this)[7]) == v
    {
      gyroZ
    }

    /** `yaw` shares its storage with `gyro_y`: the word at bytes 21-22. */
    function Yaw(): (v: bv16)
      ensures U16(Motion(this)[8], Motion(this)[9]) == v
    {
      gyroY
    }

    /** `pitch` shares its storage with `gyro_x`: the word at bytes 23-24. */
    function Pitch(): (v: bv16)
      ensures U16(Motion(this)[10], Motion(this)[11]) == v
    {
      gyroX
    }
  }

  /** The byte arrays of the report have the lengths the struct gives them. */
  predicate WellFormed(r: InputReport) {
    |r.unk1| == UNK1_SIZE && |r.unk2| == UNK2_SIZE && |r.tail| == TAIL_SIZE
  }

  /** A one-bit field placed at bit `pos` of its byte. */
  function Flag(b: bv1, pos: nat): byte
    requires pos < 8
  {
    (b as byte) << pos
  }

  /** Bit `pos` of `x`, as a one-bit field. */
  function BitOf(x: byte, pos: nat): bv1
    requires pos < 8
  {
    ((x >> pos) & 1) as bv1
  }

  /** Byte 5: the D-pad clock position in the low nibble, then the face buttons. */
  function FaceByte(r: InputReport): byte {
    (r.dpad as byte) | Flag(r.square, 4) | Flag(r.cross, 5)
      | Flag(r.circle, 6) | Flag(r.triangle, 7)
  }

  /** Byte 6: shoulder, trigger-click, share/options and stick-click bits. */
  function ShoulderByte(r: InputReport): byte {
    Flag(r.l1, 0) | Flag(r.r1, 1) | Flag(r.l2, 2) | Flag(r.r2, 3)
      | Flag(r.share, 4) | Flag(r.options, 5) | Flag(r.l3, 6) | Flag(r.r3, 7)
  }

  /** Byte 7: PS and touchpad-click bits, then the 6-bit counter. */
  function SystemByte(r: InputReport): byte {
    Flag(r.ps, 0) | Flag(r.tpad, 1) | ((r.counter as byte) << 2)
  }

  /** Byte 30: battery level in the low nibble, then the power and audio flags. */
  function StatusByte(r: InputReport): byte {
    (r.batteryLevel as byte) | Flag(r.usbPlugged, 4) | Flag(r.headphones, 5)
      | Flag(r.microphone, 6) | Flag(r.padding, 7)
  }

  function FingerWord(f: Finger): bv32 {
    (f.id as bv32) | ((f.activeLow as bv32) << 7) | ((f.x as bv32) << 8) | ((f.y as bv32) << 20)
  }

  function DecodeFinger(w: bv32): (f: Finger)
    ensures FingerWord(f) == w
  {
    Finger((w & 0x7F) as bv7, ((w >> 7) & 1) as bv1, ((w >> 8) & 0xFFF) as bv12, (w >> 20) as bv12)
  }

  /** Bytes 0-12: id, sticks, button bytes, triggers, counters, battery byte. */
  function Header(r: InputReport): (h: seq<byte>)
    ensures |h| == 13
  {
    [r.reportId, r.leftX, r.leftY, r.rightX, r.rightY,
     FaceByte(r), ShoulderByte(r), SystemByte(r),
     r.lTrigger, r.rTrigger, r.cnt2, r.cnt3, r.battery]
  }

  /** Bytes 13-24: accelerometer x, y, z then gyroscope z, y, x. */
  function Motion(r: InputReport): (m: seq<byte>)
    ensures |m| == 12
  {
    U16Bytes(r.accelX) + U16Bytes(r.accelY) + U16Bytes(r.accelZ)
      + U16Bytes(r.gyroZ) + U16Bytes(r.gyroY) + U16Bytes(r.gyroX)
  }

  /** Bytes 35-42: the two touch words. */
  function Touch(r: InputReport): (t: seq<byte>)
    ensures |t| == 8
  {
    U32Bytes(FingerWord(r.finger1)) + U32Bytes(FingerWord(r.finger2))
  }

  /** The 64 bytes whose overlay reads as `r`. */
  function Encode(r: InputReport): (raw: seq<byte>)
    requires WellFormed(r)
    ensures |raw| == REPORT_SIZE
  {
    Header(r) + Motion(r) + r.unk1 + [StatusByte(r)] + r.unk2
      + [r.trackpadPackets, r.packetCnt] + Touch(r) + r.tail
  }

  /** Reads the struct overlay off the first 64 received bytes (the
      `memcpy(&ds5_input, recv_buff, sizeof(ds5_input))` of the read loop). */
  function Decode(raw: seq<byte>): (r: InputReport)
    requires |raw| == REPORT_SIZE
    ensures WellFormed(r)
    ensures r.leftX == raw[1] && r.leftY == raw[2] && r.rightX == raw[3] && r.rightY == raw[4]
    ensures r.dpad as byte == raw[5] & 0x0F && r.batteryLevel as byte == raw[30] & 0x0F
    ensures r.lTrigger == raw[8] && r.rTrigger == raw[9]
  {
    InputReport(
      raw[0],
      raw[1], raw[2], raw[3], raw[4],
      (raw[5] & 0x0F) as bv4, BitOf(raw[5], 4), BitOf(raw[5], 5), BitOf(raw[5], 6), BitOf(raw[5], 7),
      BitOf(raw[6], 0), BitOf(raw[6], 1), BitOf(raw[6], 2), BitOf(raw[6], 3),
      BitOf(raw[6], 4), BitOf(raw[6], 5), BitOf(raw[6], 6), BitOf(raw[6], 7),
      BitOf(raw[7], 0), BitOf(raw[7], 1), (raw[7] >> 2) as bv6,
      raw[8], raw[9],
      raw[10], raw[11], raw[12],
      U16(raw[13], raw[14]), U16(raw[15], raw[16]), U16(raw[17], raw[18]),
      U16(raw[19], raw[20]), U16(raw[21], raw[22]), U16(raw[23], raw[24]),
      raw[25..30],
      (raw[30] & 0x0F) as bv4, BitOf(raw[30], 4), BitOf(raw[30], 5), BitOf(raw[30], 6), BitOf(raw[30], 7),
      raw[31..33], raw[33], raw[34],
      DecodeFinger(U32(raw[35], raw[36], raw[37], raw[38])),
      DecodeFinger(U32(raw[39], raw[40], raw[41], raw[42])),
      raw[43..])
  }

  lemma ButtonBytesOf(raw: seq<byte>)
    requires |raw| == REPORT_SIZE
    ensures FaceByte(Decode(raw)) == raw[5]
    ensures ShoulderByte(Decode(raw)) == raw[6]
    ensures SystemByte(Decode(raw)) == raw[7]
    ensures StatusByte(Decode(raw)) == raw[30]
  {
  }

  lemma HeaderOf(raw: seq<byte>)
    requires |raw| == REPORT_SIZE
    ensures Header(Decode(raw)) == raw[..13]
  {
    ButtonBytesOf(raw);
  }

  lemma U16BytesOf(lo: byte, hi: byte)
    ensures U16Bytes(U16(lo, hi)) == [lo, hi]
  {
  }

  lemma MotionOf(raw: seq<byte>)
    requires |raw| == REPORT_SIZE
    ensures Motion(Decode(raw)) == raw[13..25]
  {
    U16BytesOf(raw[13], raw[14]);
    U16BytesOf(raw[15], raw[16]);
    U16BytesOf(raw[17], raw[18]);
    U16BytesOf(raw[19], raw[20]);
    U16BytesOf(raw[21], raw[22]);
    U16BytesOf(raw[23], raw[24]);
    assert raw[13..25] == [raw[13], raw[14]] + [raw[15], raw[16]] + [raw[17], raw[18]]
      + [raw[19], raw[20]] + [raw[21], raw[22]] + [raw[23], raw[24]];
  }

  lemma MotionFieldsOf(r: InputReport)
    ensures U16(Motion(r)[0], Motion(r)[1]) == r.accelX && U16(Motion(r)[2], Motion(r)[3]) == r.accelY
    ensures U16(Motion(r)[4], Motion(r)[5]) == r.accelZ && U16(Motion(r)[6], Motion(r)[7]) == r.gyroZ
    ensures U16(Motion(r)[8], Motion(r)[9]) == r.gyroY && U16(Motion(r)[10], Motion(r)[11]) == r.gyroX
  {
  }

  lemma TouchFieldsOf(r: InputReport)
    ensures U32(Touch(r)[0], Touch(r)[1], Touch(r)[2], Touch(r)[3]) == FingerWord(r.finger1)
    ensures U32(Touch(r)[4], Touch(r)[5], Touch(r)[6], Touch(r)[7]) == FingerWord(r.finger2)
  {
  }

  lemma TouchOf(raw: seq<byte>)
    requires |raw| == REPORT_SIZE
    ensures Touch(Decode(raw)) == raw[35..43]
  {
  }

  /** Decoding is lossless: the encoding of the decoded report gives the bytes back. */
  lemma {:induction false} EncodeDecode(raw: seq<byte>)
    requires |raw| == REPORT_SIZE
    ensures Encode(Decode(raw)) == raw
  {
    var r := Decode(raw);
    HeaderOf(raw);
    MotionOf(raw);
    TouchOf(raw);
    ButtonBytesOf(raw);
    assert raw == raw[..13] + raw[13..25] + raw[25..30] + [raw[30]] + raw[31..33]
      + [raw[33], raw[34]] + raw[35..43] + raw[43..];
  }

  lemma EncodeSlices(r: InputReport)
    requires WellFormed(r)
    ensures Encode(r)[..13] == Header(r) && Encode(r)[13..25] == Motion(r)
    ensures Encode(r)[25..30] == r.unk1 && Encode(r)[30] == StatusByte(r)
    ensures Encode(r)[31..33] == r.unk2 && Encode(r)[33] == r.trackpadPackets
    ensures Encode(r)[34] == r.packetCnt && Encode(r)[35..43] == Touch(r) && Encode(r)[43..] == r.tail
  {
    var a := Header(r) + Motion(r) + r.unk1;
    var b := a + [StatusByte(r)] + r.unk2 + [r.trackpadPackets, r.packetCnt];
    assert a[..13] == Header(r) && a[13..25] == Motion(r) && a[25..] == r.unk1;
    assert Encode(r)[..30] == a;
    assert Encode(r)[..35] == b;
    assert b[31..33] == r.unk2 && b[33] == r.trackpadPackets && b[34] == r.packetCnt;
    assert Encode(r)[35..43] == Touch(r);
  }

  lemma FaceFieldsOf(r: InputReport)
    ensures (FaceByte(r) & 0x0F) as bv4 == r.dpad
    ensures BitOf(FaceByte(r), 4) == r.square && BitOf(FaceByte(r), 5) == r.cross
    ensures BitOf(FaceByte(r), 6) == r.circle && BitOf(FaceByte(r), 7) == r.triangle
  {
  }

  lemma ShoulderFieldsOf(r: InputReport)
    ensures BitOf(ShoulderByte(r), 0) == r.l1 && BitOf(ShoulderByte(r), 1) == r.r1
    ensures BitOf(ShoulderByte(r), 2) == r.l2 && BitOf(ShoulderByte(r), 3) == r.r2
    ensures BitOf(ShoulderByte(r), 4) == r.share && BitOf(ShoulderByte(r), 5) == r.options
    ensures BitOf(ShoulderByte(r), 6) == r.l3 && BitOf(ShoulderByte(r), 7) == r.r3
  {
  }

  lemma SystemFieldsOf(r: InputReport)
    ensures BitOf(SystemByte(r), 0) == r.ps && BitOf(SystemByte(r), 1) == r.tpad
    ensures (SystemByte(r) >> 2) as bv6 == r.counter
  {
  }

  lemma StatusFieldsOf(r: InputReport)
    ensures (StatusByte(r) & 0x0F) as bv4 == r.batteryLevel
    ensures BitOf(StatusByte(r), 4) == r.usbPlugged && BitOf(StatusByte(r), 5) == r.headphones
    ensures BitOf(StatusByte(r), 6) == r.microphone && BitOf(StatusByte(r), 7) == r.padding
  {
  }

  lemma FingerRoundTrip(f: Finger)
    ensures DecodeFinger(FingerWord(f)) == f
  {
  }

  /** Every well-formed report is the decoding of its encoding. */
  lemma {:induction false} DecodeEncode(r: InputReport)
    requires WellFormed(r)
    ensures Decode(Encode(r)) == r
  {
    var raw := Encode(r);
    EncodeSlices(r);
    FaceFieldsOf(r);
    ShoulderFieldsOf(r);
    SystemFieldsOf(r);
    StatusFieldsOf(r);
    MotionFieldsOf(r);
    TouchFieldsOf(r);
    FingerRoundTrip(r.finger1);
    FingerRoundTrip(r.finger2);
    var h, m, t := Header(r), Motion(r), Touch(r);
    assert raw[5] == h[5] && raw[6] == h[6] && raw[7] == h[7];
    assert raw[13] == m[0] && raw[14] == m[1] && raw[15] == m[2] && raw[16] == m[3];
    assert raw[17] == m[4] && raw[18] == m[5] && raw[19] == m[6] && raw[20] == m[7];
    assert raw[21] == m[8] && raw[22] == m[9] && raw[23] == m[10] && raw[24] == m[11];
    assert raw[35] == t[0] && raw[36] == t[1] && raw[37] == t[2] && raw[38] == t[3];
    assert raw[39] == t[4] && raw[40] == t[5] && raw[41] == t[6] && raw[42] == t[7];
  }
}
