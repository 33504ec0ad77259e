/** What the hooks write into the caller's buffers once a DS5 is connected:
    the analog override of `SceCtrlData` records (`patch_analogdata`), the
    front-panel touch override (`patch_touchdata`), the accelerometer copy
    (`patch_motion_state`) and the battery code of `sceCtrlGetBatteryInfo`. */
module Patches {
  import opened Bytes
  import opened Report
  import opened Effects
  import opened Emulation

  /** `SceCtrlData`: one sampled pad record. */
  datatype CtrlData = CtrlData(
    timeStamp: nat, buttons: bv32,
    lx: byte, ly: byte, rx: byte, ry: byte,
    up: byte, right: byte, down: byte, left: byte,
    lt: byte, rt: byte, l1: byte, r1: byte,
    triangle: byte, circle: byte, cross: byte, square: byte,
    reserved: seq<byte>)

  /** A stick axis: the controller's value when outside the dead zone. */
  function AxisOverride(native: byte, v: byte): (o: byte)
    ensures o == (if v <= 124 || v >= 132 then v else native)
  {
    if AxisMoved(v) then v else native
  }

  /** A trigger: the controller's value when above the threshold. */
  function TriggerOverride(native: byte, v: byte): (o: byte)
    ensures o == (if v >= 4 then v else native)
  {
    if TriggerMoved(v) then v else native
  }

  /** One record as `patch_analogdata` leaves it: each stick axis outside the
      dead zone and each trigger above it takes the controller's value. */
  function PatchPad(p: CtrlData, r: InputReport): (q: CtrlData)
    ensures q.lx == (if r.leftX <= 124 || r.leftX >= 132 then r.leftX else p.lx)
    ensures q.ly == (if r.leftY <= 124 || r.leftY >= 132 then r.leftY else p.ly)
    ensures q.rx == (if r.rightX <= 124 || r.rightX >= 132 then r.rightX else p.rx)
    ensures q.ry == (if r.rightY <= 124 || r.rightY >= 132 then r.rightY else p.ry)
    ensures q.lt == (if r.lTrigger >= 4 then r.lTrigger else p.lt)
    ensures q.rt == (if r.rTrigger >= 4 then r.rTrigger else p.rt)
    ensures q.(lx := p.lx, ly := p.ly, rx := p.rx, ry := p.ry, lt := p.lt, rt := p.rt) == p
  {
    p.(lx := AxisOverride(p.lx, r.leftX), ly := AxisOverride(p.ly, r.leftY),
       rx := AxisOverride(p.rx, r.rightX), ry := AxisOverride(p.ry, r.rightY),
       lt := TriggerOverride(p.lt, r.lTrigger), rt := TriggerOverride(p.rt, r.rTrigger))
  }

  /** Patching twice with the same report is patching once. */
  lemma PatchPadIdempotent(p: CtrlData, r: InputReport)
    ensures PatchPad(PatchPad(p, r), r) == PatchPad(p, r)
  {
  }

  /** A report whose sticks and triggers all rest in the dead zone leaves the record alone. */
  lemma PatchPadAtRest(p: CtrlData, r: InputReport)
    ensures !Moved(r) <==> forall q :: PatchPad(q, r) == q
  {
    if Moved(r) {
      var q := p.(lx := 128, ly := 128, rx := 128, ry := 128, lt := 0, rt := 0);
      assert PatchPad(q, r) != q;
    }
  }

  /** `patch_analogdata`: rewrites the first `count` records in place. */
  method PatchAnalogData(pads: array<CtrlData>, count: nat, r: InputReport)
    requires count <= pads.Length
    modifies pads
    ensures forall i :: 0 <= i < count ==> pads[i] == PatchPad(old(pads[i]), r)
    ensures forall i :: count <= i < pads.Length ==> pads[i] == old(pads[i])
  {
    var i := 0;
    while i < count
      invariant 0 <= i <= count
      invariant forall j :: 0 <= j < i ==> pads[j] == PatchPad(old(pads[j]), r)
      invariant forall j :: i <= j < pads.Length ==> pads[j] == old(pads[j])
    {
      var k := pads[i];
      pads[i] := PatchPad(k, r);
      i := i + 1;
    }
  }

  /** `SCE_TOUCH_PORT_FRONT`. */
  const TOUCH_PORT_FRONT := 0
  const TOUCHPAD_W := 1920
  const TOUCHPAD_H := 940
  const FRONT_W := 1920
  const FRONT_H := 1080
  /** `SceTouchData.report` holds eight slots. */
  const TOUCH_SLOTS := 8

  /** `SceTouchReport`. */
  datatype TouchReport = TouchReport(id: byte, force: byte, x: u16, y: u16, reserved: seq<byte>, info: u16)

  /** `SceTouchData`. */
  datatype TouchData = TouchData(timeStamp: nat, status: u32, reportNum: u32, report: seq<TouchReport>)

  predicate TouchShaped(d: TouchData) {
    |d.report| == TOUCH_SLOTS
  }

  /** Pad x to screen x: `x * 1920 / 1920`, the identity. */
  function ScaleX(x: bv12): (v: u16)
    ensures v == x as int
  {
    (x as int * FRONT_W) / TOUCHPAD_W
  }

  /** Pad y to screen y: `y * 1080 / 940`, rounded down and not clamped, so
      rows 940 to 4095 land below the 1080-row screen. */
  function ScaleY(y: bv12): (v: u16)
    ensures v * TOUCHPAD_H <= y as int * FRONT_H < (v + 1) * TOUCHPAD_H
    ensures v < FRONT_H <==> y as int < TOUCHPAD_H
  {
    (y as int * FRONT_H) / TOUCHPAD_H
  }

  /** A contact is reported when its `activelow` bit is clear. */
  predicate Active(f: Finger) {
    f.activeLow == 0
  }

  /** `num_reports`: how many of the two contacts are down. */
  function ActiveCount(r: InputReport): (n: nat)
    ensures n <= 2
    ensures n == 0 <==> !Active(r.finger1) && !Active(r.finger2)
    ensures n == 2 <==> Active(r.finger1) && Active(r.finger2)
  {
    (if Active(r.finger1) then 1 else 0) + (if Active(r.finger2) then 1 else 0)
  }

  /** Slot `t` overwritten with finger `f`: id and scaled position; force,
      reserved bytes and info keep what the native call wrote. */
  function Contact(f: Finger, t: TouchReport): (c: TouchReport)
    ensures c.id as int == f.id as int && c.x == f.x as int
    ensures c.y * TOUCHPAD_H <= f.y as int * FRONT_H < (c.y + 1) * TOUCHPAD_H
    ensures c.(id := t.id, x := t.x, y := t.y) == t
  {
    t.(id := f.id as byte, x := ScaleX(f.x), y := ScaleY(f.y))
  }

  /** One record as `patch_touchdata` leaves it: finger 1 in slot 0, finger 2
      in slot 1, each only when active, and the count of active fingers as
      `reportNum` only when it is not zero. */
  function PatchTouch(d: TouchData, r: InputReport): (q: TouchData)
    requires TouchShaped(d)
    ensures TouchShaped(q)
    ensures q.report[0] == (if Active(r.finger1) then Contact(r.finger1, d.report[0]) else d.report[0])
    ensures q.report[1] == (if Active(r.finger2) then Contact(r.finger2, d.report[1]) else d.report[1])
    ensures q.reportNum == (if ActiveCount(r) > 0 then ActiveCount(r) else d.reportNum)
    ensures q.timeStamp == d.timeStamp && q.status == d.status && q.report[2..] == d.report[2..]
  {
    d.(report := d.report
         [0 := if Active(r.finger1) then Contact(r.finger1, d.report[0]) else d.report[0]]
         [1 := if Active(r.finger2) then Contact(r.finger2, d.report[1]) else d.report[1]],
       reportNum := if ActiveCount(r) > 0 then ActiveCount(r) else d.reportNum)
  }

  /** `reportNum` keeps what the native call wrote, for every record, exactly
      when no contact is active. */
  lemma PatchTouchIdle(d: TouchData, r: InputReport)
    requires TouchShaped(d)
    ensures ActiveCount(r) == 0 <==> forall x: TouchData :: TouchShaped(x) ==> PatchTouch(x, r).reportNum == x.reportNum
  {
    if ActiveCount(r) > 0 {
      var x := d.(reportNum := 0);
      assert PatchTouch(x, r).reportNum != x.reportNum;
    }
  }

  /** With no active contact the whole record is untouched. */
  lemma PatchTouchNoContact(d: TouchData, r: InputReport)
    requires TouchShaped(d) && ActiveCount(r) == 0
    ensures PatchTouch(d, r) == d
  {
  }

  /** Patching twice with the same report is patching once. */
  lemma PatchTouchIdempotent(d: TouchData, r: InputReport)
    requires TouchShaped(d)
    ensures PatchTouch(PatchTouch(d, r), r) == PatchTouch(d, r)
  {
  }

  /** Only the second finger down: `reportNum` says one contact, but that
      contact sits in slot 1 and slot 0 keeps the native data. */
  lemma SecondFingerOnly(d: TouchData, r: InputReport)
    requires TouchShaped(d) && !Active(r.finger1) && Active(r.finger2)
    ensures PatchTouch(d, r).reportNum == 1
    ensures PatchTouch(d, r).report[0] == d.report[0]
    ensures PatchTouch(d, r).report[1].id as int == r.finger2.id as int
  {
  }

  /** The centre of the pad maps to the centre of the screen: (960, 470) to (960, 540). */
  lemma TouchCentre()
    ensures ScaleX(960) == 960 && ScaleY(470) == 540
    ensures ScaleY(939) == 1078 && ScaleY(940) == 1080 && ScaleY(4095) == 4704
  {
  }

  /** `patch_touchdata`: on the front port, rewrites the first `nBufs`
      records in place and kicks the power timer once per record when some
      contact is active; on any other port it does nothing. */
  method PatchTouchData(port: u32, data: array<TouchData>, nBufs: nat, r: InputReport)
    returns (ticks: seq<Action>)
    requires nBufs <= data.Length
    requires forall i :: 0 <= i < nBufs ==> TouchShaped(data[i])
    modifies data
    ensures port != TOUCH_PORT_FRONT ==> ticks == [] && data[..] == old(data[..])
    ensures port == TOUCH_PORT_FRONT ==>
      (forall i :: 0 <= i < nBufs ==> data[i] == PatchTouch(old(data[i]), r))
      && (forall i :: nBufs <= i < data.Length ==> data[i] == old(data[i]))
      && ticks == (if ActiveCount(r) > 0 then seq(nBufs, _ => PowerTick) else [])
  {
    ticks := [];
    if port != TOUCH_PORT_FRONT {
      return;
    }
    var i := 0;
    while i < nBufs
      invariant 0 <= i <= nBufs
      invariant forall j :: 0 <= j < i ==> data[j] == PatchTouch(old(data[j]), r)
      invariant forall j :: i <= j < data.Length ==> data[j] == old(data[j])
      invariant ticks == (if ActiveCount(r) > 0 then seq(i, _ => PowerTick) else [])
    {
      if ActiveCount(r) > 0 {
        ticks := ticks + [PowerTick];
      }
      var d := data[i];
      data[i] := PatchTouch(d, r);
      i := i + 1;
    }
  }

  datatype Vector3 = Vector3(x: real, y: real, z: real)

  /** `SceMotionState`, with the orientation block (quaternion, matrices,
      basic orientation) kept as one opaque list of values. */
  datatype MotionState = MotionState(
    timestamp: nat, acceleration: Vector3, angularVelocity: Vector3,
    orientation: seq<real>, hostTimestamp: nat)

  /** `patch_motion_state` as written: acceleration x takes accel_x, y takes
      accel_y and then accel_z over it, so only accel_z remains; z and
      everything else stay native. */
  function PatchMotion(m: MotionState, r: InputReport): (q: MotionState)
    ensures q.acceleration == Vector3(Signed16(r.accelX) as real, Signed16(r.accelZ) as real, m.acceleration.z)
    ensures q.(acceleration := m.acceleration) == m
  {
    m.(acceleration := m.acceleration.(x := Signed16(r.accelX) as real, y := Signed16(r.accelZ) as real))
  }

  /** The accelerometer's y reading and the gyroscope never reach the state. */
  lemma MotionIgnoresAccelYAndGyro(m: MotionState, r: InputReport, ay: bv16, gx: bv16, gy: bv16, gz: bv16)
    ensures PatchMotion(m, r.(accelY := ay, gyroX := gx, gyroY := gy, gyroZ := gz)) == PatchMotion(m, r)
  {
  }

  /** Whatever the controller reads on its y axis, acceleration y is zero
      whenever accel_z is: accel_y never reaches the state. */
  lemma MotionDropsVerticalAxis(m: MotionState, r: InputReport)
    requires r.accelZ == 0
    ensures PatchMotion(m, r).acceleration.y == 0.0
  {
  }

  /** The code `sceCtrlGetBatteryInfo` reports: 0xEE (charging) or 0xEF
      (charged) while plugged in, otherwise a level from 0 to 5. */
  function BatteryCode(r: InputReport): (k: nat)
    ensures r.usbPlugged == 1 ==> (k == 0xEE <==> r.batteryLevel <= 10) && (k == 0xEF <==> r.batteryLevel > 10)
    ensures r.usbPlugged == 0 ==> k <= 5 && (k == 0 <==> r.batteryLevel == 0)
    ensures r.usbPlugged == 0 && r.batteryLevel >= 8 ==> k == 5
    ensures r.usbPlugged == 0 && 0 < r.batteryLevel < 8 ==> 2 * k - 2 <= r.batteryLevel as int <= 2 * k - 1
  {
    if r.usbPlugged == 1 then
      (if r.batteryLevel <= 10 then 0xEE else 0xEF)
    else
      var k := if r.batteryLevel == 0 then 0 else r.batteryLevel as int / 2 + 1;
      if k > 5 then 5 else k
  }

  /** Unplugged, a fuller battery never reports a lower level. */
  lemma BatteryMonotone(a: InputReport, b: InputReport)
    requires a.usbPlugged == 0 && b.usbPlugged == 0 && a.batteryLevel <= b.batteryLevel
    ensures BatteryCode(a) <= BatteryCode(b)
  {
  }

  lemma BatteryExamples(r: InputReport)
    ensures BatteryCode(r.(usbPlugged := 0, batteryLevel := 1)) == 1
    ensures BatteryCode(r.(usbPlugged := 0, batteryLevel := 9)) == 5
    ensures BatteryCode(r.(usbPlugged := 1, batteryLevel := 10)) == 0xEE
    ensures BatteryCode(r.(usbPlugged := 1, batteryLevel := 11)) == 0xEF
  {
  }
}
