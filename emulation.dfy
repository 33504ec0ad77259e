/** Projection of a decoded report onto the console's button and analog
    emulation (`set_input_emulation`, `reset_input_emulation`) and the
    dead-zone test that decides whether the idle timer is kicked. */
module Emulation {
  import opened Bytes
  import opened Report
  import opened Effects

  const ANALOG_THRESHOLD := 3
  const STICK_CENTER := 128

  /** The `SCE_CTRL_*` button bits. */
  const SCE_CTRL_SELECT: bv32 := 0x0001
  const SCE_CTRL_L3: bv32 := 0x0002
  const SCE_CTRL_R3: bv32 := 0x0004
  const SCE_CTRL_START: bv32 := 0x0008
  const SCE_CTRL_UP: bv32 := 0x0010
  const SCE_CTRL_RIGHT: bv32 := 0x0020
  const SCE_CTRL_DOWN: bv32 := 0x0040
  const SCE_CTRL_LEFT: bv32 := 0x0080
  const SCE_CTRL_LTRIGGER: bv32 := 0x0100
  const SCE_CTRL_RTRIGGER: bv32 := 0x0200
  const SCE_CTRL_L1: bv32 := 0x0400
  const SCE_CTRL_R1: bv32 := 0x0800
  const SCE_CTRL_TRIANGLE: bv32 := 0x1000
  const SCE_CTRL_CIRCLE: bv32 := 0x2000
  const SCE_CTRL_CROSS: bv32 := 0x4000
  const SCE_CTRL_SQUARE: bv32 := 0x8000
  const SCE_CTRL_INTERCEPTED: bv32 := 0x10000

  /** The `SCE_CTRL_*` bit of each console button. */
  function Mask(b: Button): bv32 {
    match b
    case Select => SCE_CTRL_SELECT
    case L3 => SCE_CTRL_L3
    case R3 => SCE_CTRL_R3
    case Start => SCE_CTRL_START
    case Up => SCE_CTRL_UP
    case Right => SCE_CTRL_RIGHT
    case Down => SCE_CTRL_DOWN
    case Left => SCE_CTRL_LEFT
    case LTrigger => SCE_CTRL_LTRIGGER
    case RTrigger => SCE_CTRL_RTRIGGER
    case L1 => SCE_CTRL_L1
    case R1 => SCE_CTRL_R1
    case Triangle => SCE_CTRL_TRIANGLE
    case Circle => SCE_CTRL_CIRCLE
    case Cross => SCE_CTRL_CROSS
    case Square => SCE_CTRL_SQUARE
    case Intercepted => SCE_CTRL_INTERCEPTED
  }

  /** The bits of all seventeen buttons. */
  const ALL_BUTTONS: bv32 := 0x0001_FFFF

  const DIRECTIONS: bv32 := 0x0000_00F0

  /** Every button owns one bit of its own. */
  lemma MasksDistinct(a: Button, b: Button)
    ensures Mask(a) != 0 && Mask(a) & ALL_BUTTONS == Mask(a)
    ensures a != b ==> Mask(a) & Mask(b) == 0
  {
  }

  /** The direction bits a 4-bit D-pad value presses. */
  function DpadButtons(d: bv4): (m: bv32)
    ensures m & DIRECTIONS == m
    ensures d == 0 ==> m == Mask(Up)
    ensures d == 1 ==> m == Mask(Up) | Mask(Right)
    ensures d == 2 ==> m == Mask(Right)
    ensures d == 3 ==> m == Mask(Right) | Mask(Down)
    ensures d == 4 ==> m == Mask(Down)
    ensures d == 5 ==> m == Mask(Down) | Mask(Left)
    ensures d == 6 ==> m == Mask(Left)
    ensures d == 7 ==> m == Mask(Left) | Mask(Up)
    ensures d >= 8 ==> m == 0
  {
    (if d == 0 || d == 1 || d == 7 then SCE_CTRL_UP else 0)
      | (if d == 1 || d == 2 || d == 3 then SCE_CTRL_RIGHT else 0)
      | (if d == 3 || d == 4 || d == 5 then SCE_CTRL_DOWN else 0)
      | (if d == 5 || d == 6 || d == 7 then SCE_CTRL_LEFT else 0)
  }

  /** Clock positions: no value presses two opposite directions. */
  lemma DpadNoOpposites(d: bv4)
    ensures DpadButtons(d) & (Mask(Up) | Mask(Down)) != Mask(Up) | Mask(Down)
    ensures DpadButtons(d) & (Mask(Left) | Mask(Right)) != Mask(Left) | Mask(Right)
  {
  }

  /** `bit` when the one-bit field is set, nothing otherwise (written
      without a branch: `0 - on` is all ones exactly when `on` is set). */
  function Press(on: bv1, bit: bv32): (m: bv32)
    ensures m == if on == 1 then bit else 0
  {
    bit & (0 - on as bv32)
  }

  /** The button mask `set_input_emulation` accumulates for report `r`,
      one test per report bit. It sets no bit outside the seventeen buttons,
      and its direction bits are exactly the D-pad's clock position. */
  function Buttons(r: InputReport): (m: bv32)
    ensures m & ALL_BUTTONS == m
    ensures m & DIRECTIONS == DpadButtons(r.dpad)
  {
    Press(r.cross, SCE_CTRL_CROSS) | Press(r.circle, SCE_CTRL_CIRCLE)
      | Press(r.triangle, SCE_CTRL_TRIANGLE) | Press(r.square, SCE_CTRL_SQUARE)
      | DpadButtons(r.dpad)
      | Press(r.l1, SCE_CTRL_L1) | Press(r.r1, SCE_CTRL_R1)
      | Press(r.l2, SCE_CTRL_LTRIGGER) | Press(r.r2, SCE_CTRL_RTRIGGER)
      | Press(r.l3, SCE_CTRL_L3) | Press(r.r3, SCE_CTRL_R3)
      | Press(r.share, SCE_CTRL_SELECT) | Press(r.options, SCE_CTRL_START)
      | Press(r.ps, SCE_CTRL_INTERCEPTED)
  }

  /** The face and shoulder bits of the mask, one report bit each. */
  lemma FaceAndShoulderBits(r: InputReport)
    ensures (Buttons(r) & SCE_CTRL_CROSS != 0) == (r.cross == 1)
    ensures (Buttons(r) & SCE_CTRL_CIRCLE != 0) == (r.circle == 1)
    ensures (Buttons(r) & SCE_CTRL_TRIANGLE != 0) == (r.triangle == 1)
    ensures (Buttons(r) & SCE_CTRL_SQUARE != 0) == (r.square == 1)
    ensures (Buttons(r) & SCE_CTRL_L1 != 0) == (r.l1 == 1)
    ensures (Buttons(r) & SCE_CTRL_R1 != 0) == (r.r1 == 1)
    ensures (Buttons(r) & SCE_CTRL_LTRIGGER != 0) == (r.l2 == 1)
    ensures (Buttons(r) & SCE_CTRL_RTRIGGER != 0) == (r.r2 == 1)
  {
  }

  /** The stick-click and system bits of the mask, one report bit each. */
  lemma SystemBits(r: InputReport)
    ensures (Buttons(r) & SCE_CTRL_L3 != 0) == (r.l3 == 1)
    ensures (Buttons(r) & SCE_CTRL_R3 != 0) == (r.r3 == 1)
    ensures (Buttons(r) & SCE_CTRL_SELECT != 0) == (r.share == 1)
    ensures (Buttons(r) & SCE_CTRL_START != 0) == (r.options == 1)
    ensures (Buttons(r) & SCE_CTRL_INTERCEPTED != 0) == (r.ps == 1)
  {
  }

  /** The mask is empty exactly when no mapped bit is set and the D-pad is
      released (8 to 15). */
  lemma NoButtons(r: InputReport)
    ensures Buttons(r) == 0 <==>
      r.cross == r.circle == r.triangle == r.square == 0 && r.dpad >= 8
      && r.l1 == r.r1 == r.l2 == r.r2 == r.l3 == r.r3 == 0
      && r.share == r.options == r.ps == 0
  {
  }

  function Abs(x: int): int {
    if x < 0 then -x else x
  }

  /** A stick axis counts as moved when it is more than 3 away from 128. */
  function AxisMoved(v: byte): (m: bool)
    ensures m <==> v <= 124 || v >= 132
  {
    Abs(v as int - STICK_CENTER) > ANALOG_THRESHOLD
  }

  /** A trigger counts as moved above 3. */
  function TriggerMoved(v: byte): (m: bool)
    ensures m <==> v >= 4
  {
    v as int > ANALOG_THRESHOLD
  }

  /** `js_moved`: some stick axis or trigger is outside its dead zone. */
  function Moved(r: InputReport): (m: bool)
    ensures m <==> (r.leftX <= 124 || r.leftX >= 132 || r.leftY <= 124 || r.leftY >= 132
                    || r.rightX <= 124 || r.rightX >= 132 || r.rightY <= 124 || r.rightY >= 132
                    || r.lTrigger >= 4 || r.rTrigger >= 4)
  {
    AxisMoved(r.leftX) || AxisMoved(r.leftY) || AxisMoved(r.rightX) || AxisMoved(r.rightY)
      || TriggerMoved(r.lTrigger) || TriggerMoved(r.rTrigger)
  }

  /** The eight analog values handed to the emulation: the raw sticks, twice. */
  function AnalogAxes(r: InputReport): seq<byte> {
    [r.leftX, r.leftY, r.rightX, r.rightY, r.leftX, r.leftY, r.rightX, r.rightY]
  }

  /** The kernel calls of `set_input_emulation(r)`: the button mask, the raw
      sticks with override mode 1, then a power tick when anything is pressed
      or out of its dead zone. */
  function SetInputEmulation(r: InputReport): (acts: seq<Action>)
    ensures |acts| == (if Buttons(r) != 0 || Moved(r) then 3 else 2)
    ensures acts[0] == CtrlSetButtonEmulation(Buttons(r))
    ensures acts[1] == CtrlSetAnalogEmulation([r.leftX, r.leftY, r.rightX, r.rightY, r.leftX, r.leftY, r.rightX, r.rightY], 1)
    ensures |acts| == 3 ==> acts[2] == PowerTick
    ensures PowerTick in acts <==> Buttons(r) != 0 || Moved(r)
    ensures ReadCount(acts) == 0
  {
    [CtrlSetButtonEmulation(Buttons(r)), CtrlSetAnalogEmulation(AnalogAxes(r), 1)]
      + (if Buttons(r) != 0 || Moved(r) then [PowerTick] else [])
  }

  /** The kernel calls of `reset_input_emulation`: no button, all eight axes
      at 0x80, override mode 0. */
  function ResetInputEmulation(): (acts: seq<Action>)
    ensures |acts| == 2 && ReadCount(acts) == 0
    ensures acts[0] == CtrlSetButtonEmulation(0)
    ensures acts[1].CtrlSetAnalogEmulation? && acts[1].mode == 0 && |acts[1].axes| == 8
    ensures forall i :: 0 <= i < 8 ==> acts[1].axes[i] == 0x80
  {
    [CtrlSetButtonEmulation(0), CtrlSetAnalogEmulation(seq(8, _ => 0x80), 0)]
  }

  /** The dead zone decides only the power tick: two reports with the same
      buttons and every axis at rest issue the same button call and the same
      tick, but each hands over its own raw sticks, so their analog calls are
      equal exactly when their sticks are. */
  lemma DeadZoneDoesNotGateAxes(r: InputReport, r': InputReport)
    requires Buttons(r) == Buttons(r') && !Moved(r) && !Moved(r')
    ensures SetInputEmulation(r)[0] == SetInputEmulation(r')[0]
    ensures (PowerTick in SetInputEmulation(r)) == (PowerTick in SetInputEmulation(r'))
    ensures SetInputEmulation(r)[1] == SetInputEmulation(r')[1] <==>
      r.leftX == r'.leftX && r.leftY == r'.leftY && r.rightX == r'.rightX && r.rightY == r'.rightY
  {
    if SetInputEmulation(r)[1] == SetInputEmulation(r')[1] {
      var a, b := SetInputEmulation(r)[1].axes, SetInputEmulation(r')[1].axes;
      assert a[0] == b[0] && a[1] == b[1] && a[2] == b[2] && a[3] == b[3];
    }
  }

  /** Deviation 3 from the centre is not movement; deviation 4 is. */
  lemma DeadZoneBoundary()
    ensures !AxisMoved(125) && !AxisMoved(131)
    ensures AxisMoved(124) && AxisMoved(132)
    ensures !TriggerMoved(3) && TriggerMoved(4)
  {
  }
}
