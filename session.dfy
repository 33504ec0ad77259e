/** The driver's connection state and the Bluetooth callback `bt_cb_func`
    that drives it, with the hook entry points that read that state. The
    pure `Step`/`Drain` functions say what one event and one callback run do;
    the class `Driver` holds the globals and is proved to follow them. */
module Session {
  import opened Bytes
  import opened Report
  import opened Effects
  import opened Transport
  import opened Emulation
  import opened Patches

  const DS5_VID := 0x054C
  const DS5_PID := 0x05C4
  const DS5_2_PID := 0x09CC

  /** `is_ds5`: Sony's vendor id and one of the two DualSense product ids. */
  function IsDs5(vid: u16, pid: u16): (b: bool)
    ensures b <==> vid == 0x054C && (pid == 0x05C4 || pid == 0x09CC)
  {
    vid == DS5_VID && (pid == DS5_PID || pid == DS5_2_PID)
  }

  /** The event kinds the callback distinguishes (`hid_event.id`). */
  const EV_INQUIRY_RESULT: byte := 0x01
  const EV_INQUIRY_STOP: byte := 0x02
  const EV_LINK_KEY_REQUEST: byte := 0x04
  const EV_CONNECT_ACCEPTED: byte := 0x05
  const EV_DISCONNECT: byte := 0x06
  const EV_HID_READ_REPLY: byte := 0x0A
  const EV_HID_WRITE_REPLY: byte := 0x0B

  /** The input report id the read loop accepts. */
  const INPUT_REPORT_ID: byte := 0x11

  /** A Bluetooth event: its kind and the address of the device it concerns. */
  datatype Event = Event(id: byte, mac0: u32, mac1: u32)

  /** What the kernel answers while one event is handled: the ids
      `ksceBtGetVidPid` reports for the event's device, and whether the two
      heap allocations of `ds5_send_report` succeed. */
  datatype Kernel = Kernel(vid: u16, pid: u16, reqAllocOk: bool, bufAllocOk: bool)

  /** One outcome of `ksceBtReadEvent`, or the stack completing the posted
      read request by writing into the receive buffer. */
  datatype Poll =
    | Overflow
    | NoEvent
    | Received(data: seq<byte>)
    | Delivered(event: Event, kernel: Kernel)

  /** The globals `ds5_connected`, `ds5_mac0`, `ds5_mac1`, `ds5_input` and the
      static receive buffer. */
  datatype State = State(connected: bool, mac0: u32, mac1: u32, input: InputReport, recv: seq<byte>)

  datatype Transition = Transition(next: State, actions: seq<Action>)

  predicate ValidState(s: State) {
    |s.recv| == RECV_SIZE
  }

  /** The all-zero report (`ds5_input_reset`, and the static initial value). */
  function ZeroReport(): (r: InputReport)
    ensures WellFormed(r) && Encode(r) == Zeros(REPORT_SIZE)
  {
    EncodeDecode(Zeros(REPORT_SIZE));
    Decode(Zeros(REPORT_SIZE))
  }

  /** The state when the module starts: no controller, nothing latched. */
  function Initial(): (s: State)
    ensures ValidState(s) && !s.connected && s.mac0 == 0 && s.mac1 == 0
  {
    State(false, 0, 0, ZeroReport(), Zeros(RECV_SIZE))
  }

  /** The stack writes `data` into the posted receive buffer from its start. */
  function Fill(recv: seq<byte>, data: seq<byte>): (out: seq<byte>)
    ensures |out| == |recv|
    ensures forall i :: 0 <= i < |out| ==> out[i] == (if i < |data| then data[i] else recv[i])
  {
    if |data| >= |recv| then data[..|recv|] else data + recv[|data|..]
  }

  /** True when the event passes the address filter: no controller is
      connected, or it comes from the connected one. */
  predicate FromLink(s: State, e: Event) {
    !s.connected || (e.mac0 == s.mac0 && e.mac1 == s.mac1)
  }

  /** `enqueue_read_request(mac0, mac1, ...)`: clears the buffer and posts a read. */
  function Repost(s: State, e: Event): (t: Transition)
    requires ValidState(s)
    ensures ValidState(t.next) && t.next == s.(recv := Zeros(RECV_SIZE))
    ensures t.actions == [BtHidTransfer(e.mac0, e.mac1, ReadRequest())] && ReadCount(t.actions) == 1
  {
    Transition(s.(recv := Zeros(RECV_SIZE)), [BtHidTransfer(e.mac0, e.mac1, ReadRequest())])
  }

  /** A reply to the read request: an input report is taken over and
      emulated and the read is posted again; any other report is dropped. */
  function ReadReply(s: State, e: Event): (t: Transition)
    requires ValidState(s)
    ensures ValidState(t.next)
    ensures s.recv[0] == INPUT_REPORT_ID ==>
      t.next.input == Decode(s.recv[..REPORT_SIZE]) && Encode(t.next.input) == s.recv[..REPORT_SIZE]
      && t.next.recv == Zeros(RECV_SIZE)
      && t.next.(input := s.input, recv := s.recv) == s
      && ReadCount(t.actions) == 1 && t.actions[|t.actions| - 1] == BtHidTransfer(e.mac0, e.mac1, ReadRequest())
    ensures s.recv[0] != INPUT_REPORT_ID ==> t == Transition(s, [])
  {
    if s.recv[0] == INPUT_REPORT_ID then
      var input := Decode(s.recv[..REPORT_SIZE]);
      var t := Repost(s.(input := input), e);
      EncodeDecode(s.recv[..REPORT_SIZE]);
      ReadCountAppend(SetInputEmulation(input), t.actions);
      Transition(t.next, SetInputEmulation(input) + t.actions)
    else Transition(s, [])
  }

  /** One turn of the callback's loop body for a delivered event. */
  function Step(s: State, e: Event, k: Kernel): (t: Transition)
    requires ValidState(s)
    ensures ValidState(t.next)
    ensures !FromLink(s, e) ==> t == Transition(s, [])
    ensures t.next.connected != s.connected ==> e.id == EV_CONNECT_ACCEPTED || e.id == EV_DISCONNECT
    ensures t.next.mac0 != s.mac0 || t.next.mac1 != s.mac1 ==>
      (e.id == EV_INQUIRY_RESULT || e.id == EV_CONNECT_ACCEPTED) && IsDs5(k.vid, k.pid)
    ensures t.next.input != s.input ==> e.id == EV_CONNECT_ACCEPTED || e.id == EV_HID_READ_REPLY
  {
    if !FromLink(s, e) then Transition(s, [])
    else if e.id == EV_INQUIRY_RESULT then
      if IsDs5(k.vid, k.pid) then Transition(s.(mac0 := e.mac0, mac1 := e.mac1), [BtStopInquiry])
      else Transition(s, [])
    else if e.id == EV_INQUIRY_STOP then
      if !s.connected && (s.mac0 != 0 || s.mac1 != 0) then Transition(s, [BtStartConnect(s.mac0, s.mac1)])
      else Transition(s, [])
    else if e.id == EV_LINK_KEY_REQUEST then
      Transition(s, [BtReplyUserConfirmation(e.mac0, e.mac1, true)])
    else if e.id == EV_CONNECT_ACCEPTED then
      if IsDs5(k.vid, k.pid) then
        Transition(s.(input := ZeroReport(), mac0 := e.mac0, mac1 := e.mac1, connected := true),
                   SendReportEffects(e.mac0, e.mac1, CONFIG_REPORT_ID, CONFIG_PAYLOAD, k.reqAllocOk, k.bufAllocOk))
      else Transition(s, [])
    else if e.id == EV_DISCONNECT then
      Transition(s.(connected := false), ResetInputEmulation())
    else if e.id == EV_HID_READ_REPLY then
      ReadReply(s, e)
    else if e.id == EV_HID_WRITE_REPLY then
      Repost(s, e)
    else
      Transition(s, [])
  }

  /** No event is delivered among `polls`: only overflows, buffer writes
      and empty reads. */
  predicate Quiet(polls: seq<Poll>) {
    forall i :: 0 <= i < |polls| ==> !polls[i].Delivered?
  }

  /** What one run of the callback does with the polls it sees: overflows
      are retried, the first empty read ends the run. */
  function Drain(s: State, polls: seq<Poll>): (t: Transition)
    requires ValidState(s)
    ensures ValidState(t.next)
    decreases |polls|
  {
    if polls == [] then Transition(s, [])
    else match polls[0]
      case Overflow => Drain(s, polls[1..])
      case NoEvent => Transition(s, [])
      case Received(data) => Drain(s.(recv := Fill(s.recv, data)), polls[1..])
      case Delivered(e, k) =>
        var t := Step(s, e, k);
        var u := Drain(t.next, polls[1..]);
        Transition(u.next, t.actions + u.actions)
  }

  /** A run in which no event is delivered issues no call and changes
      nothing but the receive buffer. */
  lemma {:induction false} QuietRun(s: State, polls: seq<Poll>)
    requires ValidState(s) && Quiet(polls)
    ensures Drain(s, polls).actions == [] && Drain(s, polls).next.(recv := s.recv) == s
    decreases |polls|
  {
    if polls != [] {
      assert Quiet(polls[1..]) by {
        forall i | 0 <= i < |polls[1..]| ensures !polls[1..][i].Delivered? {
          assert polls[1..][i] == polls[i + 1];
        }
      }
      match polls[0]
      case Overflow => QuietRun(s, polls[1..]);
      case NoEvent =>
      case Received(data) => QuietRun(s.(recv := Fill(s.recv, data)), polls[1..]);
    }
  }

  /** How a run proceeds from its first poll. */
  lemma DrainHead(s: State, polls: seq<Poll>)
    requires ValidState(s) && polls != []
    ensures polls[0].Overflow? ==> Drain(s, polls) == Drain(s, polls[1..])
    ensures polls[0].NoEvent? ==> Drain(s, polls) == Transition(s, [])
    ensures polls[0].Received? ==> Drain(s, polls) == Drain(s.(recv := Fill(s.recv, polls[0].data)), polls[1..])
    ensures polls[0].Delivered? ==>
      var t := Step(s, polls[0].event, polls[0].kernel);
      Drain(s, polls) == Transition(Drain(t.next, polls[1..]).next, t.actions + Drain(t.next, polls[1..]).actions)
  {
  }

  /** Any number of overflows at the head of a run is retried away. */
  lemma {:induction false} OverflowsSkipped(s: State, n: nat, rest: seq<Poll>)
    requires ValidState(s)
    ensures Drain(s, seq(n, _ => Overflow) + rest) == Drain(s, rest)
    decreases n
  {
    if n > 0 {
      var polls := seq(n, _ => Overflow) + rest;
      assert polls[0] == Overflow;
      assert polls[1..] == seq(n - 1, _ => Overflow) + rest;
      OverflowsSkipped(s, n - 1, rest);
    } else {
      assert seq(n, _ => Overflow) + rest == rest;
    }
  }

  /** The first empty read ends the run: nothing after it is looked at. */
  lemma {:induction false} EmptyReadEndsRun(s: State, a: seq<Poll>, b: seq<Poll>)
    requires ValidState(s)
    ensures Drain(s, a + [NoEvent] + b) == Drain(s, a + [NoEvent])
    decreases |a|
  {
    if a == [] {
      assert (a + [NoEvent] + b)[0] == NoEvent && (a + [NoEvent])[0] == NoEvent;
    } else {
      assert (a + [NoEvent] + b)[0] == a[0] && (a + [NoEvent])[0] == a[0];
      assert (a + [NoEvent] + b)[1..] == a[1..] + [NoEvent] + b;
      assert (a + [NoEvent])[1..] == a[1..] + [NoEvent];
      match a[0]
      case Overflow => EmptyReadEndsRun(s, a[1..], b);
      case NoEvent =>
      case Received(data) => EmptyReadEndsRun(s.(recv := Fill(s.recv, data)), a[1..], b);
      case Delivered(e, k) => EmptyReadEndsRun(Step(s, e, k).next, a[1..], b);
    }
  }

  /** The number of replies among `polls` that the run reaches. */
  function RepliesSeen(polls: seq<Poll>): (n: nat)
    ensures n <= |polls|
  {
    if polls == [] then 0
    else match polls[0]
      case NoEvent => 0
      case Delivered(e, _) =>
        (if e.id == EV_HID_READ_REPLY || e.id == EV_HID_WRITE_REPLY then 1 else 0) + RepliesSeen(polls[1..])
      case _ => RepliesSeen(polls[1..])
  }

  /** While a controller is connected, an event from any other address
      changes nothing and issues nothing. */
  lemma ForeignEventIgnored(s: State, e: Event, k: Kernel)
    requires ValidState(s) && s.connected && (e.mac0 != s.mac0 || e.mac1 != s.mac1)
    ensures Step(s, e, k) == Transition(s, [])
  {
  }

  /** Only events that pass the filter and a buffer write can move a run. */
  predicate AllForeign(s: State, polls: seq<Poll>) {
    forall i :: 0 <= i < |polls| ==> !polls[i].Received? && (polls[i].Delivered? ==> !FromLink(s, polls[i].event))
  }

  /** A whole run over events from other devices leaves a connected link untouched. */
  lemma {:induction false} ForeignRunIgnored(s: State, polls: seq<Poll>)
    requires ValidState(s) && s.connected && AllForeign(s, polls)
    ensures Drain(s, polls) == Transition(s, [])
    decreases |polls|
  {
    if polls != [] {
      assert AllForeign(s, polls[1..]) by {
        forall i | 0 <= i < |polls[1..]|
          ensures !polls[1..][i].Received? && (polls[1..][i].Delivered? ==> !FromLink(s, polls[1..][i].event))
        {
          assert polls[1..][i] == polls[i + 1];
        }
      }
      match polls[0]
      case Overflow => ForeignRunIgnored(s, polls[1..]);
      case NoEvent =>
      case Delivered(e, k) =>
        ForeignEventIgnored(s, e, k);
        ForeignRunIgnored(s, polls[1..]);
        var none: seq<Action> := [];
        assert none + none == none;
    }
  }

  /** A step posts a read request only for a reply, and at most one. */
  lemma StepReads(s: State, e: Event, k: Kernel)
    requires ValidState(s)
    ensures ReadCount(Step(s, e, k).actions) <= (if e.id == EV_HID_READ_REPLY || e.id == EV_HID_WRITE_REPLY then 1 else 0)
  {
    if FromLink(s, e) && e.id == EV_HID_READ_REPLY && s.recv[0] == INPUT_REPORT_ID {
      var input := Decode(s.recv[..REPORT_SIZE]);
      ReadCountAppend(SetInputEmulation(input), Repost(s.(input := input), e).actions);
    }
  }

  /** A callback run posts no more read requests than it sees replies, so the
      single static request is never posted twice for one completion. */
  lemma {:induction false} DrainReads(s: State, polls: seq<Poll>)
    requires ValidState(s)
    ensures ReadCount(Drain(s, polls).actions) <= RepliesSeen(polls)
    decreases |polls|
  {
    if polls != [] {
      match polls[0]
      case Overflow => DrainReads(s, polls[1..]);
      case NoEvent =>
      case Received(data) => DrainReads(s.(recv := Fill(s.recv, data)), polls[1..]);
      case Delivered(e, k) =>
        var t := Step(s, e, k);
        StepReads(s, e, k);
        DrainReads(t.next, polls[1..]);
        ReadCountAppend(t.actions, Drain(t.next, polls[1..]).actions);
    }
  }

  /** Discovery and pairing: a DualSense found by the inquiry stops it and
      has its address latched; the inquiry stopping starts the connection to
      a latched address while no link is up; a link-key request is always
      confirmed; kinds the switch does not act on (0x08, 0x09 and unknown
      ids) change nothing and issue nothing. */
  lemma DiscoveryAndPairing(s: State, e: Event, k: Kernel)
    requires ValidState(s) && FromLink(s, e)
    ensures e.id == EV_INQUIRY_RESULT && IsDs5(k.vid, k.pid) ==>
      Step(s, e, k) == Transition(s.(mac0 := e.mac0, mac1 := e.mac1), [BtStopInquiry])
    ensures e.id == EV_INQUIRY_RESULT && !IsDs5(k.vid, k.pid) ==> Step(s, e, k) == Transition(s, [])
    ensures e.id == EV_INQUIRY_STOP ==>
      Step(s, e, k) == Transition(s, if !s.connected && (s.mac0 != 0 || s.mac1 != 0) then [BtStartConnect(s.mac0, s.mac1)] else [])
    ensures e.id == EV_LINK_KEY_REQUEST ==>
      Step(s, e, k) == Transition(s, [BtReplyUserConfirmation(e.mac0, e.mac1, true)])
    ensures e.id !in {0x01, 0x02, 0x04, 0x05, 0x06, 0x0A, 0x0B} ==> Step(s, e, k) == Transition(s, [])
  {
  }

  /** The link comes up only through an accepted connection from a DualSense,
      and then it is latched to that device with a cleared report. */
  lemma ConnectOnlyOnAccept(s: State, e: Event, k: Kernel)
    requires ValidState(s) && !s.connected && Step(s, e, k).next.connected
    ensures e.id == EV_CONNECT_ACCEPTED && IsDs5(k.vid, k.pid)
    ensures Step(s, e, k).next == State(true, e.mac0, e.mac1, ZeroReport(), s.recv)
  {
  }

  /** While the link stays up, the latched address never changes. */
  lemma LinkAddressStable(s: State, e: Event, k: Kernel)
    requires ValidState(s) && s.connected
    ensures Step(s, e, k).next.mac0 == s.mac0 && Step(s, e, k).next.mac1 == s.mac1
    ensures !Step(s, e, k).next.connected ==> e.id == EV_DISCONNECT && FromLink(s, e)
  {
  }

  /** Accepting a DualSense brings the link up whatever the configuration
      send does: the report is cleared, the address latched and the flag set,
      and the only calls are those of the configuration send (none when an
      allocation fails). A repeat accept from the latched device clears the
      report again. */
  lemma AcceptConnects(s: State, e: Event, k: Kernel)
    requires ValidState(s) && FromLink(s, e) && e.id == EV_CONNECT_ACCEPTED && IsDs5(k.vid, k.pid)
    ensures Step(s, e, k).next == s.(input := ZeroReport(), mac0 := e.mac0, mac1 := e.mac1, connected := true)
    ensures Step(s, e, k).actions
         == SendReportEffects(e.mac0, e.mac1, CONFIG_REPORT_ID, CONFIG_PAYLOAD, k.reqAllocOk, k.bufAllocOk)
  {
  }

  /** A DualSense accept with both allocations succeeding sends the 13-byte
      configuration frame to that device and nothing else. */
  lemma AcceptSendsConfig(s: State, e: Event, k: Kernel)
    requires ValidState(s) && FromLink(s, e) && e.id == EV_CONNECT_ACCEPTED && IsDs5(k.vid, k.pid)
    requires k.reqAllocOk && k.bufAllocOk
    ensures |Step(s, e, k).actions| == 1
    ensures Step(s, e, k).actions[0].BtHidTransfer?
    ensures Step(s, e, k).actions[0].mac0 == e.mac0 && Step(s, e, k).actions[0].mac1 == e.mac1
    ensures Step(s, e, k).actions[0].request.kind == Write
    ensures Step(s, e, k).actions[0].request.length == 13
    ensures Step(s, e, k).actions[0].request.buffer
         == [0x11, 0x80, 0x0F, 0x00, 0x00, 0x00, 0x00, 0x00, 0xFF, 0x00, 0xFF, 0xFF, 0x00]
  {
    ConfigFrame();
  }

  /** Any other device accepted changes nothing and issues nothing. */
  lemma AcceptIgnoresOthers(s: State, e: Event, k: Kernel)
    requires ValidState(s) && e.id == EV_CONNECT_ACCEPTED && !IsDs5(k.vid, k.pid)
    ensures Step(s, e, k) == Transition(s, [])
  {
  }

  /** A disconnect from the link (or with nothing connected) drops the link
      and hands back neutral input: no button, all axes centred, override off. */
  lemma DisconnectResets(s: State, e: Event, k: Kernel)
    requires ValidState(s) && FromLink(s, e) && e.id == EV_DISCONNECT
    ensures Step(s, e, k).next == s.(connected := false)
    ensures Step(s, e, k).actions[0] == CtrlSetButtonEmulation(0)
    ensures Step(s, e, k).actions[1] == CtrlSetAnalogEmulation(seq(8, _ => 0x80), 0)
    ensures |Step(s, e, k).actions| == 2
  {
  }

  /** A read reply carrying an input report: the report becomes the struct
      overlay of the buffer's first 64 bytes, is emulated, and the cleared
      buffer is posted again to the replying device. */
  lemma InputReportAccepted(s: State, e: Event, k: Kernel)
    requires ValidState(s) && FromLink(s, e) && e.id == EV_HID_READ_REPLY && s.recv[0] == INPUT_REPORT_ID
    ensures Step(s, e, k).next == s.(input := Decode(s.recv[..REPORT_SIZE]), recv := Zeros(RECV_SIZE))
    ensures Step(s, e, k).actions
         == SetInputEmulation(Decode(s.recv[..REPORT_SIZE])) + [BtHidTransfer(e.mac0, e.mac1, ReadRequest())]
  {
    assert Step(s, e, k) == ReadReply(s, e);
  }

  /** The report taken over holds exactly the bytes received: nothing of the
      64-byte overlay is lost. */
  lemma InputReportLossless(s: State, e: Event, k: Kernel)
    requires ValidState(s) && FromLink(s, e) && e.id == EV_HID_READ_REPLY && s.recv[0] == INPUT_REPORT_ID
    ensures Encode(Step(s, e, k).next.input) == s.recv[..REPORT_SIZE]
  {
    InputReportAccepted(s, e, k);
    EncodeDecode(s.recv[..REPORT_SIZE]);
  }

  /** Until the first input report arrives, the hooks read the cleared
      report set on connection: every stick axis reads 0 (far outside the dead
      zone), both contacts are down at the pad's corner with id 0, and the
      battery reads empty. */
  lemma ClearedReportSeenByHooks(p: CtrlData, d: TouchData)
    requires TouchShaped(d)
    ensures PatchPad(p, ZeroReport()) == p.(lx := 0, ly := 0, rx := 0, ry := 0)
    ensures ActiveCount(ZeroReport()) == 2
    ensures PatchTouch(d, ZeroReport()).reportNum == 2
    ensures PatchTouch(d, ZeroReport()).report[0] == d.report[0].(id := 0, x := 0, y := 0)
    ensures PatchTouch(d, ZeroReport()).report[1] == d.report[1].(id := 0, x := 0, y := 0)
    ensures BatteryCode(ZeroReport()) == 0
  {
    var z := ZeroReport();
    assert z.finger1 == DecodeFinger(0) && z.finger2 == DecodeFinger(0);
    assert DecodeFinger(0) == Finger(0, 0, 0, 0);
  }

  /** A read reply with any other report id is dropped without reposting the
      read, so no further input arrives on that request. */
  lemma OtherReportDropped(s: State, e: Event, k: Kernel)
    requires ValidState(s) && e.id == EV_HID_READ_REPLY && s.recv[0] != INPUT_REPORT_ID
    ensures Step(s, e, k) == Transition(s, [])
  {
  }

  /** A write reply from the link always reposts the read. */
  lemma WriteReplyReposts(s: State, e: Event, k: Kernel)
    requires ValidState(s) && FromLink(s, e) && e.id == EV_HID_WRITE_REPLY
    ensures Step(s, e, k) == Repost(s, e)
  {
  }

  /** `SCE_CTRL_TYPE_DS4`. */
  const CTRL_TYPE_DS4: byte := 8

  /** `SceCtrlPortInfo`: the controller type of each port. */
  datatype PortInfo = PortInfo(port: seq<byte>, unk: seq<byte>)

  /** The driver's globals, updated by the Bluetooth callback and read by the hooks. */
  class Driver {
    var connected: bool
    var mac0: u32
    var mac1: u32
    var input: InputReport
    /** The static `recv_buff` posted with every read request. */
    const recvBuff: array<byte>
    /** Every kernel call the callback and the shutdown issued so far, in
        order. The hooks run in their callers' threads and return the calls
        they make instead. */
    var trace: seq<Action>

    ghost predicate Valid()
      reads this
    {
      recvBuff.Length == RECV_SIZE
    }

    function Snapshot(): (s: State)
      reads this, recvBuff
      ensures Valid() ==> ValidState(s)
    {
      State(connected, mac0, mac1, input, recvBuff[..])
    }

    constructor ()
      ensures Valid() && Snapshot() == Initial() && trace == []
      ensures fresh(recvBuff)
    {
      connected := false;
      mac0 := 0;
      mac1 := 0;
      input := ZeroReport();
      recvBuff := new byte[RECV_SIZE](_ => 0);
      trace := [];
    }

    /** `enqueue_read_request`: clears the buffer and posts it to the device. */
    method EnqueueReadRequest(e: Event)
      requires Valid()
      modifies this, recvBuff
      ensures Valid()
      ensures Snapshot() == Repost(old(Snapshot()), e).next
      ensures trace == old(trace) + Repost(old(Snapshot()), e).actions
    {
      var i := 0;
      while i < recvBuff.Length
        invariant 0 <= i <= recvBuff.Length
        invariant forall j :: 0 <= j < i ==> recvBuff[j] == 0
        invariant connected == old(connected) && mac0 == old(mac0) && mac1 == old(mac1)
        invariant input == old(input) && trace == old(trace)
      {
        recvBuff[i] := 0;
        i := i + 1;
      }
      assert recvBuff[..] == Zeros(RECV_SIZE);
      trace := trace + [BtHidTransfer(e.mac0, e.mac1, ReadRequest())];
    }

    /** The stack completes the posted read: `data` lands at the start of the buffer. */
    method Receive(data: seq<byte>)
      requires Valid()
      modifies recvBuff
      ensures Valid()
      ensures recvBuff[..] == Fill(old(recvBuff[..]), data)
    {
      var i := 0;
      while i < recvBuff.Length && i < |data|
        invariant 0 <= i <= recvBuff.Length && i <= |data|
        invariant forall j :: 0 <= j < i ==> recvBuff[j] == data[j]
        invariant forall j :: i <= j < recvBuff.Length ==> recvBuff[j] == old(recvBuff[j])
      {
        recvBuff[i] := data[i];
        i := i + 1;
      }
      assert recvBuff[..] == Fill(old(recvBuff[..]), data);
    }

    /** The body of the callback's loop for one delivered event. */
    method HandleEvent(e: Event, k: Kernel)
      requires Valid()
      modifies this, recvBuff
      ensures Valid()
      ensures Snapshot() == Step(old(Snapshot()), e, k).next
      ensures trace == old(trace) + Step(old(Snapshot()), e, k).actions
    {
      if connected && (e.mac0 != mac0 || e.mac1 != mac1) {
        return;
      }
      if e.id == EV_INQUIRY_RESULT {
        if IsDs5(k.vid, k.pid) {
          trace := trace + [BtStopInquiry];
          mac0, mac1 := e.mac0, e.mac1;
        }
      } else if e.id == EV_INQUIRY_STOP {
        if !connected && (mac0 != 0 || mac1 != 0) {
          trace := trace + [BtStartConnect(mac0, mac1)];
        }
      } else if e.id == EV_LINK_KEY_REQUEST {
        trace := trace + [BtReplyUserConfirmation(e.mac0, e.mac1, true)];
      } else if e.id == EV_CONNECT_ACCEPTED {
        if IsDs5(k.vid, k.pid) {
          input := ZeroReport();
          mac0, mac1 := e.mac0, e.mac1;
          connected := true;
          var status, effects := SendConfigReport(e.mac0, e.mac1, k.reqAllocOk, k.bufAllocOk);
          trace := trace + effects;
        }
      } else if e.id == EV_DISCONNECT {
        connected := false;
        trace := trace + ResetInputEmulation();
      } else if e.id == EV_HID_READ_REPLY {
        OnReadReply(e);
      } else if e.id == EV_HID_WRITE_REPLY {
        EnqueueReadRequest(e);
      }
    }

    /** The 0x0A case of the callback. */
    method OnReadReply(e: Event)
      requires Valid()
      modifies this, recvBuff
      ensures Valid()
      ensures Snapshot() == ReadReply(old(Snapshot()), e).next
      ensures trace == old(trace) + ReadReply(old(Snapshot()), e).actions
    {
      if recvBuff[0] == INPUT_REPORT_ID {
        input := Decode(recvBuff[..REPORT_SIZE]);
        trace := trace + SetInputEmulation(input);
        EnqueueReadRequest(e);
      }
    }

    /** One turn of the callback's loop on the poll `p`: an overflow is
        retried, an empty read ends the loop, a buffer write lands in the
        receive buffer and an event is handled. `rest` is what the loop
        sees afterwards; the run from here equals the run from before. */
    method Service(p: Poll, ghost rest: seq<Poll>) returns (done: bool)
      requires Valid()
      modifies this, recvBuff
      ensures Valid()
      ensures done <==> p.NoEvent?
      ensures done ==> Snapshot() == old(Snapshot()) && trace == old(trace)
      ensures Drain(Snapshot(), if done then [] else rest).next == Drain(old(Snapshot()), [p] + rest).next
      ensures old(trace) + Drain(old(Snapshot()), [p] + rest).actions
           == trace + Drain(Snapshot(), if done then [] else rest).actions
    {
      assert ([p] + rest)[0] == p && ([p] + rest)[1..] == rest;
      DrainHead(Snapshot(), [p] + rest);
      done := false;
      match p {
        case Overflow =>
        case NoEvent =>
          assert trace + [] == trace;
          done := true;
        case Received(data) =>
          Receive(data);
        case Delivered(e, k) =>
          ghost var before := Snapshot();
          ghost var t0 := trace;
          HandleEvent(e, k);
          assert t0 + (Step(before, e, k).actions + Drain(Snapshot(), rest).actions)
              == trace + Drain(Snapshot(), rest).actions;
      }
    }

    /** `bt_cb_func`: handles events until the stack has none left. */
    method Callback(polls: seq<Poll>)
      requires Valid()
      modifies this, recvBuff
      ensures Valid()
      ensures Snapshot() == Drain(old(Snapshot()), polls).next
      ensures trace == old(trace) + Drain(old(Snapshot()), polls).actions
    {
      var i := 0;
      while i < |polls|
        invariant 0 <= i <= |polls| && Valid()
        invariant Drain(Snapshot(), polls[i..]).next == Drain(old(Snapshot()), polls).next
        invariant old(trace) + Drain(old(Snapshot()), polls).actions == trace + Drain(Snapshot(), polls[i..]).actions
        decreases |polls| - i
      {
        assert polls[i..] == [polls[i]] + polls[i + 1..];
        var done := Service(polls[i], polls[i + 1..]);
        if done {
          assert trace + [] == trace;
          return;
        }
        i := i + 1;
      }
      assert trace + [] == trace;
    }

    /** Cleanup at the end of the Bluetooth thread: disconnect the link and
        neutralise the input emulation. The flag itself is left set. */
    method Shutdown()
      modifies this
      ensures Snapshot() == old(Snapshot())
      ensures trace == old(trace) + (if connected then [BtStartDisconnect(mac0, mac1)] + ResetInputEmulation() else [])
    {
      if connected {
        trace := trace + [BtStartDisconnect(mac0, mac1)] + ResetInputEmulation();
      }
    }

    /** `ksceCtrlGetControllerPortInfo` hook: reports port 1 as a DS4 pad when
        the native call succeeded and the link is up. */
    method PortInfoHook(ret: int, info: PortInfo) returns (result: int, out: PortInfo)
      requires |info.port| >= 2
      ensures result == ret
      ensures ret >= 0 && connected ==> out == info.(port := info.port[1 := CTRL_TYPE_DS4])
      ensures !(ret >= 0 && connected) ==> out == info
    {
      result, out := ret, info;
      if ret >= 0 && connected {
        out := out.(port := out.port[1 := CTRL_TYPE_DS4]);
      }
    }

    /** `sceCtrlGetBatteryInfo` hook: for port 1 with the link up it reports
        the controller's battery and succeeds whatever the native call said. */
    method BatteryHook(ret: int, port: int, batt: byte) returns (result: int, out: nat)
      ensures connected && port == 1 ==> result == 0 && out == BatteryCode(input)
      ensures !(connected && port == 1) ==> result == ret && out == batt as int
    {
      if connected && port == 1 {
        return 0, BatteryCode(input);
      }
      return ret, batt as int;
    }

    /** The four `sceCtrl{Peek,Read}BufferPositive{,Ext}2` hooks. */
    method AnalogHook(ret: int, port: int, pads: array<CtrlData>, count: nat) returns (result: int)
      requires count <= pads.Length
      modifies pads
      ensures result == ret
      ensures ret >= 0 && connected ==> forall i :: 0 <= i < count ==> pads[i] == PatchPad(old(pads[i]), input)
      ensures !(ret >= 0 && connected) ==> pads[..] == old(pads[..])
      ensures forall i :: count <= i < pads.Length ==> pads[i] == old(pads[i])
    {
      if ret >= 0 && connected {
        PatchAnalogData(pads, count, input);
      }
      return ret;
    }

    /** The four `ksceTouch{Peek,Read}{,Region}` hooks. */
    method TouchHook(ret: int, port: u32, data: array<TouchData>, nBufs: nat)
      returns (result: int, ticks: seq<Action>)
      requires nBufs <= data.Length
      requires forall i :: 0 <= i < nBufs ==> TouchShaped(data[i])
      modifies data
      ensures result == ret
      ensures ret >= 0 && connected && port == TOUCH_PORT_FRONT ==>
        (forall i :: 0 <= i < nBufs ==> data[i] == PatchTouch(old(data[i]), input))
        && ticks == (if ActiveCount(input) > 0 then seq(nBufs, _ => PowerTick) else [])
      ensures !(ret >= 0 && connected && port == TOUCH_PORT_FRONT) ==> data[..] == old(data[..]) && ticks == []
      ensures forall i :: nBufs <= i < data.Length ==> data[i] == old(data[i])
    {
      ticks := [];
      if ret >= 0 && connected {
        ticks := PatchTouchData(port, data, nBufs, input);
      }
      return ret, ticks;
    }

    /** `sceMotionGetState` hook. */
    method MotionHook(ret: int, m: MotionState) returns (result: int, out: MotionState)
      ensures result == ret
      ensures ret >= 0 && connected ==> out == PatchMotion(m, input)
      ensures !(ret >= 0 && connected) ==> out == m
    {
      result, out := ret, m;
      if ret >= 0 && connected {
        out := PatchMotion(m, input);
      }
    }
  }
}
