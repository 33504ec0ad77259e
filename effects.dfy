/** The kernel calls the driver makes, recorded as values. Nothing here is
    executed: a run of the model yields the sequence of these it would issue. */
module Effects {
  import opened Bytes

  /** The console buttons the driver can press (one `SCE_CTRL_*` bit each). */
  datatype Button =
    | Select | Start | L3 | R3
    | Up | Right | Down | Left
    | LTrigger | RTrigger | L1 | R1
    | Triangle | Circle | Cross | Square
    | Intercepted

  /** `SceBtHidRequest.type`: 0 for the inbound read descriptor, 1 for an
      outbound output report. Every request the driver builds links to
      itself (`req->next = req`). */
  datatype RequestKind = Read | Write

  /** A HID request as submitted: its kind, the bytes its buffer holds at
      submission and its `length`. */
  datatype HidRequest = HidRequest(kind: RequestKind, buffer: seq<byte>, length: nat)

  datatype Action =
    | BtStopInquiry
    | BtStartConnect(mac0: u32, mac1: u32)
    | BtStartDisconnect(mac0: u32, mac1: u32)
    | BtReplyUserConfirmation(mac0: u32, mac1: u32, accept: bool)
    | BtHidTransfer(mac0: u32, mac1: u32, request: HidRequest)
      /** `ksceCtrlSetButtonEmulation(0, 0, b, b, 32)`: `b` is both the user and the kernel mask. */
    | CtrlSetButtonEmulation(buttons: bv32)
      /** `ksceCtrlSetAnalogEmulation(0, 0, lx, ly, rx, ry, lx2, ly2, rx2, ry2, mode)`. */
    | CtrlSetAnalogEmulation(axes: seq<byte>, mode: nat)
    | PowerTick

  /** True of an inbound read request (`type == 0`). */
  predicate IsRead(a: Action) {
    a.BtHidTransfer? && a.request.kind == Read
  }

  /** The number of inbound read requests among `acts`. */
  function ReadCount(acts: seq<Action>): (n: nat)
    ensures n <= |acts|
    ensures n == 0 <==> forall i :: 0 <= i < |acts| ==> !IsRead(acts[i])
  {
    if acts == [] then 0
    else (if IsRead(acts[0]) then 1 else 0) + ReadCount(acts[1..])
  }

  lemma {:induction false} ReadCountAppend(a: seq<Action>, b: seq<Action>)
    ensures ReadCount(a + b) == ReadCount(a) + ReadCount(b)
  {
    if a == [] {
      assert a + b == b;
    } else {
      assert (a + b)[1..] == a[1..] + b;
      ReadCountAppend(a[1..], b);
    }
  }
}
