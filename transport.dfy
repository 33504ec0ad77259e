/** Outbound framing and the inbound read descriptor: `ds5_send_report`,
    `ds5_send_0x11_report` and the request that `enqueue_read_request` submits. */
module Transport {
  import opened Bytes
  import opened Effects

  /** Size of the static receive buffer `recv_buff`. */
  const RECV_SIZE := 0x100

  /** Report id of the output report sent once on connection. */
  const CONFIG_REPORT_ID: byte := 0x11

  /** The fixed 12-byte output payload: flags 0x80 0x0F, both motors off,
      light bar red 0xFF, green 0x00, blue 0xFF, blink on 0xFF, blink off 0x00. */
  const CONFIG_PAYLOAD: seq<byte> :=
    [0x80, 0x0F, 0x00, 0x00, 0x00, 0x00, 0x00, 0xFF, 0x00, 0xFF, 0xFF, 0x00]

  /** The type-1 request that carries `report` followed by `data`. */
  function OutputRequest(report: byte, data: seq<byte>): (req: HidRequest)
    ensures req.kind == Write
    ensures req.length == |req.buffer| == |data| + 1
    ensures req.buffer[0] == report && req.buffer[1..] == data
  {
    HidRequest(Write, [report] + data, |data| + 1)
  }

  /** What `ds5_send_report` hands to the Bluetooth stack, given whether its
      two heap allocations succeed: one transfer, or nothing. */
  function SendReportEffects(mac0: u32, mac1: u32, report: byte, data: seq<byte>,
                             reqAllocOk: bool, bufAllocOk: bool): (effects: seq<Action>)
    ensures |effects| <= 1
    ensures effects != [] <==> reqAllocOk && bufAllocOk
    ensures effects != [] ==> effects[0] == BtHidTransfer(mac0, mac1, OutputRequest(report, data))
    ensures ReadCount(effects) == 0
  {
    if reqAllocOk && bufAllocOk then [BtHidTransfer(mac0, mac1, OutputRequest(report, data))] else []
  }

  /** `ds5_send_report`: frames `data` behind the report id in a freshly
      allocated buffer and submits it as a type-1 request. Returns -1 when
      either allocation fails and 0 otherwise, whatever the transfer answers. */
  method SendReport(mac0: u32, mac1: u32, report: byte, data: seq<byte>,
                    reqAllocOk: bool, bufAllocOk: bool)
    returns (status: int, effects: seq<Action>)
    ensures status == (if reqAllocOk && bufAllocOk then 0 else -1)
    ensures effects == SendReportEffects(mac0, mac1, report, data, reqAllocOk, bufAllocOk)
  {
    if !reqAllocOk {
      return -1, [];
    }
    if !bufAllocOk {
      return -1, [];
    }
    var buf := new byte[|data| + 1];
    buf[0] := report;
    var i := 0;
    while i < |data|
      invariant 0 <= i <= |data|
      invariant buf[0] == report
      invariant forall j :: 0 <= j < i ==> buf[j + 1] == data[j]
    {
      buf[i + 1] := data[i];
      i := i + 1;
    }
    assert buf[..] == [report] + data;
    effects := [BtHidTransfer(mac0, mac1, HidRequest(Write, buf[..], |data| + 1))];
    status := 0;
  }

  /** `ds5_send_0x11_report`: sends the fixed light-bar/rumble configuration. */
  method SendConfigReport(mac0: u32, mac1: u32, reqAllocOk: bool, bufAllocOk: bool)
    returns (status: int, effects: seq<Action>)
    ensures status == (if reqAllocOk && bufAllocOk then 0 else -1)
    ensures effects == SendReportEffects(mac0, mac1, CONFIG_REPORT_ID, CONFIG_PAYLOAD, reqAllocOk, bufAllocOk)
  {
    status, effects := SendReport(mac0, mac1, CONFIG_REPORT_ID, CONFIG_PAYLOAD, reqAllocOk, bufAllocOk);
    if status != 0 {
      status := -1;
    }
  }

  /** The configuration frame on the wire is 13 bytes: 0x11 then the payload. */
  lemma ConfigFrame()
    ensures OutputRequest(CONFIG_REPORT_ID, CONFIG_PAYLOAD).length == 13
    ensures OutputRequest(CONFIG_REPORT_ID, CONFIG_PAYLOAD).buffer
         == [0x11, 0x80, 0x0F, 0x00, 0x00, 0x00, 0x00, 0x00, 0xFF, 0x00, 0xFF, 0xFF, 0x00]
  {
  }

  /** The descriptor `enqueue_read_request` submits: type 0, over the whole
      receive buffer, which it has just cleared. */
  function ReadRequest(): (req: HidRequest)
    ensures req.kind == Read && req.length == |req.buffer| == RECV_SIZE
    ensures forall i :: 0 <= i < RECV_SIZE ==> req.buffer[i] == 0
  {
    HidRequest(Read, Zeros(RECV_SIZE), RECV_SIZE)
  }
}
