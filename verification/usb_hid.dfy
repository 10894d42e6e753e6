/** HID report generation: a repeating timer raises a flag, and the main-loop
    task turns a raised flag into at most one 3-byte joystick report.

    The transport is abstract: `tud_hid_ready` becomes the `ready` input and
    `tud_hid_report` appends to the `sent` log.
 */
module UsbHid {
  import opened Types
  import opened Joystick

  const USB_HID_POLL_INTERVAL_MS: nat := 10
  /** The report id passed to `tud_hid_report`: no report ids are used. */
  const REPORT_ID: U8 := 0
  /** `sizeof(hid_joystick_report_t)`: the struct is packed, one byte per field. */
  const REPORT_SIZE: nat := 3

  /** `hid_joystick_report_t` */
  datatype Report = Report(x: Int8, y: Int8, buttons: U8)

  /** Two's complement reading of a byte as `int8_t`. */
  function AsInt8(byte: U8): Int8 {
    if byte < 128 then byte else byte - 256
  }

  /** The memory image of a packed report: x and y in two's complement, then
      the button byte. */
  function ReportBytes(r: Report): (bytes: seq<U8>)
    ensures |bytes| == REPORT_SIZE
    ensures AsInt8(bytes[0]) == r.x && AsInt8(bytes[1]) == r.y && bytes[2] == r.buttons
  {
    [r.x % 256, r.y % 256, r.buttons]
  }

  /** Reads a report back from its memory image. */
  function DecodeReport(bytes: seq<U8>): Report
    requires |bytes| == REPORT_SIZE
  {
    Report(AsInt8(bytes[0]), AsInt8(bytes[1]), bytes[2])
  }

  lemma ReportBytesRoundTrip(r: Report)
    ensures DecodeReport(ReportBytes(r)) == r
  {
  }

  // ---------------------------------------------------------------------------
  // Button byte
  // ---------------------------------------------------------------------------

  /** `button_1 | button_2 << 1`: bit 0 is button 1, bit 1 is button 2 and the
      six padding bits are zero. */
  function PackButtons(b1: bool, b2: bool): (m: U8)
    ensures m < 4
    ensures m % 2 == 1 <==> b1
    ensures m / 2 == 1 <==> b2
  {
    var bits := (BoolToInt(b1) as bv8) | ((BoolToInt(b2) as bv8) << 1);
    assert bits == if b1 && b2 then 3 else if b2 then 2 else if b1 then 1 else 0;
    bits as int
  }

  /** How a host reads the button byte: bit 0 is button 1, bit 1 is button 2. */
  function UnpackButtons(m: U8): (bool, bool) {
    (m % 2 == 1, (m / 2) % 2 == 1)
  }

  lemma ButtonsRoundTrip(b1: bool, b2: bool)
    ensures UnpackButtons(PackButtons(b1, b2)) == (b1, b2)
  {
  }

  // ---------------------------------------------------------------------------
  // The scheduler
  // ---------------------------------------------------------------------------

  /** One call of `tud_hid_report(report_id, report, len)`. */
  datatype SentReport = SentReport(reportId: U8, payload: seq<U8>, length: nat)

  /** The module's static state: the report-due flag, the last snapshot taken,
      and the log of reports handed to the transport. */
  datatype Hid = Hid(sendHidReport: bool, joystick: JoystickState, sent: seq<SentReport>)

  const INITIAL_HID: Hid := Hid(false, INITIAL_STATE, [])

  /** `hid_report_timer_callback`: only records that a report is due. */
  function HidReportTimerCallback(h: Hid): (h': Hid)
    ensures h'.sendHidReport
    ensures h'.joystick == h.joystick && h'.sent == h.sent
  {
    h.(sendHidReport := true)
  }

  /** A snapshot whose axes both convert to `int8_t` without undefined behaviour. */
  predicate Reportable(js: JoystickState) {
    && js.xAxis.Ohms? && Rescalable(js.xAxis.value)
    && js.yAxis.Ohms? && Rescalable(js.yAxis.value)
  }

  /** `usb_task`: with the flag raised, clear it, snapshot the joystick state
      `live`, and hand one report to the transport if it is `ready`; a report
      the transport cannot take is dropped, not queued. */
  function UsbTask(h: Hid, live: JoystickState, ready: bool): (h': Hid)
    requires h.sendHidReport && ready ==> Reportable(live)
    ensures !h.sendHidReport ==> h' == h
    ensures h.sendHidReport ==> !h'.sendHidReport && h'.joystick == live
    ensures h.sendHidReport && !ready ==> h'.sent == h.sent
    ensures h.sendHidReport && ready ==>
              && |h'.sent| == |h.sent| + 1
              && h'.sent[..|h.sent|] == h.sent
              && var m := h'.sent[|h.sent|];
                 && m.reportId == REPORT_ID
                 && m.length == REPORT_SIZE == |m.payload|
                 && DecodeReport(m.payload).x == JoystickRescaleAxis(live.xAxis.value)
                 && DecodeReport(m.payload).y == JoystickRescaleAxis(live.yAxis.value)
                 && UnpackButtons(DecodeReport(m.payload).buttons) == (live.button1, live.button2)
                 && m.payload[2] == PackButtons(live.button1, live.button2)
  {
    if !h.sendHidReport then h
    else
      var snapshot := JoystickRead(live);
      var h1 := h.(sendHidReport := false, joystick := snapshot);
      if !ready then h1
      else
        var report := Report(
          JoystickRescaleAxis(snapshot.xAxis.value),
          JoystickRescaleAxis(snapshot.yAxis.value),
          PackButtons(snapshot.button1, snapshot.button2));
        ButtonsRoundTrip(snapshot.button1, snapshot.button2);
        var bytes := ReportBytes(report);
        h1.(sent := h1.sent + [SentReport(REPORT_ID, bytes, |bytes|)])
  }

  // ---------------------------------------------------------------------------
  // Interleavings of timer ticks and task calls
  // ---------------------------------------------------------------------------

  function Ticks(h: Hid, n: nat): Hid {
    if n == 0 then h else HidReportTimerCallback(Ticks(h, n - 1))
  }

  /** Any number of timer ticks between two task calls count as one: usb_task
      then behaves exactly as after a single tick. */
  lemma {:induction false} TicksCoalesce(h: Hid, n: nat, live: JoystickState, ready: bool)
    requires n >= 1
    requires ready ==> Reportable(live)
    ensures Ticks(h, n) == HidReportTimerCallback(h)
    ensures UsbTask(Ticks(h, n), live, ready) == UsbTask(HidReportTimerCallback(h), live, ready)
    ensures |UsbTask(Ticks(h, n), live, ready).sent| <= |h.sent| + 1
  {
    if n > 1 {
      TicksCoalesce(h, n - 1, live, ready);
    }
  }

  /** What happens next in the main loop: a timer tick, or a call of
      `usb_task` seeing the joystick state `live` and the transport `ready`. */
  datatype Action = Tick | Poll(live: JoystickState, ready: bool)

  /** The trace has defined behaviour from `h`: every poll that builds a
      report (flag raised and transport ready) sees a reportable joystick
      state. Polls that send nothing may see any state. */
  predicate Defined(h: Hid, acts: seq<Action>)
    decreases |acts|, 0
  {
    |acts| == 0 ||
    var pre := acts[..|acts| - 1];
    && Defined(h, pre)
    && match acts[|acts| - 1]
       case Tick => true
       case Poll(live, ready) => RunActions(h, pre).sendHidReport && ready ==> Reportable(live)
  }

  function RunActions(h: Hid, acts: seq<Action>): Hid
    requires Defined(h, acts)
    decreases |acts|, 1
  {
    if |acts| == 0 then h
    else
      var h' := RunActions(h, acts[..|acts| - 1]);
      match acts[|acts| - 1]
      case Tick => HidReportTimerCallback(h')
      case Poll(live, ready) => UsbTask(h', live, ready)
  }

  function CountTicks(acts: seq<Action>): nat {
    if |acts| == 0 then 0
    else CountTicks(acts[..|acts| - 1]) + (if acts[|acts| - 1].Tick? then 1 else 0)
  }

  /** No report is sent without a tick before it: the reports sent, plus one
      if a report is still due, never exceed the ticks. Old reports are kept
      as they were. */
  lemma {:induction false} ReportsBoundedByTicks(h: Hid, acts: seq<Action>)
    requires Defined(h, acts)
    ensures var h' := RunActions(h, acts);
            && |h'.sent| + BoolToInt(h'.sendHidReport) <= |h.sent| + BoolToInt(h.sendHidReport) + CountTicks(acts)
            && |h.sent| <= |h'.sent|
            && h'.sent[..|h.sent|] == h.sent
  {
    if |acts| > 0 {
      var pre := acts[..|acts| - 1];
      ReportsBoundedByTicks(h, pre);
      var mid := RunActions(h, pre);
      var h' := RunActions(h, acts);
      assert h'.sent[..|mid.sent|] == mid.sent;
      assert h'.sent[..|h.sent|] == mid.sent[..|h.sent|];
    }
  }

  /** From power-up, the number of reports sent never exceeds the number of
      timer ticks. */
  lemma ReportsFromStartBoundedByTicks(acts: seq<Action>)
    requires Defined(INITIAL_HID, acts)
    ensures |RunActions(INITIAL_HID, acts).sent| <= CountTicks(acts)
  {
    ReportsBoundedByTicks(INITIAL_HID, acts);
  }

  /** A stick whose axes read +infinity (a disconnected divider) is polled
      before the first tick: no report is built, so the trace is defined and
      sends nothing. */
  lemma UnreportablePollBeforeTick(ready: bool)
    ensures var acts := [Poll(JoystickState(false, false, Infinite, Infinite), ready)];
            && Defined(INITIAL_HID, acts)
            && RunActions(INITIAL_HID, acts) == INITIAL_HID
  {
  }
}
