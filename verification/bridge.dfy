/**
 * The USB-serving side of the bridge (src_fw/picow_ble_usb_hid_bridge/main.c): the
 * dispatch step that moves one queued report to the HID endpoint, the reinitialisation
 * block of the main loop, and the GET_REPORT callback.
 *
 * The USB stack is not part of this model: its answers (`tud_suspended`, `tud_hid_ready`,
 * the result of `tud_hid_report`, `tud_mounted`) are inputs, and the calls the firmware
 * makes into it are recorded, in order, as UsbCall values.
 */
module Bridge {

  import opened CommonDefs
  import opened Common

  /** Delay after a forced disconnect before the queue is flushed, in milliseconds. */
  const USB_REINIT_STABILIZATION_DELAY: nat := 100

  /** A call the firmware makes into the USB stack or the board. */
  datatype UsbCall =
    | RemoteWakeup                                                 // tud_remote_wakeup()
    | SendReport(reportId: byte, report: ReportPayload, len: uint16)  // tud_hid_report(id, report, len)
    | Disconnect                                                   // tud_disconnect()
    | Delay(ms: nat)                                               // board_delay(ms)
    | Connect                                                      // tud_connect()

  /** What the USB stack answers while one dispatch step runs. */
  datatype StackAnswers = StackAnswers(suspended: bool, hidReady: bool, reportAccepted: bool)

  /** The effect of one dispatch step: its result, the calls it made, the queue and the static report buffer after it. */
  datatype DispatchStep = DispatchStep(sent: bool, calls: seq<UsbCall>, queue: QueueState, buffer: HidReport)

  /**
   * `send_hid_report`: peek the oldest record into the static buffer; if the bus is
   * suspended ask for remote wakeup and stop; otherwise, if the endpoint is ready, hand
   * the record's payload to the stack under report id 0 and drop the record from the
   * queue only when the stack accepts it.
   */
  function Dispatch(q: QueueState, buffer: HidReport, a: StackAnswers): (d: DispatchStep)
    requires Valid(q)
    ensures Valid(d.queue) && Initialised(d.queue) == Initialised(q)
    ensures d.sent <==> !IsEmpty(q) && !a.suspended && a.hidReady && a.reportAccepted
    ensures d.sent ==> Contents(d.queue) == Contents(q)[1..]
    ensures !d.sent ==> d.queue == q
    ensures IsEmpty(q) ==> d.calls == [] && d.buffer == buffer
    ensures !IsEmpty(q) ==> d.buffer == Contents(q)[0]
    ensures |d.calls| <= 1
    ensures forall c :: c in d.calls ==> c == RemoteWakeup || c.SendReport?
    ensures RemoteWakeup in d.calls <==> !IsEmpty(q) && a.suspended
    ensures d.calls != [] && d.calls[0].SendReport? <==> !IsEmpty(q) && !a.suspended && a.hidReady
    ensures forall c :: c in d.calls && c.SendReport? ==>
              c == SendReport(0, Contents(q)[0].report, Contents(q)[0].reportLen)
  {
    if IsEmpty(q) then DispatchStep(false, [], q, buffer)
    else
      var r := Front(q);
      if a.suspended then DispatchStep(false, [RemoteWakeup], q, r)
      else if !a.hidReady then DispatchStep(false, [], q, r)
      else if a.reportAccepted then DispatchStep(true, [SendReport(0, r.report, r.reportLen)], Dequeued(q), r)
      else DispatchStep(false, [SendReport(0, r.report, r.reportLen)], q, r)
  }

  /** The records a dispatch step delivers: the oldest one when the stack accepted it, none otherwise. */
  function Delivered(q: QueueState, d: DispatchStep): (rs: seq<HidReport>)
    requires Valid(q) && (d.sent ==> !IsEmpty(q))
    ensures |rs| <= 1
  {
    if d.sent then [Front(q)] else []
  }

  /**
   * All or nothing: after one dispatch step, the delivered records followed by the records
   * still queued are exactly the records queued before: none is lost, none is sent twice.
   * A record is only ever removed together with an accepted transmission of its payload.
   */
  lemma DispatchLosesNothing(q: QueueState, buffer: HidReport, a: StackAnswers)
    requires Valid(q)
    ensures var d := Dispatch(q, buffer, a);
      Delivered(q, d) + Contents(d.queue) == Contents(q) &&
      (Contents(d.queue) != Contents(q) ==>
        d.sent && d.calls == [SendReport(0, Front(q).report, Front(q).reportLen)])
  {
    var d := Dispatch(q, buffer, a);
    ContentsBounds(q);
    if d.sent {
      assert Contents(q) == [Front(q)] + Contents(q)[1..];
    }
  }

  // ---------------------------------------------------------------------------------
  // Many passes, with the producer core pushing records in between

  /** One atomic event seen by the queue: a push by the wireless core or a dispatch pass of the USB core. */
  datatype Event = Produce(r: HidReport) | Pass(answers: StackAnswers)

  /** The accumulated effect of a run of events. */
  datatype Run = Run(queue: QueueState, buffer: HidReport, calls: seq<UsbCall>,
                     admitted: seq<HidReport>, delivered: seq<HidReport>)

  function RunEvents(q: QueueState, buffer: HidReport, evs: seq<Event>): (r: Run)
    requires Valid(q) && Initialised(q)
    ensures Valid(r.queue) && Initialised(r.queue)
    decreases |evs|
  {
    if evs == [] then Run(q, buffer, [], [], [])
    else match evs[0]
      case Produce(rec) =>
        var q1 := Enqueued(q, rec);
        var rest := RunEvents(q1, buffer, evs[1..]);
        rest.(admitted := (if IsFull(q) then [] else [rec]) + rest.admitted)
      case Pass(a) =>
        var d := Dispatch(q, buffer, a);
        var rest := RunEvents(d.queue, d.buffer, evs[1..]);
        rest.(calls := d.calls + rest.calls, delivered := Delivered(q, d) + rest.delivered)
  }

  /**
   * Across any interleaving of pushes and dispatch passes, the records delivered to the
   * host followed by those still queued are exactly the records queued at the start
   * followed by the pushes the queue admitted: delivery is in order, without loss and
   * without duplication.
   */
  lemma {:induction false} RunLosesNothing(q: QueueState, buffer: HidReport, evs: seq<Event>)
    requires Valid(q) && Initialised(q)
    ensures var r := RunEvents(q, buffer, evs);
      r.delivered + Contents(r.queue) == Contents(q) + r.admitted
    decreases |evs|
  {
    if evs != [] {
      match evs[0]
      case Produce(rec) =>
        var q1 := Enqueued(q, rec);
        RunLosesNothing(q1, buffer, evs[1..]);
        ProduceLosesNothing(q, rec, RunEvents(q1, buffer, evs[1..]));
      case Pass(a) =>
        var d := Dispatch(q, buffer, a);
        DispatchLosesNothing(q, buffer, a);
        RunLosesNothing(d.queue, d.buffer, evs[1..]);
        var rest := RunEvents(d.queue, d.buffer, evs[1..]);
        PassLosesNothing(Contents(q), Delivered(q, d), Contents(d.queue),
                         rest.delivered, Contents(rest.queue), rest.admitted);
    }
  }

  /** A push followed by a run that loses nothing loses nothing. */
  lemma ProduceLosesNothing(q: QueueState, rec: HidReport, rest: Run)
    requires Valid(q) && Initialised(q) && Valid(rest.queue)
    requires rest.delivered + Contents(rest.queue) == Contents(Enqueued(q, rec)) + rest.admitted
    ensures var added := if IsFull(q) then [] else [rec];
      rest.delivered + Contents(rest.queue) == Contents(q) + (added + rest.admitted)
  {
    var added := if IsFull(q) then [] else [rec];
    assert Contents(Enqueued(q, rec)) == Contents(q) + added;
    Assoc(Contents(q), added, rest.admitted);
  }

  /** A dispatch pass followed by a run that loses nothing loses nothing. */
  lemma PassLosesNothing<T>(before: seq<T>, mine: seq<T>, after: seq<T>,
                            delivered: seq<T>, queued: seq<T>, admitted: seq<T>)
    requires mine + after == before
    requires delivered + queued == after + admitted
    ensures (mine + delivered) + queued == before + admitted
  {
    Assoc(mine, delivered, queued);
    Assoc(mine, after, admitted);
  }

  /**
   * While the bus stays suspended, every pass peeks the same record, asks for remote
   * wakeup once and removes nothing.
   */
  lemma {:induction false} SuspendedPassesRetry(q: QueueState, buffer: HidReport, evs: seq<Event>)
    requires Valid(q) && Initialised(q) && !IsEmpty(q)
    requires forall i :: 0 <= i < |evs| ==> evs[i].Pass? && evs[i].answers.suspended
    ensures var r := RunEvents(q, buffer, evs);
      r.queue == q && r.delivered == [] && r.calls == seq(|evs|, _ => RemoteWakeup) &&
      (evs != [] ==> r.buffer == Front(q))
    decreases |evs|
  {
    if evs != [] {
      var d := Dispatch(q, buffer, evs[0].answers);
      assert d.queue == q && d.calls == [RemoteWakeup] && d.buffer == Front(q);
      SuspendedPassesRetry(q, d.buffer, evs[1..]);
      assert seq(|evs|, _ => RemoteWakeup) == [RemoteWakeup] + seq(|evs| - 1, _ => RemoteWakeup);
    }
  }

  // ---------------------------------------------------------------------------------
  // The reinitialisation block of the main loop

  /** The effect of the reinitialisation block: the flag, the calls made and the queue after it. */
  datatype ReinitStep = ReinitStep(flag: bool, calls: seq<UsbCall>, queue: QueueState)

  /**
   * If the reinit request is set: clear it, disconnect and wait if the device is mounted,
   * flush the queue whatever it holds, reconnect. If it is clear: do nothing.
   */
  function Reinit(flag: bool, mounted: bool, q: QueueState): (s: ReinitStep)
    requires Valid(q)
    ensures Valid(s.queue) && s.queue.max == q.max
    ensures !s.flag
    ensures !flag ==> s.calls == [] && s.queue == q
    ensures flag ==> IsEmpty(s.queue) && Contents(s.queue) == []
    ensures flag ==> |s.calls| > 0 && s.calls[|s.calls| - 1] == Connect
    ensures Disconnect in s.calls <==> flag && mounted
    ensures flag && mounted ==> s.calls == [Disconnect, Delay(USB_REINIT_STABILIZATION_DELAY), Connect]
    ensures flag && !mounted ==> s.calls == [Connect]
  {
    if flag then
      var pre := if mounted then [Disconnect, Delay(USB_REINIT_STABILIZATION_DELAY)] else [];
      ReinitStep(false, pre + [Connect], Cleared(q))
    else ReinitStep(flag, [], q)
  }

  /**
   * After a reinitialisation, a dequeue finds nothing until new records are pushed, and
   * whatever is delivered afterwards was pushed after the flush.
   */
  lemma AfterReinitOnlyNewRecords(mounted: bool, q: QueueState, buffer: HidReport, evs: seq<Event>, n: nat)
    requires Valid(q) && Initialised(q)
    ensures var s := Reinit(true, mounted, q);
      Drain(s.queue, n) == [] &&
      var r := RunEvents(s.queue, buffer, evs);
      r.delivered + Contents(r.queue) == r.admitted
  {
    var s := Reinit(true, mounted, q);
    RunLosesNothing(s.queue, buffer, evs);
  }

  /**
   * The wireless core may push records between the flush of the reinitialisation block
   * and the peek of the HID task that follows. Whatever that task then sends is the first
   * of those pushes, never a record queued before the flush; with no push it sends nothing.
   */
  lemma FlushThenPushesSendsOnlyNew(mounted: bool, q: QueueState, pushes: seq<HidReport>,
                                    buffer: HidReport, a: StackAnswers)
    requires Valid(q) && Initialised(q)
    ensures var s := Reinit(true, mounted, q);
      var d := Dispatch(EnqueueAll(s.queue, pushes), buffer, a);
      (pushes == [] ==> !d.sent && d.calls == []) &&
      (pushes != [] ==>
         d.buffer == pushes[0] &&
         forall c :: c in d.calls && c.SendReport? ==> c == SendReport(0, pushes[0].report, pushes[0].reportLen))
  {
    var s := Reinit(true, mounted, q);
    EnqueueAllDropsOnFull(s.queue, pushes);
    ContentsBounds(s.queue);
    var q1 := EnqueueAll(s.queue, pushes);
    if pushes != [] {
      assert Contents(q1) == pushes[..Min(|pushes|, Room(s.queue))];
      assert Contents(q1)[0] == pushes[0];
    }
  }

  /** One pass of the main loop: the reinitialisation block, then the HID task (the stack task and the LED task are not modelled). */
  function LoopPass(flag: bool, mounted: bool, q: QueueState, buffer: HidReport, a: StackAnswers): (p: (ReinitStep, DispatchStep))
    requires Valid(q)
    ensures flag ==> !p.1.sent && p.1.calls == [] && IsEmpty(p.1.queue)
  {
    var s := Reinit(flag, mounted, q);
    (s, Dispatch(s.queue, buffer, a))
  }

  /**
   * `tud_hid_get_report_cb`: GET_REPORT is not implemented; the answer length is always
   * zero, which the stack turns into a STALL.
   */
  function GetReportCallback(instance: byte, reportId: byte, reportType: byte, buffer: seq<byte>, reqLen: uint16): (n: uint16)
    ensures n == 0
  {
    0
  }

  // ---------------------------------------------------------------------------------
  // The USB core's state as the firmware keeps it

  /**
   * The state of the USB-serving core: the reinit request flag it shares with the wireless
   * core (`g_usb_reinit_request`), the static report buffer of `send_hid_report`, the
   * shared queue, and the calls made into the USB stack so far.
   */
  class UsbDevice {
    var reinitRequest: bool
    var hidRpt: HidReport
    var calls: seq<UsbCall>
    const queue: HidReportQueue

    ghost predicate Inv()
      reads this, queue, queue.buf
    {
      queue.Inv()
    }

    constructor (queue: HidReportQueue)
      requires queue.Inv()
      ensures Inv() && this.queue == queue
      ensures !reinitRequest && hidRpt == ZeroReport() && calls == []
    {
      reinitRequest := false;
      hidRpt := ZeroReport();
      calls := [];
      this.queue := queue;
    }

    /** `send_hid_report`, with the stack's answers as inputs. */
    method SendHidReport(a: StackAnswers) returns (sent: bool)
      requires Inv()
      modifies this, queue
      ensures Inv() && reinitRequest == old(reinitRequest)
      ensures var d := Dispatch(old(queue.State()), old(hidRpt), a);
        sent == d.sent && queue.State() == d.queue && hidRpt == d.buffer &&
        calls == old(calls) + d.calls
    {
      var ok, r := queue.Peek(hidRpt);
      hidRpt := r;
      sent := false;
      if ok {
        if a.suspended {
          calls := calls + [RemoteWakeup];
          return;
        }
        if a.hidReady {
          calls := calls + [SendReport(0, hidRpt.report, hidRpt.reportLen)];
          if a.reportAccepted {
            queue.Advance();
            sent := true;
          }
        }
      }
    }

    /** `hid_task`: one dispatch step, its result discarded. */
    method HidTask(a: StackAnswers)
      requires Inv()
      modifies this, queue
      ensures Inv() && reinitRequest == old(reinitRequest)
      ensures var d := Dispatch(old(queue.State()), old(hidRpt), a);
        queue.State() == d.queue && hidRpt == d.buffer && calls == old(calls) + d.calls
    {
      var _ := SendHidReport(a);
    }

    /** The reinitialisation block at the top of the `usb_dev_main` loop, with `tud_mounted` as input. */
    method ReinitCheck(mounted: bool)
      requires Inv()
      modifies this, queue
      ensures Inv() && hidRpt == old(hidRpt)
      ensures var s := Reinit(old(reinitRequest), mounted, old(queue.State()));
        reinitRequest == s.flag && queue.State() == s.queue && calls == old(calls) + s.calls
    {
      if reinitRequest {
        reinitRequest := false;
        if mounted {
          calls := calls + [Disconnect, Delay(USB_REINIT_STABILIZATION_DELAY)];
        }
        queue.Clear();
        calls := calls + [Connect];
      }
    }

    /** One pass of `usb_dev_main`: the reinitialisation block, then the HID task. */
    method MainLoopPass(mounted: bool, a: StackAnswers)
      requires Inv()
      modifies this, queue
      ensures Inv()
      ensures var p := LoopPass(old(reinitRequest), mounted, old(queue.State()), old(hidRpt), a);
        reinitRequest == p.0.flag && queue.State() == p.1.queue && hidRpt == p.1.buffer &&
        calls == old(calls) + p.0.calls + p.1.calls
    {
      ReinitCheck(mounted);
      HidTask(a);
    }
  }
}
