/**
 * Constants, integer widths and record shapes shared by both cores of the bridge
 * (src_fw/picow_ble_usb_hid_bridge/Common.h).
 */
module CommonDefs {

  /** An unsigned 8-bit value (`uint8_t`). */
  type byte = x: int | 0 <= x < 0x100

  /** An unsigned 16-bit value (`uint16_t`). */
  type uint16 = x: int | 0 <= x < 0x1_0000

  /** Number of slots of the HID report queue; one slot is always left free. */
  const QUE_DATA_MAX_HID_RPT: nat := 32

  /** Size of the payload array of one HID report record. */
  const HID_RPT_DATA_SIZE: nat := 512

  /** The queue kinds: only the HID report queue exists. */
  datatype QueueKind = HidRptQueue

  /** Number of queue kinds, i.e. the length of the array of queue control blocks. */
  const QUE_KIND_NUM: nat := 1

  /** The payload array of a report record always has exactly HID_RPT_DATA_SIZE bytes. */
  type ReportPayload = s: seq<byte> | |s| == HID_RPT_DATA_SIZE
    witness seq(HID_RPT_DATA_SIZE, _ => 0)

  /**
   * One HID report record (`ST_HID_RPT`): a one-byte report id, the fixed-size payload
   * array and the number of meaningful payload bytes. Records are copied by value
   * into and out of the queue.
   */
  datatype HidReport = HidReport(reportId: byte, report: ReportPayload, reportLen: uint16)

  /** The all-zero record that fills the statically allocated queue storage at start-up. */
  function ZeroReport(): (r: HidReport)
    ensures r.reportId == 0 && r.reportLen == 0
    ensures forall i :: 0 <= i < |r.report| ==> r.report[i] == 0
  {
    HidReport(0, seq(HID_RPT_DATA_SIZE, _ => 0), 0)
  }

  /** Every queue kind indexes the array of control blocks within its bounds. */
  function KindIndex(k: QueueKind): (i: nat)
    ensures i < QUE_KIND_NUM
  {
    match k
    case HidRptQueue => 0
  }
}
