/**
 * The descriptors the bridge answers the host with
 * (src_fw/picow_ble_usb_hid_bridge/usb_descriptors.c): the choice of report descriptor,
 * the configuration descriptor rebuilt on every query into a static 34-byte buffer, and
 * the string descriptors widened into a static array of 16-bit units.
 *
 * Byte layouts follow section 9.6.3 (configuration), 9.6.5 (interface), 9.6.6 (endpoint)
 * and 9.6.7 (string) of the USB 2.0 specification and section 6.2.1 (HID descriptor) of
 * the Device Class Definition for HID 1.11. Multi-byte fields are little-endian.
 */
module UsbDescriptors {

  import opened CommonDefs
  import opened Wrappers

  // Descriptor type and class codes (USB 2.0 table 9-5 and section 9.6; HID 1.11 section 7.1).
  const TUSB_DESC_CONFIGURATION: byte := 0x02
  const TUSB_DESC_STRING: byte := 0x03
  const TUSB_DESC_INTERFACE: byte := 0x04
  const TUSB_DESC_ENDPOINT: byte := 0x05
  const HID_DESC_TYPE_HID: byte := 0x21
  const HID_DESC_TYPE_REPORT: byte := 0x22
  const TUSB_CLASS_HID: byte := 0x03
  const HID_SUBCLASS_NONE: byte := 0x00
  const HID_ITF_PROTOCOL_NONE: byte := 0x00
  /** Bit D5 of the configuration's bmAttributes: the device supports remote wakeup. */
  const TUSB_DESC_CONFIG_ATT_REMOTE_WAKEUP: byte := 0x20
  /** Transfer type field of an endpoint's bmAttributes: interrupt. */
  const TUSB_XFER_INTERRUPT: byte := 0x03

  const ITF_NUM_HID: byte := 0
  const ITF_NUM_TOTAL: byte := 1
  /** IN endpoint number 1. */
  const EPNUM_HID: byte := 0x81
  const BCD_HID: uint16 := 0x0111
  /** Maximum power in units of 2 mA: 500 mA. */
  const CONFIG_MAX_POWER: byte := 250

  const CONFIG_DESC_LEN: nat := 9
  const INTERFACE_DESC_LEN: nat := 9
  const HID_DESC_LEN: nat := 9
  const ENDPOINT_DESC_LEN: nat := 7
  /** Interface, HID and endpoint descriptors together. */
  const TUD_HID_DESC_LEN: nat := INTERFACE_DESC_LEN + HID_DESC_LEN + ENDPOINT_DESC_LEN
  /** Size of the static configuration buffer. */
  const DYNAMIC_CONFIG_BUF_SIZE: nat := CONFIG_DESC_LEN + TUD_HID_DESC_LEN

  /** Offset of the endpoint's bmAttributes byte in the configuration buffer. */
  const EP_ATTRIBUTES_OFFSET: nat := CONFIG_DESC_LEN + INTERFACE_DESC_LEN + HID_DESC_LEN + 3

  // ---------------------------------------------------------------------------------
  // Little-endian 16-bit fields

  /** The value of a little-endian 16-bit field with bytes `lo`, `hi`. */
  function U16(lo: byte, hi: byte): uint16
  {
    lo + 0x100 * hi
  }

  /** The low byte of a 16-bit value. */
  function Lo(v: uint16): byte
  {
    v % 0x100
  }

  /** The high byte of a 16-bit value. */
  function Hi(v: uint16): byte
  {
    v / 0x100
  }

  /** A 16-bit value as the two bytes of a little-endian field. */
  function Le16(v: uint16): (b: seq<byte>)
    ensures |b| == 2
  {
    [Lo(v), Hi(v)]
  }

  /** Splitting a 16-bit value into its two bytes and reading them back gives the value. */
  lemma LoHi(v: uint16)
    ensures U16(Lo(v), Hi(v)) == v
  {
  }

  /** Reading a field back and writing it again gives the same two bytes. */
  lemma Le16OfU16(lo: byte, hi: byte)
    ensures Le16(U16(lo, hi)) == [lo, hi]
  {
    var v := U16(lo, hi);
    assert v / 0x100 == hi;
  }

  // ---------------------------------------------------------------------------------
  // Report descriptor selection

  /**
   * `tud_hid_descriptor_report_cb`: the descriptor supplied by the wireless side when it is
   * ready and its pointer is not NULL, the built-in composite descriptor otherwise.
   */
  function ReportDescriptorCallback(instance: byte, ready: bool, external: Option<seq<byte>>, builtin: seq<byte>): (d: seq<byte>)
    ensures d == builtin || (ready && external == Some(d))
    ensures ready && external.Some? ==> d == external.value
  {
    if ready && external.Some? then external.value else builtin
  }

  /**
   * The report descriptor length written into the HID descriptor: the external length when
   * the wireless side is ready and that length is positive, `sizeof(desc_hid_report)`
   * (kept to 16 bits) otherwise.
   */
  function ReportDescLen(ready: bool, externalLen: uint16, builtin: seq<byte>): (n: uint16)
    ensures ready && externalLen > 0 ==> n == externalLen
    ensures !(ready && externalLen > 0) ==> n == |builtin| % 0x1_0000 && (|builtin| < 0x1_0000 ==> n == |builtin|)
  {
    if ready && externalLen > 0 then externalLen else |builtin| % 0x1_0000
  }

  /** When the wireless side is not ready, neither answer depends on what it supplies. */
  lemma NotReadyIgnoresExternal(instance: byte, e1: Option<seq<byte>>, e2: Option<seq<byte>>,
                                len1: uint16, len2: uint16, builtin: seq<byte>)
    ensures ReportDescriptorCallback(instance, false, e1, builtin) == builtin
    ensures ReportDescriptorCallback(instance, false, e1, builtin) == ReportDescriptorCallback(instance, false, e2, builtin)
    ensures ReportDescLen(false, len1, builtin) == ReportDescLen(false, len2, builtin)
  {
  }

  /**
   * When the wireless side supplies a consistent pair (no pointer and length 0, or a
   * pointer to exactly `length > 0` bytes) and the built-in descriptor fits 16 bits, the
   * length advertised in the configuration descriptor is the length of the report
   * descriptor actually returned.
   */
  lemma AdvertisedLengthMatchesReturned(instance: byte, ready: bool, external: Option<seq<byte>>,
                                        externalLen: uint16, builtin: seq<byte>)
    requires |builtin| < 0x1_0000
    requires external.None? ==> externalLen == 0
    requires external.Some? ==> |external.value| == externalLen > 0
    ensures ReportDescLen(ready, externalLen, builtin) == |ReportDescriptorCallback(instance, ready, external, builtin)|
  {
  }

  /**
   * The two choices test different things: a ready side with a non-NULL pointer but a zero
   * length gets its own report descriptor returned while the configuration advertises the
   * built-in length.
   */
  lemma SelectionRulesDiffer(instance: byte, data: seq<byte>, builtin: seq<byte>)
    ensures ReportDescriptorCallback(instance, true, Some(data), builtin) == data
    ensures ReportDescLen(true, 0, builtin) == |builtin| % 0x1_0000
  {
  }

  // ---------------------------------------------------------------------------------
  // The configuration descriptor as bytes

  /**
   * The 9-byte configuration header (USB 2.0 section 9.6.3) with wTotalLength bytes `lo`,
   * `hi`: one interface, configuration value 1, no string, remote wakeup, 500 mA.
   */
  function ConfigurationHeaderWith(lo: byte, hi: byte): (d: seq<byte>)
    ensures |d| == CONFIG_DESC_LEN && d[0] == |d| && d[1] == TUSB_DESC_CONFIGURATION
  {
    [CONFIG_DESC_LEN, TUSB_DESC_CONFIGURATION, lo, hi,
     ITF_NUM_TOTAL, 1, 0, TUSB_DESC_CONFIG_ATT_REMOTE_WAKEUP, CONFIG_MAX_POWER]
  }

  /** The configuration header announcing `totalLen` bytes in all. */
  function ConfigurationHeader(totalLen: uint16): (d: seq<byte>)
    ensures |d| == CONFIG_DESC_LEN && d[0] == |d| && d[1] == TUSB_DESC_CONFIGURATION
  {
    ConfigurationHeaderWith(Lo(totalLen), Hi(totalLen))
  }

  /** The 9-byte interface descriptor (USB 2.0 section 9.6.5): one endpoint, HID class, no boot protocol. */
  function InterfaceDescriptor(): (d: seq<byte>)
    ensures |d| == INTERFACE_DESC_LEN && d[0] == |d| && d[1] == TUSB_DESC_INTERFACE
  {
    [INTERFACE_DESC_LEN, TUSB_DESC_INTERFACE, ITF_NUM_HID, 0, 1,
     TUSB_CLASS_HID, HID_SUBCLASS_NONE, HID_ITF_PROTOCOL_NONE, 0]
  }

  /** The 9-byte HID descriptor (HID 1.11 section 6.2.1) naming one report descriptor of `reportLen` bytes. */
  function HidDescriptor(reportLen: uint16): (d: seq<byte>)
    ensures |d| == HID_DESC_LEN && d[0] == |d| && d[1] == HID_DESC_TYPE_HID
  {
    [HID_DESC_LEN, HID_DESC_TYPE_HID, Lo(BCD_HID), Hi(BCD_HID), 0, 1, HID_DESC_TYPE_REPORT,
     Lo(reportLen), Hi(reportLen)]
  }

  /**
   * bmAttributes as a bit-field: bits 0-1 hold the transfer type, and assigning that field
   * keeps the upper six bits of the byte it is written into.
   */
  function WithTransferType(b: byte, xfer: byte): (r: byte)
    requires xfer < 4
    ensures r % 4 == xfer && r / 4 == b / 4
  {
    b - b % 4 + xfer
  }

  /** In a byte whose upper bits are clear, assigning the transfer type leaves just that type. */
  lemma TransferTypeField(b: byte, xfer: byte)
    requires b < 4 && xfer < 4
    ensures WithTransferType(b, xfer) == xfer
  {
  }

  /**
   * The 7-byte endpoint descriptor (USB 2.0 section 9.6.6) with bmAttributes byte `attributes`:
   * IN endpoint 1, polled every frame.
   */
  function EndpointDescriptorWith(attributes: byte, maxPacketSize: uint16): (d: seq<byte>)
    ensures |d| == ENDPOINT_DESC_LEN && d[0] == |d| && d[1] == TUSB_DESC_ENDPOINT
  {
    [ENDPOINT_DESC_LEN, TUSB_DESC_ENDPOINT, EPNUM_HID, attributes,
     Lo(maxPacketSize), Hi(maxPacketSize), 1]
  }

  /** The endpoint descriptor of an interrupt endpoint. */
  function EndpointDescriptor(maxPacketSize: uint16): (d: seq<byte>)
    ensures |d| == ENDPOINT_DESC_LEN && d[0] == |d| && d[1] == TUSB_DESC_ENDPOINT
  {
    EndpointDescriptorWith(TUSB_XFER_INTERRUPT, maxPacketSize)
  }

  /**
   * The whole configuration descriptor: header, interface, HID and endpoint descriptors
   * back to back.
   */
  function ConfigurationDescriptor(reportLen: uint16, maxPacketSize: uint16): (d: seq<byte>)
    ensures |d| == DYNAMIC_CONFIG_BUF_SIZE
  {
    ConfigurationHeader(DYNAMIC_CONFIG_BUF_SIZE) + InterfaceDescriptor() +
    HidDescriptor(reportLen) + EndpointDescriptor(maxPacketSize)
  }

  /** The offsets a host visits when it walks descriptors by their bLength fields from `at`. */
  function RecordStarts(d: seq<byte>, at: nat): seq<nat>
    decreases |d| - at
  {
    if at >= |d| || d[at] == 0 then [] else [at] + RecordStarts(d, at + d[at])
  }

  /**
   * Walking the configuration descriptor by bLength visits exactly four records, of types
   * configuration, interface, HID and endpoint, at offsets 0, 9, 18 and 27, each one
   * starting where the previous one ended.
   */
  lemma ConfigurationWalk(reportLen: uint16, maxPacketSize: uint16)
    ensures var d := ConfigurationDescriptor(reportLen, maxPacketSize);
      RecordStarts(d, 0) == [0, 9, 18, 27] &&
      d[1] == TUSB_DESC_CONFIGURATION && d[10] == TUSB_DESC_INTERFACE &&
      d[19] == HID_DESC_TYPE_HID && d[28] == TUSB_DESC_ENDPOINT
  {
    var d := ConfigurationDescriptor(reportLen, maxPacketSize);
    var h, i := ConfigurationHeader(DYNAMIC_CONFIG_BUF_SIZE), InterfaceDescriptor();
    var k, e := HidDescriptor(reportLen), EndpointDescriptor(maxPacketSize);
    assert d[0] == h[0] == 9 && d[1] == h[1];
    assert d[9] == i[0] == 9 && d[10] == i[1];
    assert d[18] == k[0] == 9 && d[19] == k[1];
    assert d[27] == e[0] == 7 && d[28] == e[1];
    assert RecordStarts(d, 34) == [];
    assert RecordStarts(d, 27) == [27];
    assert RecordStarts(d, 18) == [18, 27];
    assert RecordStarts(d, 9) == [9, 18, 27];
  }

  /** The records of the configuration descriptor lie at the offsets the builder's cursor passes. */
  lemma ConfigurationFields(reportLen: uint16, maxPacketSize: uint16)
    ensures var d := ConfigurationDescriptor(reportLen, maxPacketSize);
      d[..9] == ConfigurationHeader(DYNAMIC_CONFIG_BUF_SIZE) &&
      d[9..18] == InterfaceDescriptor() &&
      d[18..27] == HidDescriptor(reportLen) &&
      d[27..] == EndpointDescriptor(maxPacketSize) &&
      d[4] == ITF_NUM_TOTAL && d[5] == 1 && d[6] == 0 &&
      d[7] == TUSB_DESC_CONFIG_ATT_REMOTE_WAKEUP && d[8] == CONFIG_MAX_POWER &&
      d[13] == 1 && d[14] == TUSB_CLASS_HID && d[16] == HID_ITF_PROTOCOL_NONE &&
      d[22] == 0 && d[23] == 1 && d[24] == HID_DESC_TYPE_REPORT &&
      d[29] == EPNUM_HID && d[30] == TUSB_XFER_INTERRUPT && d[33] == 1
  {
    var d := ConfigurationDescriptor(reportLen, maxPacketSize);
    var h, i := ConfigurationHeader(DYNAMIC_CONFIG_BUF_SIZE), InterfaceDescriptor();
    var k, e := HidDescriptor(reportLen), EndpointDescriptor(maxPacketSize);
    assert d == h + i + k + e;
    assert d[..9] == h;
    assert d[9..18] == i;
    assert d[18..27] == k;
    assert d[27..] == e;
  }

  /**
   * The 16-bit fields read back as intended: wTotalLength is the size of the whole
   * descriptor, so the last record ends exactly there, bcdHID is 1.11 and
   * wDescriptorLength is the chosen report descriptor length.
   */
  lemma ConfigurationLengths(reportLen: uint16, maxPacketSize: uint16)
    ensures var d := ConfigurationDescriptor(reportLen, maxPacketSize);
      U16(d[2], d[3]) == |d| == 27 + d[27] &&
      U16(d[20], d[21]) == BCD_HID &&
      U16(d[25], d[26]) == reportLen &&
      U16(d[31], d[32]) == maxPacketSize
  {
    var d := ConfigurationDescriptor(reportLen, maxPacketSize);
    ConfigurationFields(reportLen, maxPacketSize);
    assert d[2] == d[..9][2] == 34 && d[3] == d[..9][3] == 0;
    assert d[27] == d[27..][0] == 7;
    assert d[20] == d[18..27][2] == Lo(BCD_HID) && d[21] == d[18..27][3] == Hi(BCD_HID);
    assert d[25] == d[18..27][7] == Lo(reportLen) && d[26] == d[18..27][8] == Hi(reportLen);
    assert d[31] == d[27..][4] == Lo(maxPacketSize) && d[32] == d[27..][5] == Hi(maxPacketSize);
    LoHi(BCD_HID);
    LoHi(reportLen);
    LoHi(maxPacketSize);
  }

  /** `s` with `r` written over it from offset `at`. */
  function Overwrite<T>(s: seq<T>, at: nat, r: seq<T>): (t: seq<T>)
    requires at + |r| <= |s|
    ensures |t| == |s|
  {
    s[..at] + r + s[at + |r|..]
  }

  /** Overwriting two, seven or nine elements is that many single-element updates. */
  lemma OverwriteTwo<T>(s: seq<T>, at: nat, r: seq<T>)
    requires at + 2 <= |s| && |r| == 2
    ensures Overwrite(s, at, r) == s[at := r[0]][at + 1 := r[1]]
  {
  }

  lemma OverwriteSeven<T>(s: seq<T>, at: nat, r: seq<T>)
    requires at + 7 <= |s| && |r| == 7
    ensures Overwrite(s, at, r) == s[at := r[0]][at + 1 := r[1]][at + 2 := r[2]][at + 3 := r[3]]
                                    [at + 4 := r[4]][at + 5 := r[5]][at + 6 := r[6]]
  {
  }

  lemma OverwriteNine<T>(s: seq<T>, at: nat, r: seq<T>)
    requires at + 9 <= |s| && |r| == 9
    ensures Overwrite(s, at, r) == s[at := r[0]][at + 1 := r[1]][at + 2 := r[2]][at + 3 := r[3]]
                                    [at + 4 := r[4]][at + 5 := r[5]][at + 6 := r[6]][at + 7 := r[7]][at + 8 := r[8]]
  {
  }

  /** Overwriting just past a prefix keeps the prefix and the tail beyond the new part. */
  lemma OverwriteAfter<T>(p: seq<T>, t: seq<T>, r: seq<T>)
    requires |r| <= |t|
    ensures Overwrite(p + t, |p|, r) == p + r + t[|r|..]
  {
    assert (p + t)[..|p|] == p;
    assert (p + t)[|p| + |r|..] == t[|r|..];
  }

  /**
   * The builder's five writes, in its order, turn any buffer whose endpoint bmAttributes
   * byte has its upper bits clear into the configuration descriptor: the header without
   * wTotalLength, the interface and HID descriptors behind it, wTotalLength back-patched,
   * and the endpoint descriptor, whose transfer-type field is assigned into the old byte.
   */
  lemma BuilderWritesDescriptor(s0: seq<byte>, reportLen: uint16, maxPacketSize: uint16)
    requires |s0| == DYNAMIC_CONFIG_BUF_SIZE && s0[EP_ATTRIBUTES_OFFSET] < 4
    ensures var s1 := Overwrite(s0, 0, ConfigurationHeaderWith(s0[2], s0[3]));
      var s2 := Overwrite(s1, 9, InterfaceDescriptor());
      var s3 := Overwrite(s2, 18, HidDescriptor(reportLen));
      var s4 := Overwrite(s3, 2, Le16(DYNAMIC_CONFIG_BUF_SIZE));
      var s5 := Overwrite(s4, 27, EndpointDescriptorWith(WithTransferType(s4[30], TUSB_XFER_INTERRUPT), maxPacketSize));
      s5 == ConfigurationDescriptor(reportLen, maxPacketSize)
  {
    var hw := ConfigurationHeaderWith(s0[2], s0[3]);
    var i, k := InterfaceDescriptor(), HidDescriptor(reportLen);
    var s3 := hw + i + k + s0[27..];
    assert Overwrite(s0, 0, hw) == hw + s0[9..] by {
      OverwriteAfter([], s0, hw);
      assert [] + s0 == s0;
    }
    assert Overwrite(hw + s0[9..], 9, i) == hw + i + s0[18..] by {
      OverwriteAfter(hw, s0[9..], i);
      assert s0[9..][9..] == s0[18..];
    }
    assert Overwrite(hw + i + s0[18..], 18, k) == s3 by {
      OverwriteAfter(hw + i, s0[18..], k);
      assert s0[18..][9..] == s0[27..];
    }
    var s4 := Overwrite(s3, 2, Le16(DYNAMIC_CONFIG_BUF_SIZE));
    PatchTotalLength(s0[2], s0[3], i + k + s0[27..]);
    assert s4 == ConfigurationHeader(DYNAMIC_CONFIG_BUF_SIZE) + i + k + s0[27..];
    AssignEndpoint(ConfigurationHeader(DYNAMIC_CONFIG_BUF_SIZE) + i + k, s0[27..], maxPacketSize);
  }

  /** Back-patching wTotalLength into a header written without it. */
  lemma PatchTotalLength(lo: byte, hi: byte, rest: seq<byte>)
    ensures Overwrite(ConfigurationHeaderWith(lo, hi) + rest, 2, Le16(DYNAMIC_CONFIG_BUF_SIZE))
            == ConfigurationHeader(DYNAMIC_CONFIG_BUF_SIZE) + rest
  {
    var hw := ConfigurationHeaderWith(lo, hi);
    var tail := hw[4..] + rest;
    assert hw + rest == hw[..2] + ([lo, hi] + tail);
    OverwriteAfter(hw[..2], [lo, hi] + tail, Le16(DYNAMIC_CONFIG_BUF_SIZE));
    assert ([lo, hi] + tail)[2..] == tail;
    assert ConfigurationHeader(DYNAMIC_CONFIG_BUF_SIZE) == hw[..2] + Le16(DYNAMIC_CONFIG_BUF_SIZE) + hw[4..];
  }

  /** Writing the endpoint descriptor over the last seven bytes, with its bit-field assigned into the old byte. */
  lemma AssignEndpoint(front: seq<byte>, old7: seq<byte>, maxPacketSize: uint16)
    requires |front| == 27 && |old7| == ENDPOINT_DESC_LEN && old7[3] < 4
    ensures Overwrite(front + old7, 27, EndpointDescriptorWith(
              WithTransferType((front + old7)[30], TUSB_XFER_INTERRUPT), maxPacketSize))
            == front + EndpointDescriptor(maxPacketSize)
  {
    assert (front + old7)[30] == old7[3];
    TransferTypeField(old7[3], TUSB_XFER_INTERRUPT);
    OverwriteAfter(front, old7, EndpointDescriptor(maxPacketSize));
    assert old7[7..] == [];
  }

  /** The static configuration buffer `desc_configuration`. */
  class ConfigDescriptorBuffer {
    const buf: array<byte>

    /**
     * The buffer has its fixed size, and the bits of the endpoint's bmAttributes byte above
     * the transfer-type bit-field are clear: the buffer starts zeroed and nothing else
     * writes them.
     */
    ghost predicate Inv()
      reads this, buf
    {
      buf.Length == DYNAMIC_CONFIG_BUF_SIZE && buf[EP_ATTRIBUTES_OFFSET] < 4
    }

    constructor ()
      ensures Inv() && fresh(buf)
      ensures forall i :: 0 <= i < buf.Length ==> buf[i] == 0
    {
      buf := new byte[DYNAMIC_CONFIG_BUF_SIZE](_ => 0);
    }

    /** `tu_unaligned_write16`: a 16-bit value written as two little-endian bytes at `at`. */
    method Write16(at: nat, v: uint16)
      requires at + 2 <= buf.Length
      modifies buf
      ensures buf[..] == Overwrite(old(buf[..]), at, Le16(v))
    {
      ghost var s: seq<byte> := buf[..];
      buf[at] := Lo(v);
      buf[at + 1] := Hi(v);
      assert buf[..] == s[at := Lo(v)][at + 1 := Hi(v)];
      OverwriteTwo(s, at, Le16(v));
    }

    /** Step 1 of the builder: the configuration header's fields, all but wTotalLength (bytes 2 and 3). */
    method WriteConfigurationHeader(at: nat)
      requires at + CONFIG_DESC_LEN <= buf.Length
      modifies buf
      ensures buf[..] == Overwrite(old(buf[..]), at, ConfigurationHeaderWith(old(buf[at + 2]), old(buf[at + 3])))
    {
      ghost var s: seq<byte> := buf[..];
      buf[at] := CONFIG_DESC_LEN as byte;
      buf[at + 1] := TUSB_DESC_CONFIGURATION;
      buf[at + 4] := ITF_NUM_TOTAL;
      buf[at + 5] := 1;
      buf[at + 6] := 0;
      buf[at + 7] := TUSB_DESC_CONFIG_ATT_REMOTE_WAKEUP;
      buf[at + 8] := CONFIG_MAX_POWER;
      var r := ConfigurationHeaderWith(s[at + 2], s[at + 3]);
      assert buf[..] == s[at := r[0]][at + 1 := r[1]][at + 2 := r[2]][at + 3 := r[3]][at + 4 := r[4]]
                         [at + 5 := r[5]][at + 6 := r[6]][at + 7 := r[7]][at + 8 := r[8]];
      OverwriteNine(s, at, r);
    }

    /** Step 2 of the builder: the interface descriptor's fields. */
    method WriteInterfaceDescriptor(at: nat)
      requires at + INTERFACE_DESC_LEN <= buf.Length
      modifies buf
      ensures buf[..] == Overwrite(old(buf[..]), at, InterfaceDescriptor())
    {
      ghost var s: seq<byte> := buf[..];
      buf[at] := INTERFACE_DESC_LEN as byte;
      buf[at + 1] := TUSB_DESC_INTERFACE;
      buf[at + 2] := ITF_NUM_HID;
      buf[at + 3] := 0;
      buf[at + 4] := 1;
      buf[at + 5] := TUSB_CLASS_HID;
      buf[at + 6] := HID_SUBCLASS_NONE;
      buf[at + 7] := HID_ITF_PROTOCOL_NONE;
      buf[at + 8] := 0;
      var r := InterfaceDescriptor();
      assert buf[..] == s[at := r[0]][at + 1 := r[1]][at + 2 := r[2]][at + 3 := r[3]][at + 4 := r[4]]
                         [at + 5 := r[5]][at + 6 := r[6]][at + 7 := r[7]][at + 8 := r[8]];
      OverwriteNine(s, at, r);
    }

    /**
     * Step 3 of the builder: the HID descriptor, written byte by byte through the cursor,
     * which ends past it; the two 16-bit fields go in as `tu_unaligned_write16` stores them.
     */
    method WriteHidDescriptor(at: nat, reportLen: uint16) returns (next: nat)
      requires at + HID_DESC_LEN <= buf.Length
      modifies buf
      ensures next == at + HID_DESC_LEN
      ensures buf[..] == Overwrite(old(buf[..]), at, HidDescriptor(reportLen))
    {
      ghost var s: seq<byte> := buf[..];
      var p := at;
      buf[p] := 9;
      p := p + 1;
      buf[p] := HID_DESC_TYPE_HID;
      p := p + 1;
      buf[p] := Lo(BCD_HID);
      buf[p + 1] := Hi(BCD_HID);
      p := p + 2;
      buf[p] := 0;
      p := p + 1;
      buf[p] := 1;
      p := p + 1;
      buf[p] := HID_DESC_TYPE_REPORT;
      p := p + 1;
      buf[p] := Lo(reportLen);
      buf[p + 1] := Hi(reportLen);
      p := p + 2;
      next := p;
      var r := HidDescriptor(reportLen);
      assert buf[..] == s[at := r[0]][at + 1 := r[1]][at + 2 := r[2]][at + 3 := r[3]][at + 4 := r[4]]
                         [at + 5 := r[5]][at + 6 := r[6]][at + 7 := r[7]][at + 8 := r[8]];
      OverwriteNine(s, at, r);
    }

    /**
     * Step 4 of the builder: the endpoint descriptor's fields. bmAttributes is a bit-field
     * of which only the two transfer-type bits are assigned; the others keep their value.
     */
    method WriteEndpointDescriptor(at: nat, maxPacketSize: uint16)
      requires at + ENDPOINT_DESC_LEN <= buf.Length
      modifies buf
      ensures buf[..] == Overwrite(old(buf[..]), at,
                EndpointDescriptorWith(WithTransferType(old(buf[at + 3]), TUSB_XFER_INTERRUPT), maxPacketSize))
    {
      ghost var s: seq<byte> := buf[..];
      buf[at] := ENDPOINT_DESC_LEN as byte;
      buf[at + 1] := TUSB_DESC_ENDPOINT;
      buf[at + 2] := EPNUM_HID;
      buf[at + 3] := WithTransferType(buf[at + 3], TUSB_XFER_INTERRUPT);
      buf[at + 4] := Lo(maxPacketSize);
      buf[at + 5] := Hi(maxPacketSize);
      buf[at + 6] := 1;
      var r := EndpointDescriptorWith(WithTransferType(s[at + 3], TUSB_XFER_INTERRUPT), maxPacketSize);
      assert buf[..] == s[at := r[0]][at + 1 := r[1]][at + 2 := r[2]][at + 3 := r[3]][at + 4 := r[4]]
                         [at + 5 := r[5]][at + 6 := r[6]];
      OverwriteSeven(s, at, r);
    }

    /**
     * `tud_descriptor_configuration_cb`: rebuilds the descriptor in place with a moving
     * write cursor, back-patches wTotalLength from the cursor, and answers with the buffer
     * (`ok`) only if the cursor did not pass its end.
     */
    method ConfigurationCallback(index: byte, ready: bool, externalLen: uint16, builtin: seq<byte>,
                                 maxPacketSize: uint16) returns (ok: bool)
      requires Inv()
      modifies buf
      ensures Inv() && ok
      ensures buf[..] == ConfigurationDescriptor(ReportDescLen(ready, externalLen, builtin), maxPacketSize)
    {
      var p := 0;
      var reportDescLen: uint16;
      if ready && externalLen > 0 {
        reportDescLen := externalLen;
      } else {
        reportDescLen := |builtin| % 0x1_0000;
      }
      ghost var s0 := buf[..];

      var config := p;
      WriteConfigurationHeader(config);
      ghost var s1 := buf[..];
      assert s1 == Overwrite(s0, 0, ConfigurationHeaderWith(s0[2], s0[3]));
      p := p + CONFIG_DESC_LEN;
      WriteInterfaceDescriptor(p);
      ghost var s2 := buf[..];
      assert s2 == Overwrite(s1, 9, InterfaceDescriptor());
      p := p + INTERFACE_DESC_LEN;
      p := WriteHidDescriptor(p, reportDescLen);
      ghost var s3 := buf[..];
      assert p == 27 && s3 == Overwrite(s2, 18, HidDescriptor(reportDescLen));
      var ep := p;
      Write16(config + 2, (p % 0x1_0000 + ENDPOINT_DESC_LEN) % 0x1_0000);
      ghost var s4 := buf[..];
      assert s4 == Overwrite(s3, 2, Le16(DYNAMIC_CONFIG_BUF_SIZE));
      WriteEndpointDescriptor(ep, maxPacketSize);
      assert buf[..] == Overwrite(s4, 27, EndpointDescriptorWith(WithTransferType(s4[30], TUSB_XFER_INTERRUPT), maxPacketSize));
      p := p + ENDPOINT_DESC_LEN;

      ok := p <= buf.Length;

      BuilderWritesDescriptor(s0, reportDescLen, maxPacketSize);
      assert buf[..] == ConfigurationDescriptor(reportDescLen, maxPacketSize);
      ConfigurationFields(reportDescLen, maxPacketSize);
    }
  }

  // ---------------------------------------------------------------------------------
  // String descriptors

  const STRID_LANGID: byte := 0
  const STRID_MANUFACTURER: byte := 1
  const STRID_PRODUCT: byte := 2
  const STRID_SERIAL: byte := 3

  /** Longest string, in UTF-16 units, that fits the 33-unit buffer after its header unit. */
  const MAX_STRING_CHARS: nat := 32

  /** The bytes of a string of 7-bit characters. */
  function AsciiBytes(s: string): (b: seq<byte>)
    requires forall i :: 0 <= i < |s| ==> s[i] as int < 0x80
    ensures |b| == |s| && forall i :: 0 <= i < |s| ==> b[i] == s[i] as int
  {
    seq(|s|, i requires 0 <= i < |s| => s[i] as int)
  }

  /** `string_desc_arr`: the language id bytes, manufacturer, product, and the NULL serial slot. */
  const STRING_DESC_ARR: seq<Option<seq<byte>>> :=
    [Some([0x09, 0x04]), Some(AsciiBytes("TinyUSB")), Some(AsciiBytes("TinyUSB Device")), None]

  /**
   * Word 0 of a string descriptor, `(TUSB_DESC_STRING << 8) | (2 * count + 2)`: read as a
   * little-endian field, bLength is the descriptor's size in bytes and bDescriptorType is STRING.
   */
  function StringHeader(count: nat): (w: uint16)
    requires count <= MAX_STRING_CHARS
    ensures w % 0x100 == 2 * count + 2 && w / 0x100 == TUSB_DESC_STRING
  {
    TUSB_DESC_STRING * 0x100 + (2 * count + 2)
  }

  /** The character count of the default branch: `strlen`, capped at 32. */
  function CappedCount(s: seq<byte>): (n: nat)
    ensures n <= MAX_STRING_CHARS && n <= |s|
    ensures n == |s| || n == MAX_STRING_CHARS
  {
    if |s| > MAX_STRING_CHARS then MAX_STRING_CHARS else |s|
  }

  /**
   * The meaningful prefix of `_desc_str` after `tud_descriptor_string_cb(index)`: the header
   * word followed by the UTF-16 units, or None where the firmware answers NULL. The serial
   * number units come from the board and are an input here.
   */
  function StringDescriptor(index: byte, serial: seq<uint16>): (d: Option<seq<uint16>>)
    requires |serial| <= MAX_STRING_CHARS
    ensures d.Some? <==> index < |STRING_DESC_ARR|
    ensures d.Some? ==> 1 <= |d.value| <= MAX_STRING_CHARS + 1 && d.value[0] == StringHeader(|d.value| - 1)
    ensures d.Some? ==> d.value[0] % 0x100 == 2 * |d.value| && d.value[0] / 0x100 == TUSB_DESC_STRING
  {
    if index == STRID_LANGID then
      var lang := STRING_DESC_ARR[0].value;
      Some([StringHeader(1), U16(lang[0], lang[1])])
    else if index == STRID_SERIAL then
      Some([StringHeader(|serial|)] + serial)
    else if index >= |STRING_DESC_ARR| then None
    else
      var s := STRING_DESC_ARR[index].value;
      var n := CappedCount(s);
      Some([StringHeader(n)] + s[..n])
  }

  /** Index 0 answers the single language id 0x0409 (English, United States). */
  lemma LanguageIdDescriptor(serial: seq<uint16>)
    requires |serial| <= MAX_STRING_CHARS
    ensures StringDescriptor(STRID_LANGID, serial) == Some([StringHeader(1), 0x0409])
    ensures StringHeader(1) % 0x100 == 4
  {
  }

  /**
   * The manufacturer and product strings come back as one UTF-16 unit per character, each
   * equal to the character's code, capped at 32 characters.
   */
  lemma TextDescriptorWidensAscii(index: byte, serial: seq<uint16>)
    requires |serial| <= MAX_STRING_CHARS
    requires index == STRID_MANUFACTURER || index == STRID_PRODUCT
    ensures var s := STRING_DESC_ARR[index].value;
      var d := StringDescriptor(index, serial).value;
      |d| - 1 == (if |s| < MAX_STRING_CHARS then |s| else MAX_STRING_CHARS) &&
      forall i :: 0 <= i < |d| - 1 ==> d[i + 1] == s[i]
  {
  }

  /** Every index from 4 on (the Microsoft OS string 0xEE among them) is answered with NULL. */
  lemma UnknownIndexRefused(index: byte, serial: seq<uint16>)
    requires |serial| <= MAX_STRING_CHARS && index >= 4
    ensures StringDescriptor(index, serial) == None
  {
  }

  /** The static string buffer `_desc_str`: a header unit and up to 32 character units. */
  class StringDescriptorBuffer {
    const words: array<uint16>

    ghost predicate Inv()
      reads this
    {
      words.Length == MAX_STRING_CHARS + 1
    }

    constructor ()
      ensures Inv() && fresh(words)
      ensures forall i :: 0 <= i < words.Length ==> words[i] == 0
    {
      words := new uint16[MAX_STRING_CHARS + 1](_ => 0);
    }

    /**
     * `tud_descriptor_string_cb`: fills the buffer for `index` and answers with it (`ok`),
     * or answers NULL and leaves it alone. `langid` is ignored; `serial` stands for what
     * `board_usb_get_serial` writes (at most 32 units).
     */
    method StringCallback(index: byte, langid: uint16, serial: seq<uint16>) returns (ok: bool)
      requires Inv() && |serial| <= MAX_STRING_CHARS
      modifies words
      ensures ok == StringDescriptor(index, serial).Some?
      ensures ok ==> var d := StringDescriptor(index, serial).value;
        words[..|d|] == d && words[|d|..] == old(words[|d|..])
      ensures !ok ==> words[..] == old(words[..])
    {
      var count: nat;
      if index == STRID_LANGID {
        var lang := STRING_DESC_ARR[0].value;
        words[1] := U16(lang[0], lang[1]);
        count := 1;
      } else if index == STRID_SERIAL {
        forall i | 0 <= i < |serial| {
          words[1 + i] := serial[i];
        }
        count := |serial|;
      } else {
        if !(index < |STRING_DESC_ARR|) {
          return false;
        }
        var str := STRING_DESC_ARR[index].value;
        count := |str|;
        if count > MAX_STRING_CHARS {
          count := MAX_STRING_CHARS;
        }
        for i := 0 to count
          invariant forall j :: 0 <= j < i ==> words[1 + j] == str[j]
          invariant forall j :: 0 <= j < words.Length && !(1 <= j < 1 + i) ==> words[j] == old(words[j])
        {
          words[1 + i] := str[i];
        }
      }
      words[0] := StringHeader(count);
      ok := true;
    }
  }
}
