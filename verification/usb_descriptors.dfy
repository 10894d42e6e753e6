/** The USB descriptor tables: the device descriptor (section 9.6.1 of the
    USB 2.0 specification), the configuration arguments, the string table, and
    the HID report descriptor (section 6.2.2 of HID 1.11).

    The report descriptor is kept at item level (usage page, usages, logical
    range, report size and count, Input), not as the bytes the TinyUSB macros
    produce. A small item parser turns it into the report fields it declares,
    and the lemmas check those fields against `hid_joystick_report_t`.
 */
module UsbDescriptors {
  import opened Types
  import UsbHid

  // ---------------------------------------------------------------------------
  // Device descriptor and string table
  // ---------------------------------------------------------------------------

  const USB_VID: U16 := 0x7EED
  const USB_PID: U16 := 0x0001

  /** The fields of `tusb_desc_device_t` this model keeps; the length, type
      and control endpoint packet size are left out. */
  datatype DeviceDescriptor = DeviceDescriptor(
    bcdUSB: U16,
    bDeviceClass: U8,
    bDeviceSubClass: U8,
    bDeviceProtocol: U8,
    idVendor: U16,
    idProduct: U16,
    bcdDevice: U16,
    iManufacturer: U8,
    iProduct: U8,
    iSerialNumber: U8,
    bNumConfigurations: U8)

  const DESC_DEVICE: DeviceDescriptor :=
    DeviceDescriptor(0x0200, 0x00, 0x00, 0x00, USB_VID, USB_PID, 0x0100, 0x01, 0x02, 0x03, 0x01)

  /** The bytes of an ASCII string literal, without its terminating NUL. */
  function Ascii(s: string): (bytes: seq<U8>)
    requires forall i :: 0 <= i < |s| ==> 0 < s[i] as int < 128
    ensures |bytes| == |s|
    ensures forall i :: 0 <= i < |s| ==> bytes[i] == s[i] as int
  {
    seq(|s|, i requires 0 <= i < |s| => s[i] as int)
  }

  /** Language ID for English (United Kingdom). */
  const LANGID_EN_GB: U16 := 0x0809

  /** `string_descriptors`: entry 0 holds the two bytes of the language ID,
      low byte first; entries 1 to 3 are NUL-terminated ASCII strings. */
  const STRING_DESCRIPTORS: seq<seq<U8>> :=
    [[0x09, 0x08], Ascii("AReed"), Ascii("PicoJoystick"), Ascii("00001")]

  /** The 16-bit word the two language-ID bytes form when copied into the
      buffer: the first byte is the low byte (the target is little-endian). */
  function LangIdWord(bytes: seq<U8>): (w: U16)
    requires |bytes| >= 2
    ensures w % 256 == bytes[0] && w / 256 == bytes[1]
  {
    (bytes[0] as int) + 256 * (bytes[1] as int)
  }

  /** The string indices a device descriptor refers to. */
  function StringIndices(d: DeviceDescriptor): seq<U8> {
    [d.iManufacturer, d.iProduct, d.iSerialNumber]
  }

  /** Every string index of the device descriptor names a string entry of the
      table: none is 0 (the language ID list) and none is past its end. */
  lemma DeviceStringIndicesInTable()
    ensures forall k :: k in StringIndices(DESC_DEVICE) ==> 0 < k < |STRING_DESCRIPTORS|
    ensures LangIdWord(STRING_DESCRIPTORS[0]) == LANGID_EN_GB
  {
  }

  // ---------------------------------------------------------------------------
  // Configuration descriptor
  // ---------------------------------------------------------------------------

  /** Endpoint address layout: bits 0..3 the number, bit 7 the direction (1 = IN). */
  function EndpointNumber(address: bv8): nat {
    (address & 0x0F) as nat
  }

  predicate IsInEndpoint(address: bv8) {
    address & 0x80 != 0
  }

  /** `ENDPOINT_IN_ADDRESS`, written `01 | 1 << 7`: C's `<<` binds tighter
      than `|`, so this is endpoint 1, direction IN. */
  const ENDPOINT_IN_ADDRESS: bv8 := 0x01 | (1 << 7)

  lemma EndpointInAddressLayout()
    ensures ENDPOINT_IN_ADDRESS == 0x81
    ensures EndpointNumber(ENDPOINT_IN_ADDRESS) == 1
    ensures IsInEndpoint(ENDPOINT_IN_ADDRESS)
    ensures ENDPOINT_IN_ADDRESS & 0x70 == 0
  {
  }

  const INTERFACE_NUM_HID: nat := 0
  const INTERFACE_NUM_TOTAL: nat := 1
  const STRING_DESCRIPTOR_INDEX: nat := 0
  const POWER_CONSUMPTION_MA: nat := 100

  /** The arguments `desc_configuration` passes to `TUD_CONFIG_DESCRIPTOR`
      and `TUD_HID_DESCRIPTOR`. */
  datatype ConfigurationDescriptor = ConfigurationDescriptor(
    configurationValue: nat,
    numInterfaces: nat,
    configurationStringIndex: nat,
    attributes: nat,
    maxPowerMa: nat,
    hidInterfaceNumber: nat,
    hidStringIndex: nat,
    endpointInAddress: bv8,
    pollIntervalMs: nat)

  const DESC_CONFIGURATION: ConfigurationDescriptor :=
    ConfigurationDescriptor(1, INTERFACE_NUM_TOTAL, STRING_DESCRIPTOR_INDEX, 0, POWER_CONSUMPTION_MA,
                            INTERFACE_NUM_HID, STRING_DESCRIPTOR_INDEX, ENDPOINT_IN_ADDRESS,
                            UsbHid.USB_HID_POLL_INTERVAL_MS)

  // ---------------------------------------------------------------------------
  // HID report descriptor items
  // ---------------------------------------------------------------------------

  const HID_USAGE_PAGE_DESKTOP: nat := 0x01
  const HID_USAGE_PAGE_BUTTON: nat := 0x09
  const HID_USAGE_DESKTOP_JOYSTICK: nat := 0x04
  const HID_USAGE_DESKTOP_X: nat := 0x30
  const HID_USAGE_DESKTOP_Y: nat := 0x31
  const HID_COLLECTION_APPLICATION: nat := 0x01

  /** Input item flags: bit 0 Data/Constant, bit 1 Array/Variable,
      bit 2 Absolute/Relative. */
  const HID_DATA: bv8 := 0x00
  const HID_CONSTANT: bv8 := 0x01
  const HID_VARIABLE: bv8 := 0x02
  const HID_ABSOLUTE: bv8 := 0x00

  /** A short item of a report descriptor. Logical Minimum and Maximum carry
      one data byte, read in two's complement. */
  datatype Item =
    // Global items
    | UsagePage(page: nat)
    | LogicalMinimum(data: U8)
    | LogicalMaximum(data: U8)
    | ReportSize(bits: nat)
    | ReportCount(count: nat)
    // Local items
    | Usage(usage: nat)
    | UsageMinimum(first: nat)
    | UsageMaximum(last: nat)
    // Main items
    | Input(flags: bv8)
    | Collection(kind: nat)
    | EndCollection

  /** `TUD_HID_REPORT_DESC_JOYSTICK()`, with no report id. */
  const JOYSTICK_REPORT_DESCRIPTOR: seq<Item> := [
    UsagePage(HID_USAGE_PAGE_DESKTOP),
    Usage(HID_USAGE_DESKTOP_JOYSTICK),
    Collection(HID_COLLECTION_APPLICATION),
    // X and Y: one signed byte each, -128 (0x80) to 127 (0x7f)
    UsagePage(HID_USAGE_PAGE_DESKTOP),
    Usage(HID_USAGE_DESKTOP_X),
    Usage(HID_USAGE_DESKTOP_Y),
    LogicalMinimum(0x80),
    LogicalMaximum(0x7f),
    ReportCount(2),
    ReportSize(8),
    Input(HID_DATA | HID_VARIABLE | HID_ABSOLUTE),
    // buttons 1 and 2: one bit each
    UsagePage(HID_USAGE_PAGE_BUTTON),
    UsageMinimum(1),
    UsageMaximum(2),
    LogicalMinimum(0),
    LogicalMaximum(1),
    ReportCount(2),
    ReportSize(1),
    Input(HID_DATA | HID_VARIABLE | HID_ABSOLUTE),
    // six constant bits that fill the button byte
    ReportCount(1),
    ReportSize(6),
    Input(HID_CONSTANT),
    EndCollection]

  // ---------------------------------------------------------------------------
  // Parsing items into report fields
  // ---------------------------------------------------------------------------

  /** One Input field: `count` values of `bits` bits each. */
  datatype Field = Field(
    bits: nat,
    count: nat,
    logicalMin: int,
    logicalMax: int,
    constant: bool,
    usagePage: nat,
    usages: seq<nat>)

  /** Global items persist across Main items; local items (the usages) are
      cleared by each Main item. */
  datatype Parser = Parser(
    usagePage: nat,
    logicalMin: int,
    logicalMax: int,
    reportSize: nat,
    reportCount: nat,
    usages: seq<nat>,
    usageMin: nat,
    fields: seq<Field>)

  const PARSER_START: Parser := Parser(0, 0, 0, 0, 0, [], 0, [])

  /** The usages `first`, `first + 1`, ..., `last`. */
  function UsageRange(first: nat, last: nat): (r: seq<nat>)
    ensures |r| == if last >= first then last - first + 1 else 0
    ensures forall i :: 0 <= i < |r| ==> r[i] == first + i
  {
    if last >= first then seq(last - first + 1, i => first + i) else []
  }

  function ParseItem(p: Parser, item: Item): Parser {
    match item
    case UsagePage(page) => p.(usagePage := page)
    case LogicalMinimum(data) => p.(logicalMin := UsbHid.AsInt8(data))
    case LogicalMaximum(data) => p.(logicalMax := UsbHid.AsInt8(data))
    case ReportSize(bits) => p.(reportSize := bits)
    case ReportCount(count) => p.(reportCount := count)
    case Usage(usage) => p.(usages := p.usages + [usage])
    case UsageMinimum(first) => p.(usageMin := first)
    case UsageMaximum(last) => p.(usages := p.usages + UsageRange(p.usageMin, last))
    case Input(flags) =>
      var field := Field(p.reportSize, p.reportCount, p.logicalMin, p.logicalMax,
                         flags & HID_CONSTANT != 0, p.usagePage, p.usages);
      p.(fields := p.fields + [field], usages := [], usageMin := 0)
    case Collection(_) => p.(usages := [], usageMin := 0)
    case EndCollection => p
  }

  /** The parser after the items from position `i` on. */
  function ParseFrom(p: Parser, items: seq<Item>, i: nat): Parser
    decreases |items| - i
  {
    if i >= |items| then p else ParseFrom(ParseItem(p, items[i]), items, i + 1)
  }

  lemma ParseFromStep(p: Parser, items: seq<Item>, i: nat)
    requires i < |items|
    ensures ParseFrom(p, items, i) == ParseFrom(ParseItem(p, items[i]), items, i + 1)
  {
  }

  /** The fields a report descriptor declares, in report order. */
  function InputFields(items: seq<Item>): seq<Field> {
    ParseFrom(PARSER_START, items, 0).fields
  }

  const AXES_FIELD: Field :=
    Field(8, 2, -128, 127, false, HID_USAGE_PAGE_DESKTOP, [HID_USAGE_DESKTOP_X, HID_USAGE_DESKTOP_Y])
  const BUTTONS_FIELD: Field := Field(1, 2, 0, 1, false, HID_USAGE_PAGE_BUTTON, [1, 2])
  const PADDING_FIELD: Field := Field(6, 1, 0, 1, true, HID_USAGE_PAGE_BUTTON, [])

  /** The descriptor declares exactly three Input fields: X and Y as signed
      bytes over -128..127, buttons 1 and 2 as single bits over 0..1, and six
      constant padding bits. Logical Minimum and Maximum, Report Size and
      Report Count carry over from one Input item to the next. */
  lemma JoystickDescriptorFields()
    ensures InputFields(JOYSTICK_REPORT_DESCRIPTOR) == [AXES_FIELD, BUTTONS_FIELD, PADDING_FIELD]
  {
    var d := JOYSTICK_REPORT_DESCRIPTOR;
    var p := PARSER_START;
    ParseFromStep(p, d, 0);  p := ParseItem(p, d[0]);
    ParseFromStep(p, d, 1);  p := ParseItem(p, d[1]);
    ParseFromStep(p, d, 2);  p := ParseItem(p, d[2]);
    assert p == Parser(HID_USAGE_PAGE_DESKTOP, 0, 0, 0, 0, [], 0, []);
    ParseFromStep(p, d, 3);  p := ParseItem(p, d[3]);
    ParseFromStep(p, d, 4);  p := ParseItem(p, d[4]);
    ParseFromStep(p, d, 5);  p := ParseItem(p, d[5]);
    ParseFromStep(p, d, 6);  p := ParseItem(p, d[6]);
    ParseFromStep(p, d, 7);  p := ParseItem(p, d[7]);
    ParseFromStep(p, d, 8);  p := ParseItem(p, d[8]);
    ParseFromStep(p, d, 9);  p := ParseItem(p, d[9]);
    assert p.usages == [HID_USAGE_DESKTOP_X, HID_USAGE_DESKTOP_Y];
    assert p.logicalMin == -128 && p.logicalMax == 127;
    assert (HID_DATA | HID_VARIABLE | HID_ABSOLUTE) & HID_CONSTANT == 0;
    ParseFromStep(p, d, 10); p := ParseItem(p, d[10]);
    assert p == Parser(HID_USAGE_PAGE_DESKTOP, -128, 127, 8, 2, [], 0, [AXES_FIELD]);
    ParseFromStep(p, d, 11); p := ParseItem(p, d[11]);
    ParseFromStep(p, d, 12); p := ParseItem(p, d[12]);
    ParseFromStep(p, d, 13); p := ParseItem(p, d[13]);
    assert p.usages == [1, 2];
    ParseFromStep(p, d, 14); p := ParseItem(p, d[14]);
    ParseFromStep(p, d, 15); p := ParseItem(p, d[15]);
    ParseFromStep(p, d, 16); p := ParseItem(p, d[16]);
    ParseFromStep(p, d, 17); p := ParseItem(p, d[17]);
    ParseFromStep(p, d, 18); p := ParseItem(p, d[18]);
    assert p == Parser(HID_USAGE_PAGE_BUTTON, 0, 1, 1, 2, [], 0, [AXES_FIELD, BUTTONS_FIELD]);
    ParseFromStep(p, d, 19); p := ParseItem(p, d[19]);
    ParseFromStep(p, d, 20); p := ParseItem(p, d[20]);
    ParseFromStep(p, d, 21); p := ParseItem(p, d[21]);
    ParseFromStep(p, d, 22); p := ParseItem(p, d[22]);
    assert p.fields == [AXES_FIELD, BUTTONS_FIELD, PADDING_FIELD];
    assert ParseFrom(p, d, 23) == p;
  }

  // ---------------------------------------------------------------------------
  // Report size and layout
  // ---------------------------------------------------------------------------

  function TotalBits(fields: seq<Field>): nat {
    if |fields| == 0 then 0 else fields[0].bits * fields[0].count + TotalBits(fields[1..])
  }

  /** The descriptor's fields add up to 2·8 + 2·1 + 1·6 = 24 bits, the three
      bytes of `hid_joystick_report_t`. */
  lemma ReportDescriptorMatchesReportSize()
    ensures TotalBits(InputFields(JOYSTICK_REPORT_DESCRIPTOR)) == 8 * UsbHid.REPORT_SIZE
  {
    JoystickDescriptorFields();
    assert TotalBits([PADDING_FIELD]) == 6;
    assert TotalBits([BUTTONS_FIELD, PADDING_FIELD]) == 8;
  }

  /** The low `n` bits of `v`, least significant first. */
  function Bits(v: nat, n: nat): (bs: seq<bool>)
    ensures |bs| == n
  {
    if n == 0 then [] else [v % 2 == 1] + Bits(v / 2, n - 1)
  }

  /** The number whose bits, least significant first, are `bs`. */
  function FromBits(bs: seq<bool>): nat {
    if |bs| == 0 then 0 else BoolToInt(bs[0]) + 2 * FromBits(bs[1..])
  }

  function Pow2(n: nat): (p: nat)
    ensures p >= 1
  {
    if n == 0 then 1 else 2 * Pow2(n - 1)
  }

  lemma {:induction false} FromBitsOfBits(v: nat, n: nat)
    requires v < Pow2(n)
    ensures FromBits(Bits(v, n)) == v
  {
    if n > 0 {
      FromBitsOfBits(v / 2, n - 1);
      assert Bits(v, n)[1..] == Bits(v / 2, n - 1);
    }
  }

  /** The report as the bit stream a host receives: bytes in order, each
      least significant bit first. */
  function ReportBitStream(bytes: seq<U8>): (bs: seq<bool>)
    ensures |bs| == 8 * |bytes|
  {
    if |bytes| == 0 then [] else Bits(bytes[0], 8) + ReportBitStream(bytes[1..])
  }

  /** A field value as the host reads it: two's complement when the logical
      minimum is negative, unsigned otherwise. */
  function FieldValue(f: Field, raw: nat): int {
    if f.logicalMin < 0 && f.bits > 0 && raw >= Pow2(f.bits - 1) then raw - Pow2(f.bits) else raw
  }

  /** The first `k` values of field `f` at the front of `bs`. */
  function FieldValues(f: Field, k: nat, bs: seq<bool>): (vs: seq<int>)
    requires |bs| >= f.bits * k
    ensures |vs| == k
  {
    if k == 0 then []
    else
      assert f.bits * k == f.bits + f.bits * (k - 1);
      [FieldValue(f, FromBits(bs[..f.bits]))] + FieldValues(f, k - 1, bs[f.bits..])
  }

  /** The values of the data (non-constant) fields, in report order. */
  function ReportValues(fields: seq<Field>, bs: seq<bool>): seq<int>
    requires |bs| >= TotalBits(fields)
  {
    if |fields| == 0 then []
    else
      var f := fields[0];
      var n := f.bits * f.count;
      (if f.constant then [] else FieldValues(f, f.count, bs[..n])) + ReportValues(fields[1..], bs[n..])
  }

  lemma SignedByteRoundTrip(x: Int8)
    ensures FieldValue(AXES_FIELD, FromBits(Bits(x % 256, 8))) == x
  {
    assert Pow2(8) == 256;
    assert Pow2(7) == 128;
    FromBitsOfBits(x % 256, 8);
  }

  lemma ReportBitStreamOfThree(b0: U8, b1: U8, b2: U8)
    ensures ReportBitStream([b0, b1, b2]) == Bits(b0, 8) + Bits(b1, 8) + Bits(b2, 8)
  {
    assert [b0, b1, b2][1..] == [b1, b2];
    assert [b1, b2][1..] == [b2];
    assert [b2][1..] == [];
    assert ReportBitStream([b2]) == Bits(b2, 8);
  }

  /** The two signed bytes at the front of the report are x and y. */
  lemma AxesValues(x: Int8, y: Int8, rest: seq<bool>)
    ensures FieldValues(AXES_FIELD, 2, Bits(x % 256, 8) + Bits(y % 256, 8) + rest) == [x, y]
  {
    var bx := Bits(x % 256, 8);
    var yBits := Bits(y % 256, 8);
    var bs := bx + yBits + rest;
    assert bs[..8] == bx;
    assert bs[8..][..8] == yBits;
    SignedByteRoundTrip(x);
    SignedByteRoundTrip(y);
  }

  /** The two one-bit values at the front of the button byte are buttons 1
      and 2. */
  lemma ButtonValues(b1: bool, b2: bool)
    ensures var bb := Bits(UsbHid.PackButtons(b1, b2), 8);
            FieldValues(BUTTONS_FIELD, 2, bb[..2]) == [BoolToInt(b1), BoolToInt(b2)]
  {
    var m := UsbHid.PackButtons(b1, b2);
    var bb := Bits(m, 8);
    var tail := Bits(m / 2, 7);
    assert bb == [m % 2 == 1] + tail;
    assert tail == [(m / 2) % 2 == 1] + Bits(m / 4, 6);
    var buttons := bb[..2];
    assert buttons[..1] == [m % 2 == 1];
    assert buttons[1..][..1] == [(m / 2) % 2 == 1];
    assert FromBits([m % 2 == 1]) == BoolToInt(b1);
    assert FromBits([(m / 2) % 2 == 1]) == BoolToInt(b2);
  }

  /** A host that reads the packed report with the descriptor's fields gets
      back x, y, button 1 and button 2: the descriptor matches the layout of
      `hid_joystick_report_t`, including the button bit order. */
  lemma ReportLayoutMatchesDescriptor(x: Int8, y: Int8, b1: bool, b2: bool)
    ensures TotalBits(InputFields(JOYSTICK_REPORT_DESCRIPTOR)) == 8 * UsbHid.REPORT_SIZE
    ensures var bytes := UsbHid.ReportBytes(UsbHid.Report(x, y, UsbHid.PackButtons(b1, b2)));
            ReportValues(InputFields(JOYSTICK_REPORT_DESCRIPTOR), ReportBitStream(bytes))
              == [x, y, BoolToInt(b1), BoolToInt(b2)]
  {
    ReportDescriptorMatchesReportSize();
    JoystickDescriptorFields();
    JoystickFieldsReadReport(x, y, b1, b2);
  }

  /** The bit-level half of `ReportLayoutMatchesDescriptor`: the three fields
      the descriptor declares read the packed report back. */
  lemma JoystickFieldsReadReport(x: Int8, y: Int8, b1: bool, b2: bool)
    ensures var bytes := UsbHid.ReportBytes(UsbHid.Report(x, y, UsbHid.PackButtons(b1, b2)));
            && |ReportBitStream(bytes)| >= TotalBits([AXES_FIELD, BUTTONS_FIELD, PADDING_FIELD])
            && ReportValues([AXES_FIELD, BUTTONS_FIELD, PADDING_FIELD], ReportBitStream(bytes))
                 == [x, y, BoolToInt(b1), BoolToInt(b2)]
  {
    var m := UsbHid.PackButtons(b1, b2);
    var bytes := UsbHid.ReportBytes(UsbHid.Report(x, y, m));
    var bx := Bits(x % 256, 8);
    var yBits := Bits(y % 256, 8);
    var bb := Bits(m, 8);
    assert bytes == [x % 256, y % 256, m];
    ReportBitStreamOfThree(x % 256, y % 256, m);
    var bs := ReportBitStream(bytes);
    assert bs == bx + yBits + bb;
    var fields := [AXES_FIELD, BUTTONS_FIELD, PADDING_FIELD];
    assert fields[1..] == [BUTTONS_FIELD, PADDING_FIELD];
    assert fields[1..][1..] == [PADDING_FIELD];
    assert TotalBits([PADDING_FIELD]) == 6;
    assert TotalBits([BUTTONS_FIELD, PADDING_FIELD]) == 8;
    AxesValues(x, y, bb);
    assert bs[..16] == bx + yBits;
    assert bs[..16] + bb == bs;
    assert FieldValues(AXES_FIELD, 2, bs[..16]) == [x, y] by {
      AxesValues(x, y, []);
      assert bx + yBits + [] == bs[..16];
    }
    assert bs[16..] == bb;
    ButtonValues(b1, b2);
    var rest := ReportValues([BUTTONS_FIELD, PADDING_FIELD], bb);
    assert rest == FieldValues(BUTTONS_FIELD, 2, bb[..2]) + ReportValues([PADDING_FIELD], bb[2..]);
    assert ReportValues([PADDING_FIELD], bb[2..]) == [] + ReportValues([], bb[2..][6..]);
    assert ReportValues(fields, bs) == FieldValues(AXES_FIELD, 2, bs[..16]) + ReportValues(fields[1..], bs[16..]);
  }
}
