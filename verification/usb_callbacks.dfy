/** The descriptor and HID callbacks TinyUSB invokes. The only one with logic
    is the string descriptor callback. It encodes an ASCII entry of the string
    table as a String Descriptor (section 9.6.7 of the USB 2.0
    specification): a header word holding bLength and the descriptor type,
    then one UTF-16 code unit per character.

    The callback writes into one static buffer of 32 `uint16_t` words that
    lives across calls. The model passes that buffer in and returns it.
 */
module UsbCallbacks {
  import opened Types
  import UsbHid
  import opened UsbDescriptors

  /** Characters that fit after the header word. */
  const USB_STRING_DESCRIPTOR_MAX_LEN: nat := 31
  /** Size of the static buffer, in 16-bit words. */
  const DESCRIPTOR_WORDS: nat := USB_STRING_DESCRIPTOR_MAX_LEN + 1
  /** TinyUSB `TUSB_DESC_STRING`. */
  const TUSB_DESC_STRING: nat := 0x03

  // ---------------------------------------------------------------------------
  // HID and table callbacks
  // ---------------------------------------------------------------------------

  /** `tud_hid_descriptor_report_cb`: the joystick report descriptor, which
      declares the X/Y, button and padding fields of `hid_joystick_report_t`
      in order and fills exactly one report. */
  function TudHidDescriptorReportCb(instance: U8): (items: seq<Item>)
    ensures InputFields(items) == [AXES_FIELD, BUTTONS_FIELD, PADDING_FIELD]
    ensures TotalBits(InputFields(items)) == 8 * UsbHid.REPORT_SIZE
  {
    JoystickDescriptorFields();
    ReportDescriptorMatchesReportSize();
    JOYSTICK_REPORT_DESCRIPTOR
  }

  /** `tud_hid_get_report_cb`: GET_REPORT is not supported; the zero length
      makes the stack stall the request. */
  function TudHidGetReportCb(instance: U8, reportId: U8, reportType: U8, reqlen: U16): (length: U16)
    ensures length == 0
  {
    0
  }

  /** `tud_descriptor_device_cb`: the device descriptor, whose string indices
      all name entries of the string table. */
  function TudDescriptorDeviceCb(): (d: DeviceDescriptor)
    ensures forall k :: k in StringIndices(d) ==> 0 < k < |STRING_DESCRIPTORS|
    ensures d.bcdUSB == 0x0200 && d.bNumConfigurations == 1
  {
    DESC_DEVICE
  }

  /** `tud_descriptor_configuration_cb`: one configuration for every index,
      with one HID interface reporting on IN endpoint 1 every poll interval. */
  function TudDescriptorConfigurationCb(index: U8): (c: ConfigurationDescriptor)
    ensures c.numInterfaces == 1
    ensures EndpointNumber(c.endpointInAddress) == 1 && IsInEndpoint(c.endpointInAddress)
    ensures c.pollIntervalMs == UsbHid.USB_HID_POLL_INTERVAL_MS
  {
    EndpointInAddressLayout();
    DESC_CONFIGURATION
  }

  // ---------------------------------------------------------------------------
  // String descriptor encoding
  // ---------------------------------------------------------------------------

  /** C `strlen`: the characters before the first NUL (the string literal's
      terminator stands right after the stored characters). */
  function StrLen(s: seq<U8>): (n: nat)
    ensures n <= |s|
    ensures forall i :: 0 <= i < n ==> s[i] != 0
    ensures n < |s| ==> s[n] == 0
  {
    if |s| == 0 || s[0] == 0 then 0 else 1 + StrLen(s[1..])
  }

  /** The number of characters encoded: `strlen` narrowed to `uint8_t`,
      then clamped to the buffer. */
  function EncodedLength(s: seq<U8>): (n: nat)
    ensures n <= USB_STRING_DESCRIPTOR_MAX_LEN
    ensures n <= StrLen(s)
    ensures StrLen(s) % UINT8_LIMIT <= USB_STRING_DESCRIPTOR_MAX_LEN ==> n == StrLen(s) % UINT8_LIMIT
    ensures StrLen(s) % UINT8_LIMIT >= USB_STRING_DESCRIPTOR_MAX_LEN ==> n == USB_STRING_DESCRIPTOR_MAX_LEN
  {
    var narrowed := StrLen(s) % UINT8_LIMIT;
    if narrowed > USB_STRING_DESCRIPTOR_MAX_LEN then USB_STRING_DESCRIPTOR_MAX_LEN else narrowed
  }

  /** `(TUSB_DESC_STRING << 8) | bLength`: with bLength below 256 the `|` is
      an addition. */
  function HeaderWord(bLength: U8): (w: U16)
    ensures w % UINT8_LIMIT == bLength
    ensures w / UINT8_LIMIT == TUSB_DESC_STRING
  {
    TUSB_DESC_STRING * 256 + bLength
  }

  /** Each `char` is zero-extended to a 16-bit code unit (`char` is unsigned
      on the target). */
  function Widen(s: seq<U8>): (units: seq<U16>)
    ensures |units| == |s|
    ensures forall i :: 0 <= i < |s| ==> units[i] == s[i]
  {
    seq(|s|, i requires 0 <= i < |s| => s[i] as U16)
  }

  /** A String Descriptor as a host reads it. */
  datatype StringDescriptor = StringDescriptor(descriptorType: nat, units: seq<U16>)

  /** How a host reads the buffer: bLength in the low byte of word 0 counts
      the bytes including the header, the type is the high byte, and the
      (bLength - 2) / 2 words after the header are the code units. A bLength
      that is odd, shorter than the header or longer than the buffer does not
      read as a descriptor. */
  function ParseStringDescriptor(buffer: seq<U16>): Option<StringDescriptor>
    requires |buffer| == DESCRIPTOR_WORDS
  {
    var bLength := buffer[0] % 256;
    if bLength < 2 || bLength % 2 == 1 || bLength > 2 * DESCRIPTOR_WORDS then None
    else Some(StringDescriptor(buffer[0] / 256, buffer[1..bLength / 2]))
  }

  /** The ASCII-to-UTF-16 loop: character `i` goes to word `1 + i`, and
      bLength grows by two per character from the header's two bytes. */
  method EncodeAscii(buffer: seq<U16>, s: seq<U8>) returns (out: seq<U16>, bLength: U8)
    requires |buffer| == DESCRIPTOR_WORDS
    ensures |out| == DESCRIPTOR_WORDS
    ensures bLength == 2 + 2 * EncodedLength(s)
    ensures forall i :: 0 <= i < EncodedLength(s) ==> out[1 + i] == s[i]
    ensures out[0] == buffer[0]
    ensures out[1 + EncodedLength(s)..] == buffer[1 + EncodedLength(s)..]
  {
    var stringLength: U8 := StrLen(s) % UINT8_LIMIT;
    if stringLength > USB_STRING_DESCRIPTOR_MAX_LEN {
      stringLength := USB_STRING_DESCRIPTOR_MAX_LEN;
    }
    out := buffer;
    bLength := 2;
    var i: U8 := 0;
    while i < stringLength
      invariant i <= stringLength
      invariant |out| == DESCRIPTOR_WORDS
      invariant bLength == 2 + 2 * i
      invariant forall k :: 0 <= k < i ==> out[1 + k] == s[k]
      invariant out[0] == buffer[0]
      invariant out[1 + i..] == buffer[1 + i..]
    {
      out := out[1 + i := s[i]];
      bLength := bLength + 2;
      i := i + 1;
    }
  }

  /** Fills the header word and tells the host-side reading of the result. */
  lemma HeaderParses(out: seq<U16>, bLength: U8)
    requires |out| == DESCRIPTOR_WORDS
    requires 2 <= bLength <= 2 * DESCRIPTOR_WORDS && bLength % 2 == 0
    requires out[0] == HeaderWord(bLength)
    ensures ParseStringDescriptor(out) == Some(StringDescriptor(TUSB_DESC_STRING, out[1..bLength / 2]))
  {
  }

  /** `tud_descriptor_string_cb` over the string table `table` and the static
      buffer `buffer`. Returns whether a descriptor was produced (false is
      NULL) and the buffer afterwards. The requested language ID is ignored.

      Index 0 copies the two language-ID bytes into word 1, low byte first,
      but leaves bLength at 2, so a host reads an empty language list. */
  method TudDescriptorStringCb(table: seq<seq<U8>>, buffer: seq<U16>, index: U8)
    returns (found: bool, out: seq<U16>)
    requires |buffer| == DESCRIPTOR_WORDS
    requires index == 0 < |table| ==> |table[0]| >= 2
    ensures |out| == DESCRIPTOR_WORDS
    ensures found <==> index < |table|
    ensures !found ==> out == buffer
    ensures found ==> out[0] / 256 == TUSB_DESC_STRING
    ensures found ==> out[0] % 256 % 2 == 0 && 2 <= out[0] % 256 <= 2 * DESCRIPTOR_WORDS
    ensures found && index == 0 ==>
              && out[1] == LangIdWord(table[0])
              && out[0] == HeaderWord(2)
              && out[2..] == buffer[2..]
              && ParseStringDescriptor(out) == Some(StringDescriptor(TUSB_DESC_STRING, []))
    ensures found && index > 0 ==>
              var n := EncodedLength(table[index]);
              && out[0] == HeaderWord(2 + 2 * n)
              && out[1 + n..] == buffer[1 + n..]
              && ParseStringDescriptor(out) == Some(StringDescriptor(TUSB_DESC_STRING, Widen(table[index][..n])))
  {
    if !(index < |table|) {
      return false, buffer;
    }
    found := true;
    var descriptor := table[index];
    if index == 0 {
      out := buffer[1 := LangIdWord(descriptor)];
      out := out[0 := HeaderWord(2)];
      HeaderParses(out, 2);
      assert out[1..1] == [];
      assert out[2..] == buffer[2..];
    } else {
      var descriptorLengthBytes: U8;
      out, descriptorLengthBytes := EncodeAscii(buffer, descriptor);
      out := out[0 := HeaderWord(descriptorLengthBytes)];
      HeaderParses(out, descriptorLengthBytes);
      var n := EncodedLength(descriptor);
      assert out[1..1 + n] == Widen(descriptor[..n]);
    }
  }

  /** `tud_descriptor_string_cb` as section 9.6.7 of USB 2.0 requires for
      index 0: bLength counts the language ID, so it is 4. Every other index
      is encoded as before. */
  method TudDescriptorStringCbWithLangIdLength(table: seq<seq<U8>>, buffer: seq<U16>, index: U8)
    returns (found: bool, out: seq<U16>)
    requires |buffer| == DESCRIPTOR_WORDS
    requires index == 0 < |table| ==> |table[0]| >= 2
    ensures |out| == DESCRIPTOR_WORDS
    ensures found <==> index < |table|
    ensures !found ==> out == buffer
    ensures found && index == 0 ==>
              ParseStringDescriptor(out)
                == Some(StringDescriptor(TUSB_DESC_STRING, [LangIdWord(table[0])]))
    ensures found && index > 0 ==>
              var n := EncodedLength(table[index]);
              && out[1 + n..] == buffer[1 + n..]
              && ParseStringDescriptor(out) == Some(StringDescriptor(TUSB_DESC_STRING, Widen(table[index][..n])))
  {
    if !(index < |table|) {
      return false, buffer;
    }
    found := true;
    var descriptor := table[index];
    if index == 0 {
      out := buffer[1 := LangIdWord(descriptor)];
      out := out[0 := HeaderWord(4)];
      HeaderParses(out, 4);
      assert out[1..2] == [LangIdWord(descriptor)];
    } else {
      var descriptorLengthBytes: U8;
      out, descriptorLengthBytes := EncodeAscii(buffer, descriptor);
      out := out[0 := HeaderWord(descriptorLengthBytes)];
      HeaderParses(out, descriptorLengthBytes);
      var n := EncodedLength(descriptor);
      assert out[1..1 + n] == Widen(descriptor[..n]);
    }
  }

  /** For the firmware's own table: the language-ID request is answered with
      a descriptor a host reads as listing no language, while the fixed
      version lists English (United Kingdom). */
  method LangIdDescriptors(buffer: seq<U16>) returns (asWritten: Option<StringDescriptor>, fixed: Option<StringDescriptor>)
    requires |buffer| == DESCRIPTOR_WORDS
    ensures asWritten == Some(StringDescriptor(TUSB_DESC_STRING, []))
    ensures fixed == Some(StringDescriptor(TUSB_DESC_STRING, [LANGID_EN_GB]))
  {
    var found, out := TudDescriptorStringCb(STRING_DESCRIPTORS, buffer, 0);
    asWritten := ParseStringDescriptor(out);
    var found', out' := TudDescriptorStringCbWithLangIdLength(STRING_DESCRIPTORS, buffer, 0);
    fixed := ParseStringDescriptor(out');
  }

  /** The strings the device descriptor names are all found, whatever the
      buffer held before. */
  method DeviceStringsFound(buffer: seq<U16>) returns (manufacturer: bool, product: bool, serial: bool)
    requires |buffer| == DESCRIPTOR_WORDS
    ensures manufacturer && product && serial
  {
    var d := TudDescriptorDeviceCb();
    var out: seq<U16>;
    manufacturer, out := TudDescriptorStringCb(STRING_DESCRIPTORS, buffer, d.iManufacturer);
    product, out := TudDescriptorStringCb(STRING_DESCRIPTORS, out, d.iProduct);
    serial, out := TudDescriptorStringCb(STRING_DESCRIPTORS, out, d.iSerialNumber);
  }
}
