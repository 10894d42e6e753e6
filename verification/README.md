# pico-joystick core in Dafny

A model of the firmware logic of a Raspberry Pi Pico USB joystick. It covers two buttons and two analogue axes, read through interrupts and reported to the host as a 3-byte USB HID report every 10 ms. The modelled parts are:

- `circular_buffer.dfy` (`CircularBuffer`): the 10-slot averaging ring with its 32-bit write counter (`buffer_init`, `buffer_write`, `buffer_average`). It also gives a reference description of what a ring should hold: each slot holds the latest value written to it. It proves the warm-up and steady-state averages against that description.
- `joystick.dfy` (`Joystick`): the button edge handlers, the ADC completion handler with the voltage-divider inverse, the snapshot copy and the axis rescaler. It also proves what the state is after any sequence of interrupts.
- `usb_hid.dfy` (`UsbHid`): the report-due flag, `usb_task`, the packed report layout and the button bitmask. It also proves how reports relate to timer ticks over any interleaving whose report-building polls see a reportable joystick state.
- `usb_descriptors.dfy` (`UsbDescriptors`): the device descriptor, the string table, the endpoint address and the HID report descriptor.
  - The report descriptor is kept at item level (section 6.2.2 of HID 1.11) and parsed with Global/Local item semantics into the fields it declares.
  - These fields are checked against `hid_joystick_report_t`, both in size and in the bit-level meaning of each byte.
- `usb_callbacks.dfy` (`UsbCallbacks`): the TinyUSB callbacks. Among them is the string-descriptor encoder into the static 32-word buffer, which is a method with a loop. The model also includes a host-side reading of the String Descriptor (section 9.6.7 of USB 2.0).
- `types.dfy` (`Types`): fixed-width integer subset types and `Option`.

Modelling conventions:

- Every interrupt handler and every operation is one atomic step on an immutable value.
- Hardware register reads become parameters: `gpio_get_irq_event_mask` becomes `mask`, `adc_fifo_get` becomes `fifo`, and `tud_hid_ready` becomes `ready`.
- `tud_hid_report` appends to a log of sent reports.
- `float` is modelled as `real`. The one IEEE value the code can reach, +infinity from a zero ADC sample, is the `Infinite` case of `Resistance`.
- The 32-bit write counter is modelled with its wrap-around.

## Model

| member | source | states |
|---|---|---|
| CircularBuffer.Init | software/buffer.c:16-22 | the counter is 0 and every one of the 10 slots is 0 |
| CircularBuffer.Write | software/buffer.c:24-31 | `v` lands in slot `write_index % 10` and no other slot changes; the counter advances by one, wrapping from 2^32-1 to 0 |
| CircularBuffer.WriteKeepsLatest | software/buffer.c:27-28 | while the counter equals the number of writes mod 10, a write keeps every slot equal to the latest value written to it |
| CircularBuffer.WritesFromInit | software/buffer.c:16-31 | up to 2^32 writes after init: the counter equals the number of writes, and each slot holds the latest value written to it (zero if never written) |
| CircularBuffer.Average | software/buffer.c:33-43 | the average times 10 is the sum of all ten slots, never-written zero slots included; the buffer is not changed |
| CircularBuffer.AverageWithinBounds | software/buffer.c:33-43 | if every slot lies in [lo, hi], the average lies in [lo, hi] |
| CircularBuffer.WarmUpAverage | software/buffer.c:16-43 | after init and k ≤ 10 writes, the slots are those writes followed by zeros, and the average is their sum divided by 10, not by k |
| CircularBuffer.LatestIsRotation | software/buffer.h:35 | slots holding the latest value of n ≥ 10 writes are the last 10 writes rotated by n mod 10 |
| CircularBuffer.LatestMean | software/buffer.c:33-43 | such slots are a permutation of the last 10 writes and have the same sum |
| CircularBuffer.SteadyStateAverage | software/buffer.c:24-43 | after init and 10 ≤ n ≤ 2^32 writes, the slots are a permutation of the last 10 values and the average is their mean |
| CircularBuffer.SlotAdvancesUnlessWrap | software/buffer.c:27-28 | a write moves to the next slot of the ring if and only if the counter is not at 2^32-1 |
| CircularBuffer.WrapKeepsStaleSample | software/buffer.h:35 | after 2^32+1 writes, the buffer still holds a value that is not among the last 10 written |
| CircularBuffer.WriteInRing | software/buffer.c:24-31 | corrected write: same slot update, counter stays below 10 and always advances to the next slot |
| CircularBuffer.WritesInRingFromInit | software/buffer.c:16-31 | corrected write: for any number of writes, each slot holds the latest value written to it |
| CircularBuffer.SteadyStateInRing | software/buffer.c:24-43 | corrected write: for every n ≥ 10, the slots are a permutation of the last 10 values and the average is their mean |
| Joystick.SetLevel | software/joystick.c:54-72 | sets exactly one button's level; the other button and the axes are unchanged |
| Joystick.ButtonIrq | software/joystick.c:54-72 | the press event is acknowledged iff its bit is in the mask, and then the button is true. The release event is acknowledged iff its bit is set and the press bit is clear, and then the button is false. With neither bit nothing changes. The other button and the axes are never touched |
| Joystick.ButtonIrqIdempotent | software/joystick.c:54-72 | handling the same event mask twice equals handling it once (levels are set, not toggled) |
| Joystick.ConvertAdcValueToResistance | software/joystick.c:47-51 | a zero sample gives +infinity (a division by zero); otherwise the result is 10000·(4096/raw − 1) ohms |
| Joystick.ResistancePositiveAndDecreasing | software/joystick.c:47-51 | for samples 1..4095, the resistance is positive and strictly decreasing in the sample |
| Joystick.AdcIrq | software/joystick.c:74-80 | consumes exactly the first two FIFO values: the first sets X, the second sets Y, and the buttons are unchanged |
| Joystick.JoystickRead | software/joystick.c:123-125 | the copy equals the state field for field |
| Joystick.Round | software/joystick.c:130 | C `round`: within one half of the argument, with halfway cases away from zero |
| Joystick.RoundMonotone | software/joystick.c:130 | `round` is monotone |
| Joystick.JoystickRescaleAxis | software/joystick.c:127-131 | when the result fits `int8_t`, it is (value − 55000)·255/110000 rounded to the nearest integer with halfway cases away from zero; non-negative at or above centre and non-positive at or below |
| Joystick.RescaleEndpoints | software/joystick.c:127-131 | rescale(55000) = 0 and rescale(0) = −128 |
| Joystick.RescaleInRangeAndMonotone | software/joystick.c:127-131 | every v in [0, 110000) fits `int8_t`, and the rescale is monotone there |
| Joystick.RescaleOverflowsAtTwiceCentre | software/joystick.c:127-131 | for v ≥ 110000 the rounded value is ≥ 128, so the `int8_t` cast is undefined |
| Joystick.LowSamplesOverflowRescale | software/joystick.c:127-131 | ADC samples 1..341 give at least 110000 ohms, whose rescale does not fit `int8_t` |
| Joystick.SaturatingRescaleAxis | software/joystick.c:127-131 | corrected rescale: defined for every reading, and equal to the firmware's result wherever that cast is defined |
| Joystick.SaturatingRescaleMonotone | software/joystick.c:127-131 | corrected rescale: monotone over all readings, +infinity included |
| Joystick.SaturatingRescaleFullDeflection | software/joystick.c:127-131 | corrected rescale: 127 from 110000 ohms up, where the firmware's cast is undefined |
| Joystick.AxesFromOneCompletion | software/joystick.c:74-80 | after any sequence of interrupts, X and Y both come from the latest ADC completion, or are unchanged if there was none |
| Joystick.ButtonFromLastEdge | software/joystick.c:54-72 | after any sequence of interrupts, each button holds the level set by its own latest press or release edge, or its initial level |
| UsbHid.ReportBytes | software/usb_hid.h:23-28 | the packed report is 3 bytes: x and y in two's complement, then the button byte |
| UsbHid.ReportBytesRoundTrip | software/usb_hid.h:23-28 | decoding the 3 bytes gives back the report |
| UsbHid.PackButtons | software/usb_hid.c:47 | the button byte is below 4; bit 0 is set iff button 1 is pressed, and bit 1 iff button 2 |
| UsbHid.ButtonsRoundTrip | software/usb_hid.c:47 | reading bits 0 and 1 of the packed byte gives back both buttons |
| UsbHid.HidReportTimerCallback | software/usb_hid.c:26-28 | sets the report-due flag and touches nothing else |
| UsbHid.UsbTask | software/usb_hid.c:37-52 | with the flag clear, nothing changes. With the flag set, it is cleared and the snapshot equals the live state. If not ready, nothing is sent. If ready, exactly one report is appended, with id 0 and length 3, whose x and y are the rescaled snapshot axes and whose button byte is the packed snapshot buttons, bits 2–7 zero |
| UsbHid.TicksCoalesce | software/usb_hid.c:26-39 | any n ≥ 1 timer ticks before a task call act like a single tick, so they produce at most one report |
| UsbHid.ReportsBoundedByTicks | software/usb_hid.c:26-52 | over any interleaving of ticks and task calls in which every poll that builds a report sees a reportable state, reports sent plus the pending flag never exceed ticks plus the starting count; earlier reports stay unchanged |
| UsbHid.ReportsFromStartBoundedByTicks | software/usb_hid.c:18-52 | from power-up, on any trace whose report-building polls see a reportable state, the number of reports sent never exceeds the number of timer ticks |
| UsbHid.UnreportablePollBeforeTick | software/usb_hid.c:37-52 | a poll before the first tick builds no report, so even a stick whose axes read +infinity leaves the trace defined and sends nothing |
| UsbDescriptors.Ascii | software/usb_descriptors.h:138-140 | the bytes of a string literal, one per character |
| UsbDescriptors.DeviceStringIndicesInTable | software/usb_descriptors.h:135-141 | iManufacturer, iProduct and iSerialNumber are all non-zero indices inside the 4-entry string table, and entry 0 reads as LANGID 0x0809 |
| UsbDescriptors.LangIdWord | software/usb_callbacks.c:77 | the two language-ID bytes form the word with the first byte low and the second byte high |
| UsbDescriptors.EndpointInAddressLayout | software/usb_descriptors.h:94-99 | `ENDPOINT_IN_ADDRESS` is 0x81: endpoint number 1 in bits 0..3, reserved bits zero, direction IN in bit 7 |
| UsbDescriptors.JoystickDescriptorFields | software/usb_descriptors.h:53-80 | the report descriptor declares exactly three Input fields, in order: X/Y as 2×8 bits over −128..127, buttons 1..2 as 2×1 bit over 0..1, and 6 constant padding bits |
| UsbDescriptors.ReportDescriptorMatchesReportSize | software/usb_descriptors.h:52-80 | the declared fields total 24 bits, the size of `hid_joystick_report_t` |
| UsbDescriptors.SignedByteRoundTrip | software/usb_descriptors.h:62-63 | the report byte 0x80 reads as −128, and every two's-complement byte reads back as its `int8_t` |
| UsbDescriptors.AxesValues | software/usb_descriptors.h:58-66 | the first 16 report bits, read through the X/Y field, give x and y |
| UsbDescriptors.ButtonValues | software/usb_descriptors.h:67-75 | the next 2 bits, read through the button field, give the two button levels |
| UsbDescriptors.ReportLayoutMatchesDescriptor | software/usb_descriptors.h:52-80 | a host parsing any packed report through the descriptor reads back exactly x, y, button 1 and button 2 |
| UsbCallbacks.TudHidDescriptorReportCb | software/usb_callbacks.c:31-33 | the returned descriptor declares exactly the X/Y, button and padding fields of the report, in order, and they fill exactly one 3-byte report |
| UsbCallbacks.TudHidGetReportCb | software/usb_callbacks.c:38-40 | always returns length 0, so the request is stalled |
| UsbCallbacks.TudDescriptorDeviceCb | software/usb_callbacks.c:52-54 | the device descriptor, whose string indices all name string entries of the table |
| UsbCallbacks.TudDescriptorConfigurationCb | software/usb_callbacks.c:59-61 | for every index: one interface, IN endpoint 1, polled every 10 ms |
| UsbCallbacks.StrLen | software/usb_callbacks.c:80 | `strlen`: the length of the NUL-free prefix, stopping at the first NUL |
| UsbCallbacks.EncodedLength | software/usb_callbacks.c:80-83 | characters encoded: at most 31 and at most `strlen`; `strlen` is narrowed to 8 bits first, so a length whose value mod 256 is at most 31 is encoded as that value (a 260-character entry as 4), and one whose value mod 256 is 31 or more is cut to 31 |
| UsbCallbacks.Widen | software/usb_callbacks.c:87 | each character becomes the 16-bit code unit of the same value |
| UsbCallbacks.HeaderWord | software/usb_callbacks.c:94 | the header word has bLength in its low byte and the string descriptor type 3 in its high byte |
| UsbCallbacks.EncodeAscii | software/usb_callbacks.c:79-90 | character i goes to word 1+i for i < min(strlen mod 256, 31). bLength is 2 plus twice that count. The header word and every word past the string are left as they were |
| UsbCallbacks.TudDescriptorStringCb | software/usb_callbacks.c:66-97 | returns NULL iff the index is past the table, and then the buffer is untouched. Otherwise the header has type 3 and an even bLength in 2..64. Index 0 puts the language ID in word 1 with bLength 2, so a host reads no language. Other indices put bLength 2+2n and the widened first n characters, which a host reads back exactly |
| UsbCallbacks.TudDescriptorStringCbWithLangIdLength | software/usb_callbacks.c:66-97 | corrected callback: index 0 has bLength 4, so a host reads the one language ID; other indices are encoded as before |
| UsbCallbacks.LangIdDescriptors | software/usb_callbacks.c:72-94 | for the firmware's table, the language request reads as an empty list as written, and as [0x0809] once corrected |
| UsbCallbacks.DeviceStringsFound | software/usb_callbacks.c:66-70 | the manufacturer, product and serial string requests never return NULL |

## Left out

- `joystick_init` and `usb_init`: GPIO, ADC, IRQ and repeating-timer configuration through Pico SDK calls whose effects are not visible here. The ADC FIFO contents and GPIO event masks are inputs instead. The FIFO threshold of two is the precondition `|fifo| >= 2` of `AdcIrq`.
- `main.c`: the endless main loop and its debug printing are I/O. Interleavings of ticks and task calls are modelled by `UsbHid.RunActions` instead.
- Button event mask: `button_1_irq` and `button_2_irq` read `gpio_get_irq_event_mask` twice (software/joystick.c:55 and :58). As an atomic step, the model reads one mask for both tests.
- Interrupt masking (`save_and_disable_interrupts` / `restore_interrupts`): every operation is atomic in the model. Torn reads of the joystick state by the unprotected `memcpy` are not modelled, and no freedom from them is claimed.
- Floating point: the model uses exact reals. It does not model IEEE rounding, the `3.3f` literal, or the float/double mix in the rescaler.
- Joystick.JoystickRescaleAxis: requires the rounded value to fit `int8_t`, because C leaves the out-of-range conversion undefined. For the same reason, `UsbTask` requires the snapshot to be reportable when a report is built, and the trace lemmas require it only at the polls that build one.
- The bool timer callbacks fall off the end without a `return`. Only their flag assignment is modelled.
- TinyUSB internals: the byte encoding of the `HID_*` and `TUD_*` macros (descriptors are modelled at item and argument level), `tud_hid_ready` / `tud_hid_report` (modelled as a ready input and a sent log), and `CFG_TUD_*` sizes.
- `tud_hid_set_report_cb`: it has an empty body and nothing to state.
- The language ID argument of `tud_descriptor_string_cb` is ignored by the firmware, and so by the model.
- `pins.h`: plain pin numbers that only the setup code uses.
- The Pico SDK values `GPIO_IRQ_EDGE_FALL` = 0x4 and `GPIO_IRQ_EDGE_RISE` = 0x8 come from the SDK headers, which are not part of this model.

## Findings

| source | as written | input that shows it | evidently intended | confidence | as-written member | corrected member |
|---|---|---|---|---|---|---|
| software/buffer.c:27-28 | the slot is `write_index % 10` with a 32-bit counter; 2^32 is not a multiple of 10, so at the wrap the cursor jumps from slot 5 to slot 0 | 2^32+1 writes from init, with one non-zero sample at write 2^32−10; afterwards that sample is still in the buffer although it is not among the last 10 writes | each write overwrites the oldest slot (software/buffer.h:35) | not executed | CircularBuffer.WrapKeepsStaleSample | CircularBuffer.SteadyStateInRing |
| software/joystick.c:127-131 | `(int8_t)round(axis)` with no bound on the resistance | ADC sample 341 gives ≈ 110117 Ω, which rounds to 128; a zero sample gives +infinity; both casts are undefined | full deflection reports the end of the axis range, -128 to 127 (software/usb_hid.h:25) | not executed | Joystick.LowSamplesOverflowRescale | Joystick.SaturatingRescaleMonotone |
| software/usb_callbacks.c:72-94 | for index 0, the language ID is copied into word 1 but bLength stays 2 | `tud_descriptor_string_cb(0, _)` returns a descriptor whose bLength 2 lists no language ID | bLength 4 for one LANGID (section 9.6.7 of USB 2.0) | not executed | UsbCallbacks.TudDescriptorStringCb | UsbCallbacks.TudDescriptorStringCbWithLangIdLength |
