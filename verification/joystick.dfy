/** The interrupt-driven joystick state: two button edge handlers, the ADC
    completion handler that converts both axis samples into resistances, the
    snapshot read, and the rescaling of an axis resistance to a signed byte.

    Every handler is one atomic step on an immutable `JoystickState`. Register
    reads (`gpio_get_irq_event_mask`, `adc_fifo_get`) become parameters and
    acknowledgements become part of the result.
 */
module Joystick {
  import opened Types

  /** Axis resistance at the stick's rest position, in ohms. */
  const JOYSTICK_AXIS_CENTRE_RESISTANCE: real := 55000.0

  /** Pico SDK `GPIO_IRQ_EDGE_FALL`: buttons idle high, so a press is a falling edge. */
  const BUTTON_PRESS_EVENT: bv32 := 0x4
  /** Pico SDK `GPIO_IRQ_EDGE_RISE`: a release is a rising edge. */
  const BUTTON_RELEASE_EVENT: bv32 := 0x8

  /** Values the ADC interrupt drains from the FIFO per completion: X then Y. */
  const NUM_AXES: nat := 2
  /** Reference voltage of the ADC, which also drives the voltage divider. */
  const VOLTAGE_REFERENCE: real := 3.3
  /** Full scale of the 12-bit ADC, `1 << 12`. */
  const ADC_FULL_SCALE: nat := 4096
  const ADC_VOLTS_PER_BIT: real := VOLTAGE_REFERENCE / ADC_FULL_SCALE as real
  /** The fixed resistor of the voltage divider, in ohms. */
  const RESISTOR_FIXED_OHMS: real := 10000.0

  /** A `float` axis reading. A zero ADC sample divides by zero and gives
      +infinity; every other sample gives a finite resistance. */
  datatype Resistance = Ohms(value: real) | Infinite

  /** `joystick_state_t` */
  datatype JoystickState = JoystickState(button1: bool, button2: bool, xAxis: Resistance, yAxis: Resistance)

  /** The state before any interrupt: `{false, false, 0, 0}`. */
  const INITIAL_STATE: JoystickState := JoystickState(false, false, Ohms(0.0), Ohms(0.0))

  datatype ButtonId = Button1 | Button2

  /** Which GPIO event a handler acknowledged, if any. */
  datatype Ack = NoAck | Acked(event: bv32)

  function Level(s: JoystickState, b: ButtonId): bool {
    match b
    case Button1 => s.button1
    case Button2 => s.button2
  }

  function Other(b: ButtonId): ButtonId {
    match b
    case Button1 => Button2
    case Button2 => Button1
  }

  function SetLevel(s: JoystickState, b: ButtonId, level: bool): (t: JoystickState)
    ensures Level(t, b) == level
    ensures Level(t, Other(b)) == Level(s, Other(b))
    ensures t.xAxis == s.xAxis && t.yAxis == s.yAxis
  {
    match b
    case Button1 => s.(button1 := level)
    case Button2 => s.(button2 := level)
  }

  // ---------------------------------------------------------------------------
  // Button edge handlers
  // ---------------------------------------------------------------------------

  /** `button_1_irq` / `button_2_irq` for the pending event `mask` of button
      `b`'s pin: a press wins over a release, and a mask with neither leaves
      everything as it was. */
  function ButtonIrq(s: JoystickState, b: ButtonId, mask: bv32): (r: (JoystickState, Ack))
    ensures r.1 == Acked(BUTTON_PRESS_EVENT) <==> mask & BUTTON_PRESS_EVENT != 0
    ensures r.1 == Acked(BUTTON_RELEASE_EVENT) <==>
              mask & BUTTON_PRESS_EVENT == 0 && mask & BUTTON_RELEASE_EVENT != 0
    ensures r.1 == NoAck <==> mask & (BUTTON_PRESS_EVENT | BUTTON_RELEASE_EVENT) == 0
    ensures r.1 == Acked(BUTTON_PRESS_EVENT) ==> Level(r.0, b)
    ensures r.1 == Acked(BUTTON_RELEASE_EVENT) ==> !Level(r.0, b)
    ensures r.1 == NoAck ==> r.0 == s
    ensures Level(r.0, Other(b)) == Level(s, Other(b))
    ensures r.0.xAxis == s.xAxis && r.0.yAxis == s.yAxis
  {
    if mask & BUTTON_PRESS_EVENT != 0 then
      (SetLevel(s, b, true), Acked(BUTTON_PRESS_EVENT))
    else if mask & BUTTON_RELEASE_EVENT != 0 then
      (SetLevel(s, b, false), Acked(BUTTON_RELEASE_EVENT))
    else
      (s, NoAck)
  }

  /** The handlers set the level rather than toggle it: handling the same
      event mask twice is the same as handling it once. */
  lemma ButtonIrqIdempotent(s: JoystickState, b: ButtonId, mask: bv32)
    ensures ButtonIrq(ButtonIrq(s, b, mask).0, b, mask) == ButtonIrq(s, b, mask)
  {
    var t := ButtonIrq(s, b, mask).0;
    if mask & BUTTON_PRESS_EVENT != 0 {
      assert SetLevel(t, b, true) == t;
    } else if mask & BUTTON_RELEASE_EVENT != 0 {
      assert SetLevel(t, b, false) == t;
    }
  }

  // ---------------------------------------------------------------------------
  // ADC completion handler
  // ---------------------------------------------------------------------------

  /** `convert_adc_value_to_resistance`: invert the voltage divider formed by
      the fixed resistor and the stick. */
  function ConvertAdcValueToResistance(raw: U16): (r: Resistance)
    ensures r.Infinite? <==> raw == 0
    ensures raw != 0 ==>
              r.value == RESISTOR_FIXED_OHMS * (ADC_FULL_SCALE as real / raw as real - 1.0)
  {
    var voltage := raw as real * ADC_VOLTS_PER_BIT;
    if voltage == 0.0 then Infinite
    else Ohms(RESISTOR_FIXED_OHMS * (VOLTAGE_REFERENCE / voltage - 1.0))
  }

  /** A product with a positive factor is positive only if the other factor is. */
  lemma PositiveFactor(x: real, y: real)
    requires y > 0.0 && x * y > 0.0
    ensures x > 0.0
  {
  }

  /** Multiplying by a positive factor keeps a strict order. */
  lemma ScaleUp(f: real, x: real, y: real)
    requires f > 0.0 && x < y
    ensures f * x < f * y
  {
    assert f * (y - x) > 0.0;
  }

  /** Dividing a positive constant by a larger positive number gives a
      smaller positive result. */
  lemma ReciprocalDecreasing(c: real, x: real, y: real)
    requires c > 0.0 && 0.0 < x < y
    ensures c / x > c / y > 0.0
  {
    var fx := c / x;
    var fy := c / y;
    assert fx * x == c;
    assert fy * y == c;
    PositiveFactor(fx, x);
    PositiveFactor(fy, y);
    ScaleUp(fx, x, y);
    assert (fx - fy) * y == fx * y - fy * y;
    PositiveFactor(fx - fy, y);
  }

  /** Within the 12-bit range a non-zero sample gives a positive resistance,
      and a larger sample always gives a smaller resistance. */
  lemma ResistancePositiveAndDecreasing(a: U16, b: U16)
    requires 1 <= a < b < ADC_FULL_SCALE
    ensures ConvertAdcValueToResistance(a).value > ConvertAdcValueToResistance(b).value > 0.0
  {
    var full := ADC_FULL_SCALE as real;
    ReciprocalDecreasing(full, a as real, b as real);
    ReciprocalDecreasing(full, b as real, full);
    assert full / full == 1.0;
  }

  /** `adc_irq`: pop two values from the ADC FIFO, X first, and replace both
      axes. The FIFO threshold is `NUM_AXES`, so the interrupt only fires once
      both samples of a round are queued. */
  function AdcIrq(s: JoystickState, fifo: seq<U16>): (r: (JoystickState, seq<U16>))
    requires |fifo| >= NUM_AXES
    ensures r.1 == fifo[NUM_AXES..]
    ensures r.0.xAxis == ConvertAdcValueToResistance(fifo[0])
    ensures r.0.yAxis == ConvertAdcValueToResistance(fifo[1])
    ensures r.0.button1 == s.button1 && r.0.button2 == s.button2
  {
    var valX := fifo[0];
    var valY := fifo[1];
    var rest := fifo[2..];
    (s.(xAxis := ConvertAdcValueToResistance(valX), yAxis := ConvertAdcValueToResistance(valY)), rest)
  }

  // ---------------------------------------------------------------------------
  // Snapshot
  // ---------------------------------------------------------------------------

  /** `joystick_read`: a field-for-field copy of the state. The model takes it
      in one step; the firmware's `memcpy` is not interrupt-protected. */
  function JoystickRead(s: JoystickState): (copy: JoystickState)
    ensures copy.button1 == s.button1 && copy.button2 == s.button2
    ensures copy.xAxis == s.xAxis && copy.yAxis == s.yAxis
  {
    JoystickState(s.button1, s.button2, s.xAxis, s.yAxis)
  }

  // ---------------------------------------------------------------------------
  // Axis rescaling
  // ---------------------------------------------------------------------------

  /** C `round`: nearest integer, halfway cases away from zero. */
  function Round(x: real): (n: int)
    ensures x >= 0.0 ==> n as real - 0.5 <= x < n as real + 0.5
    ensures x < 0.0 ==> n as real - 0.5 < x <= n as real + 0.5
  {
    if x >= 0.0 then (x + 0.5).Floor else -((-x + 0.5).Floor)
  }

  /** `round` is monotone. */
  lemma RoundMonotone(x: real, y: real)
    requires x <= y
    ensures Round(x) <= Round(y)
  {
  }

  /** Output units per ohm: the span 0 .. 2·centre maps onto 255 steps. */
  const SCALING: real := 255.0 / (2.0 * JOYSTICK_AXIS_CENTRE_RESISTANCE)

  /** The rounded, not yet narrowed, output of `joystick_rescale_axis`. */
  function RescaledAxis(value: real): int {
    Round((value - JOYSTICK_AXIS_CENTRE_RESISTANCE) * SCALING)
  }

  /** The values whose rounded result fits `int8_t`; for any other value the
      float-to-`int8_t` conversion is undefined in C. */
  predicate Rescalable(value: real) {
    -128 <= RescaledAxis(value) <= 127
  }

  /** `joystick_rescale_axis`: the integer nearest to the offset from the
      centre times `SCALING`, halfway cases away from zero. */
  function JoystickRescaleAxis(value: real): (r: Int8)
    requires Rescalable(value)
    ensures var exact := (value - JOYSTICK_AXIS_CENTRE_RESISTANCE) * SCALING;
            && (exact >= 0.0 ==> r as real - 0.5 <= exact < r as real + 0.5)
            && (exact < 0.0 ==> r as real - 0.5 < exact <= r as real + 0.5)
    ensures value >= JOYSTICK_AXIS_CENTRE_RESISTANCE ==> r >= 0
    ensures value <= JOYSTICK_AXIS_CENTRE_RESISTANCE ==> r <= 0
  {
    RescaledAxis(value)
  }

  /** The centre maps to 0 and zero resistance to -128 (-127.5 rounded away
      from zero). */
  lemma RescaleEndpoints()
    ensures Rescalable(JOYSTICK_AXIS_CENTRE_RESISTANCE)
    ensures JoystickRescaleAxis(JOYSTICK_AXIS_CENTRE_RESISTANCE) == 0
    ensures Rescalable(0.0) && JoystickRescaleAxis(0.0) == -128
  {
    assert (0.0 - JOYSTICK_AXIS_CENTRE_RESISTANCE) * SCALING == -127.5;
  }

  /** Every resistance in [0, 2·centre) rescales into the `int8_t` range, and
      the rescaling is monotone there. */
  lemma RescaleInRangeAndMonotone(v: real, w: real)
    requires 0.0 <= v <= w < 2.0 * JOYSTICK_AXIS_CENTRE_RESISTANCE
    ensures Rescalable(v) && Rescalable(w)
    ensures JoystickRescaleAxis(v) <= JoystickRescaleAxis(w)
  {
    var a := (v - JOYSTICK_AXIS_CENTRE_RESISTANCE) * SCALING;
    var b := (w - JOYSTICK_AXIS_CENTRE_RESISTANCE) * SCALING;
    assert -127.5 <= a < 127.5;
    assert -127.5 <= b < 127.5;
    assert a <= b;
    RoundMonotone(a, b);
  }

  /** From 2·centre up the rounded result is at least 128, outside `int8_t`:
      there the firmware's cast is undefined. */
  lemma RescaleOverflowsAtTwiceCentre(v: real)
    requires v >= 2.0 * JOYSTICK_AXIS_CENTRE_RESISTANCE
    ensures RescaledAxis(v) >= 128
    ensures !Rescalable(v)
  {
    assert (v - JOYSTICK_AXIS_CENTRE_RESISTANCE) * SCALING >= 127.5;
  }

  /** The ADC samples 1 to 341 (and 0, which gives +infinity) all come from a
      stick at or beyond twice the centre resistance, so as written their
      conversion to `int8_t` is undefined: nothing between the ADC handler and
      the report narrows the resistance first. */
  lemma LowSamplesOverflowRescale(raw: U16)
    requires 1 <= raw <= 341
    ensures ConvertAdcValueToResistance(raw).value >= 2.0 * JOYSTICK_AXIS_CENTRE_RESISTANCE
    ensures !Rescalable(ConvertAdcValueToResistance(raw).value)
  {
    var q := ADC_FULL_SCALE as real / raw as real;
    assert q * raw as real == 4096.0;
    assert q >= 12.0;
    RescaleOverflowsAtTwiceCentre(ConvertAdcValueToResistance(raw).value);
  }

  /** Resistances in order, +infinity above every finite one. */
  predicate AtMost(v: Resistance, w: Resistance) {
    w.Infinite? || (v.Ohms? && v.value <= w.value)
  }

  /** `joystick_rescale_axis` saturating at the ends of `int8_t` instead of
      casting out of range: +infinity and anything from twice the centre up
      give 127, anything that would round below -128 gives -128. */
  function SaturatingRescaleAxis(value: Resistance): (r: Int8)
    ensures value.Ohms? && Rescalable(value.value) ==> r == JoystickRescaleAxis(value.value)
  {
    match value
    case Infinite => 127
    case Ohms(v) =>
      var n := RescaledAxis(v);
      if n > 127 then 127 else if n < -128 then -128 else n
  }

  /** The saturating rescale is monotone over all readings, +infinity
      included: a stick moved further never reports a smaller value. */
  lemma SaturatingRescaleMonotone(v: Resistance, w: Resistance)
    requires AtMost(v, w)
    ensures SaturatingRescaleAxis(v) <= SaturatingRescaleAxis(w)
  {
    if w.Ohms? {
      var a := v.value - JOYSTICK_AXIS_CENTRE_RESISTANCE;
      var b := w.value - JOYSTICK_AXIS_CENTRE_RESISTANCE;
      assert SCALING > 0.0;
      assert (b - a) * SCALING >= 0.0;
      assert a * SCALING <= b * SCALING;
      RoundMonotone(a * SCALING, b * SCALING);
    }
  }

  /** From twice the centre resistance up, where the firmware's cast is
      undefined, the saturating rescale reports the top of the range. */
  lemma SaturatingRescaleFullDeflection(v: real)
    requires v >= 2.0 * JOYSTICK_AXIS_CENTRE_RESISTANCE
    ensures SaturatingRescaleAxis(Ohms(v)) == 127
  {
    RescaleOverflowsAtTwiceCentre(v);
  }

  // ---------------------------------------------------------------------------
  // Sequences of interrupts
  // ---------------------------------------------------------------------------

  /** One interrupt: a button edge with its pin's event mask, or an ADC
      completion with the two samples the FIFO holds. */
  datatype Event =
    | ButtonEdge(button: ButtonId, mask: bv32)
    | AdcComplete(rawX: U16, rawY: U16)

  function Step(s: JoystickState, e: Event): JoystickState {
    match e
    case ButtonEdge(b, mask) => ButtonIrq(s, b, mask).0
    case AdcComplete(x, y) => AdcIrq(s, [x, y]).0
  }

  function Run(s: JoystickState, es: seq<Event>): JoystickState {
    if |es| == 0 then s else Step(Run(s, es[..|es| - 1]), es[|es| - 1])
  }

  /** The sample pair of the latest ADC completion in `es`, if any. */
  function LastSamples(es: seq<Event>): Option<(U16, U16)> {
    if |es| == 0 then None
    else if es[|es| - 1].AdcComplete? then Some((es[|es| - 1].rawX, es[|es| - 1].rawY))
    else LastSamples(es[..|es| - 1])
  }

  /** The level set by the latest edge of button `b` in `es` that carried a
      press or release bit, if any. */
  function LastLevel(es: seq<Event>, b: ButtonId): Option<bool> {
    if |es| == 0 then None
    else
      var e := es[|es| - 1];
      if e.ButtonEdge? && e.button == b && e.mask & BUTTON_PRESS_EVENT != 0 then Some(true)
      else if e.ButtonEdge? && e.button == b && e.mask & BUTTON_RELEASE_EVENT != 0 then Some(false)
      else LastLevel(es[..|es| - 1], b)
  }

  /** Both axes always come from one and the same ADC completion, the latest;
      no interleaving of other interrupts can pair an X of one round with a Y
      of another. */
  lemma {:induction false} AxesFromOneCompletion(s: JoystickState, es: seq<Event>)
    ensures var t := Run(s, es);
            match LastSamples(es)
            case None => t.xAxis == s.xAxis && t.yAxis == s.yAxis
            case Some(p) => t.xAxis == ConvertAdcValueToResistance(p.0)
                            && t.yAxis == ConvertAdcValueToResistance(p.1)
  {
    if |es| > 0 {
      AxesFromOneCompletion(s, es[..|es| - 1]);
    }
  }

  /** Each button's level is the one set by its own latest press or release
      edge; edges of the other button and ADC completions do not touch it. */
  lemma {:induction false} ButtonFromLastEdge(s: JoystickState, es: seq<Event>, b: ButtonId)
    ensures Level(Run(s, es), b) == LastLevel(es, b).GetOr(Level(s, b))
  {
    if |es| > 0 {
      ButtonFromLastEdge(s, es[..|es| - 1], b);
      var e := es[|es| - 1];
      if e.ButtonEdge? && e.button != b {
        assert e.button == Other(b);
        assert Other(e.button) == b;
      }
    }
  }
}
