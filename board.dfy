/**
 * The board as main.c sees it: the five active-low joystick pins on port 1,
 * the 12-bit result field of the ADC global data register, and the three
 * actuator output lines (heater P1.29, sprinkler P1.31, light P2.2).
 */
module Board {

  /** An unsigned 32-bit number, such as the kernel tick counter. */
  newtype uint32 = x: int | 0 <= x < 0x1_0000_0000

  /** One byte as the UART receive register delivers it. */
  newtype byte = b: int | 0 <= b < 256

  // Port 1 pins of the joystick (a pin reads 0 while its direction is pressed).
  const JOYSTICK_UP_PIN: bv32 := 1 << 23
  const JOYSTICK_DOWN_PIN: bv32 := 1 << 25
  const JOYSTICK_CENTER_PIN: bv32 := 1 << 20
  const JOYSTICK_LEFT_PIN: bv32 := 1 << 24
  const JOYSTICK_RIGHT_PIN: bv32 := 1 << 26

  // Bits of the joystick mask (a bit is 1 while its direction is pressed).
  const JOY_UP: bv32 := 0x01
  const JOY_DOWN: bv32 := 0x02
  const JOY_CENTER: bv32 := 0x04
  const JOY_LEFT: bv32 := 0x08
  const JOY_RIGHT: bv32 := 0x10
  const JOY_ALL: bv32 := 0x1F

  /** An active-low input pin of the port value `fiopin` is pressed when it reads 0. */
  predicate Pressed(fiopin: bv32, pin: bv32) {
    fiopin & pin == 0
  }

  /** readJoystick: the five active-low pins become a 5-bit active-high mask. */
  function ReadJoystick(fiopin: bv32): (state: bv32)
    ensures state & !JOY_ALL == 0
    ensures (state & JOY_UP != 0) == Pressed(fiopin, JOYSTICK_UP_PIN)
    ensures (state & JOY_DOWN != 0) == Pressed(fiopin, JOYSTICK_DOWN_PIN)
    ensures (state & JOY_CENTER != 0) == Pressed(fiopin, JOYSTICK_CENTER_PIN)
    ensures (state & JOY_LEFT != 0) == Pressed(fiopin, JOYSTICK_LEFT_PIN)
    ensures (state & JOY_RIGHT != 0) == Pressed(fiopin, JOYSTICK_RIGHT_PIN)
  {
    var up := if Pressed(fiopin, JOYSTICK_UP_PIN) then JOY_UP else 0;
    var down := if Pressed(fiopin, JOYSTICK_DOWN_PIN) then JOY_DOWN else 0;
    var center := if Pressed(fiopin, JOYSTICK_CENTER_PIN) then JOY_CENTER else 0;
    var left := if Pressed(fiopin, JOYSTICK_LEFT_PIN) then JOY_LEFT else 0;
    var right := if Pressed(fiopin, JOYSTICK_RIGHT_PIN) then JOY_RIGHT else 0;
    up | down | center | left | right
  }

  /** With every joystick pin pulled up (nothing pressed) the mask is empty. */
  lemma ReleasedJoystickReadsZero(fiopin: bv32)
    requires fiopin & JOYSTICK_UP_PIN != 0 && fiopin & JOYSTICK_DOWN_PIN != 0
    requires fiopin & JOYSTICK_CENTER_PIN != 0 && fiopin & JOYSTICK_LEFT_PIN != 0
    requires fiopin & JOYSTICK_RIGHT_PIN != 0
    ensures ReadJoystick(fiopin) == 0
  {
  }

  /** The largest 12-bit ADC reading. */
  const ADC_MAX := 4095

  /** Read_ADC's result extraction: bits 4..15 of the ADC global data register. */
  function AdcResult(adgdr: bv32): (r: int)
    ensures 0 <= r <= ADC_MAX
  {
    ((adgdr >> 4) & 0xFFF) as int
  }

  /** Only the RESULT field (bits 4..15) of the register decides the reading. */
  lemma AdcResultIgnoresOtherBits(x: bv32, y: bv32)
    requires x & 0xFFF0 == y & 0xFFF0
    ensures AdcResult(x) == AdcResult(y)
  {
    assert (x >> 4) & 0xFFF == (y >> 4) & 0xFFF;
  }

  /** A 12-bit value placed in the RESULT field is read back unchanged. */
  lemma AdcResultOfField(v: bv32, rest: bv32)
    requires v <= 0xFFF
    requires rest & 0xFFF0 == 0
    ensures AdcResult((v << 4) | rest) == v as int
  {
    assert ((((v << 4) | rest) >> 4) & 0xFFF) == v;
  }

  /** The three actuators, in the order of toggle_gpio's indices 0, 1, 2. */
  datatype Actuator = Heater | Sprinkler | Light

  /** The index toggle_gpio and the actuator screen use for an actuator. */
  function ActuatorIndex(a: Actuator): (i: int)
    ensures 0 <= i <= 2
  {
    match a
    case Heater => 0
    case Sprinkler => 1
    case Light => 2
  }

  /** The actuator with index `i`. */
  function ActuatorAt(i: int): (a: Actuator)
    requires 0 <= i <= 2
    ensures ActuatorIndex(a) == i
  {
    if i == 0 then Heater else if i == 1 then Sprinkler else Light
  }

  /** The levels of the three output lines (true = driven high = on). */
  datatype Outputs = Outputs(heater: bool, sprinkler: bool, light: bool) {

    function Get(a: Actuator): bool {
      match a
      case Heater => heater
      case Sprinkler => sprinkler
      case Light => light
    }

    /** FIOSET (on) or FIOCLR (off) of one output line. */
    function Set(a: Actuator, on: bool): (r: Outputs)
      ensures r.Get(a) == on
      ensures forall b :: b != a ==> r.Get(b) == Get(b)
    {
      match a
      case Heater => this.(heater := on)
      case Sprinkler => this.(sprinkler := on)
      case Light => this.(light := on)
    }
  }

  /** Output levels after reset: every line low. */
  const ALL_OFF := Outputs(false, false, false)

  /** Two output states are equal when they agree on every actuator. */
  lemma OutputsExtensional(o: Outputs, p: Outputs)
    requires forall a :: o.Get(a) == p.Get(a)
    ensures o == p
  {
    assert o.Get(Heater) == p.Get(Heater);
    assert o.Get(Sprinkler) == p.Get(Sprinkler);
    assert o.Get(Light) == p.Get(Light);
  }

  /** toggle_gpio: invert the line of the actuator with index `actuator`; any other index is ignored. */
  function Toggle(o: Outputs, actuator: int): (r: Outputs)
    ensures forall a :: r.Get(a) == if ActuatorIndex(a) == actuator then !o.Get(a) else o.Get(a)
  {
    if 0 <= actuator <= 2 then
      var a := ActuatorAt(actuator);
      o.Set(a, !o.Get(a))
    else
      o
  }

  /** An index outside 0..2 changes nothing. */
  lemma ToggleOutOfRange(o: Outputs, actuator: int)
    requires actuator < 0 || actuator > 2
    ensures Toggle(o, actuator) == o
  {
    OutputsExtensional(Toggle(o, actuator), o);
  }

  /** Toggling the same index twice restores the original outputs. */
  lemma ToggleTwice(o: Outputs, actuator: int)
    ensures Toggle(Toggle(o, actuator), actuator) == o
  {
    OutputsExtensional(Toggle(Toggle(o, actuator), actuator), o);
  }

  /** The GPIO output lines of the three actuators, changed in place. */
  class OutputPort {
    var heater: bool
    var sprinkler: bool
    var light: bool

    /** Lines start low after reset. */
    constructor ()
      ensures State() == ALL_OFF
    {
      heater, sprinkler, light := false, false, false;
    }

    /** The levels the port currently drives (what FIOPIN reads back). */
    function State(): Outputs
      reads this
    {
      Outputs(heater, sprinkler, light)
    }

    /** Write FIOSET (on) or FIOCLR (off) for one actuator's line. */
    method Drive(a: Actuator, on: bool)
      modifies this
      ensures State() == old(State()).Set(a, on)
    {
      match a
      case Heater => heater := on;
      case Sprinkler => sprinkler := on;
      case Light => light := on;
    }

    /** toggle_gpio: read the actuator's line back and drive it to the other level. */
    method ToggleGpio(actuator: int)
      modifies this
      ensures State() == Toggle(old(State()), actuator)
    {
      if actuator == 0 {
        if heater { Drive(Heater, false); } else { Drive(Heater, true); }
      } else if actuator == 1 {
        if sprinkler { Drive(Sprinkler, false); } else { Drive(Sprinkler, true); }
      } else if actuator == 2 {
        if light { Drive(Light, false); } else { Drive(Light, true); }
      }
    }
  }
}
