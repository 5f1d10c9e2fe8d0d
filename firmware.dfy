/**
 * The firmware's shared state as one object: the three readings, the three
 * threshold globals, selected_menu, the `first_call` statics of
 * Menu_Display and actuator_control, and the GPIO output port. Each method
 * is one pass of a thread's loop, or one screen function run over the
 * joystick samples it would read, proved against the pure model.
 */
module Firmware {
  import opened Wrappers
  import opened Board
  import opened Debounce
  import opened Thresholds
  import opened Telemetry
  import opened Console

  class Greenhouse {
    var tempAdc: int
    var moistAdc: int
    var lightAdc: int
    var heaterThreshold: int
    var sprinklerThreshold: int
    var lightThreshold: int
    var selectedMenu: int
    /** Menu_Display's `first_call`. */
    var menuFirstCall: bool
    /** actuator_control's `first_call`. */
    var actuatorFirstCall: bool
    const port: OutputPort

    /** The readings are 12-bit and the thresholds within what the console can reach. */
    ghost predicate Valid()
      reads this
    {
      InAdcRange(tempAdc) && InAdcRange(moistAdc) && InAdcRange(lightAdc)
      && CurrentLimits().AllReachable()
      && 0 <= selectedMenu < MENU_ITEMS
    }

    function Readings(): (int, int, int)
      reads this
    {
      (tempAdc, moistAdc, lightAdc)
    }

    function Reading(kind: Actuator): int
      reads this
    {
      match kind
      case Heater => tempAdc
      case Sprinkler => moistAdc
      case Light => lightAdc
    }

    function CurrentLimits(): Limits
      reads this
    {
      Limits(heaterThreshold, sprinklerThreshold, lightThreshold)
    }

    /** The console's state as the screen machine sees it, given the open screen and Menu_Thread's last_menu. */
    function View(screen: Screen, lastMenu: int): Console
      reads this, port
    {
      Console(screen, selectedMenu, lastMenu, menuFirstCall, actuatorFirstCall, CurrentLimits(), port.State())
    }

    /** The globals after reset: readings 0, thresholds at their initial values, every line low. */
    constructor ()
      ensures Valid()
      ensures Readings() == (0, 0, 0) && CurrentLimits() == LIMITS_AT_RESET
      ensures selectedMenu == 0 && menuFirstCall && actuatorFirstCall
      ensures fresh(port) && port.State() == ALL_OFF
    {
      tempAdc, moistAdc, lightAdc := 0, 0, 0;
      heaterThreshold := HEATER_THRESHOLD_AT_RESET;
      sprinklerThreshold := SPRINKLER_THRESHOLD_AT_RESET;
      lightThreshold := LIGHT_THRESHOLD_AT_RESET;
      selectedMenu := 0;
      menuFirstCall, actuatorFirstCall := true, true;
      port := new OutputPort();
    }

    /** One Sensor_Thread pass: each reading is the RESULT field of its channel's ADGDR value. */
    method SampleSensors(adgdr0: bv32, adgdr1: bv32, adgdr2: bv32)
      requires Valid()
      modifies this
      ensures Valid()
      ensures Readings() == (AdcResult(adgdr0), AdcResult(adgdr1), AdcResult(adgdr2))
      ensures CurrentLimits() == old(CurrentLimits()) && selectedMenu == old(selectedMenu)
      ensures menuFirstCall == old(menuFirstCall) && actuatorFirstCall == old(actuatorFirstCall)
    {
      tempAdc := AdcResult(adgdr0);
      moistAdc := AdcResult(adgdr1);
      lightAdc := AdcResult(adgdr2);
    }

    /**
     * One UART_Thread pass: the line it sends parses back to the three
     * readings and, with its NUL, fits the 64-byte buffer.
     */
    method FormatTelemetry() returns (line: string)
      requires InAdcRange(tempAdc) && InAdcRange(moistAdc) && InAdcRange(lightAdc)
      ensures ParseTelemetry(line) == Some((tempAdc, moistAdc, lightAdc))
      ensures |line| + 1 <= 64 && line[|line| - 1] == '\n'
    {
      line := TelemetryLine(tempAdc, moistAdc, lightAdc);
      TelemetryRoundTrip(tempAdc, moistAdc, lightAdc);
      TelemetryLineFitsBuffer(tempAdc, moistAdc, lightAdc);
    }

    /** One pass of a monitor thread: whether it releases its controller's semaphore. */
    method Monitor(kind: Actuator) returns (release: bool)
      ensures release <==> Triggers(kind, Reading(kind), CurrentLimits().Get(kind))
      ensures Valid() && kind == Sprinkler && sprinklerThreshold == SPRINKLER_THRESHOLD_AT_RESET ==> release
    {
      match kind
      case Heater => release := tempAdc >= heaterThreshold;
      case Sprinkler => release := moistAdc <= sprinklerThreshold;
      case Light => release := lightAdc <= lightThreshold;
    }

    /**
     * One wake-up of a controller thread: re-test the condition, and if it
     * holds drive the line high, wait, drive it low.
     */
    method Control(kind: Actuator) returns (pulse: Pulse)
      modifies port
      ensures pulse == ControllerPulse(kind, Reading(kind), CurrentLimits().Get(kind), old(port.State()))
      ensures port.State() == AfterPulse(pulse, old(port.State()))
    {
      var release := Monitor(kind);
      if release {
        port.Drive(kind, true);
        var on := port.State();
        port.Drive(kind, false);
        pulse := Pulse(on, OnDuration(kind), port.State());
      } else {
        pulse := NoPulse;
      }
    }

    /** Menu_Display(prev): what it repaints; `first_call` is clear afterwards. */
    method MenuDisplay(prev: int) returns (repaint: Repaint)
      modifies this
      ensures old(Valid()) ==> Valid()
      ensures repaint == MenuRepaint(old(menuFirstCall), prev, selectedMenu)
      ensures !menuFirstCall
      ensures Readings() == old(Readings()) && CurrentLimits() == old(CurrentLimits())
      ensures selectedMenu == old(selectedMenu) && actuatorFirstCall == old(actuatorFirstCall)
    {
      if menuFirstCall || prev == -1 {
        repaint := Full;
        menuFirstCall := false;
      } else if prev != selectedMenu {
        repaint := Rows({prev, selectedMenu});
      } else {
        repaint := NOTHING;
      }
    }

    /** Write one threshold global. */
    method SetThreshold(kind: Actuator, v: int)
      modifies this
      ensures CurrentLimits() == old(CurrentLimits()).Set(kind, v)
      ensures Readings() == old(Readings()) && selectedMenu == old(selectedMenu)
      ensures menuFirstCall == old(menuFirstCall) && actuatorFirstCall == old(actuatorFirstCall)
    {
      match kind
      case Heater => heaterThreshold := v;
      case Sprinkler => sprinklerThreshold := v;
      case Light => lightThreshold := v;
    }

    /** The while loop of show_sensors_on_glcd: passes until an accepted Center edge or the end of the samples. */
    method SensorLoopRun(samples: seq<Sample>) returns (used: nat, exited: bool, gate: Gate)
      ensures RunSensors(GATE_AT_ENTRY, samples) == SensorRun(used, exited, gate)
    {
      var prevJoystick: bv32 := 0;
      var lastAction: uint32 := 0;
      used, exited := 0, false;
      while used < |samples| && !exited
        invariant used <= |samples|
        invariant !exited ==> var r := RunSensors(Gate(prevJoystick, lastAction), samples[used..]);
          RunSensors(GATE_AT_ENTRY, samples) == r.(used := r.used + used)
        invariant exited ==> RunSensors(GATE_AT_ENTRY, samples) == SensorRun(used, true, Gate(prevJoystick, lastAction))
        decreases |samples| - used, !exited
      {
        var current := samples[used].joystick;
        var now := samples[used].tick;
        assert samples[used..][0] == samples[used] && samples[used..][1..] == samples[used + 1..];
        if Elapsed(now, lastAction) >= DEBOUNCE_TIME && current & JOY_CENTER != 0 && prevJoystick & JOY_CENTER == 0 {
          lastAction := now;
          exited := true;
        } else {
          prevJoystick := current;
        }
        used := used + 1;
      }
      gate := Gate(prevJoystick, lastAction);
    }

    /**
     * show_sensors_on_glcd over the samples it reads: it stops at the first
     * accepted Center edge, then forces a full menu redraw.
     */
    method ShowSensors(samples: seq<Sample>) returns (used: nat, exited: bool, gate: Gate)
      modifies this
      ensures old(Valid()) ==> Valid()
      ensures RunSensors(GATE_AT_ENTRY, samples) == SensorRun(used, exited, gate)
      ensures Readings() == old(Readings()) && CurrentLimits() == old(CurrentLimits())
      ensures selectedMenu == old(selectedMenu) && actuatorFirstCall == old(actuatorFirstCall)
      ensures menuFirstCall == (old(menuFirstCall) && !exited)
    {
      used, exited, gate := SensorLoopRun(samples);
      if exited {
        var repaint := MenuDisplay(-1);
      }
    }

    /** The Up and Down branches of actuator_control's loop body, given which edges were accepted. */
    static method MoveActuatorSelection(s: ActuatorLoop, up: bool, down: bool) returns (prevSelected: int, selected: int)
      ensures (prevSelected, selected) == MoveSelection(s, up, down)
    {
      selected, prevSelected := s.selected, s.prevSelected;
      if up {
        prevSelected := selected;
        selected := if selected > 0 then selected - 1 else 0;
      }
      if down {
        prevSelected := selected;
        selected := if selected < 2 then selected + 1 else 2;
      }
    }

    /** One pass of actuator_control's loop body over the sample `current` read at `now`. */
    method ActuatorPass(s: ActuatorLoop, current: bv32, now: uint32) returns (next: ActuatorLoop, exit: bool)
      requires ActuatorLoopValid(s)
      modifies port
      ensures var r := ActuatorStep(s, old(port.State()), current, now);
        next == r.loop && exit == r.exit && port.State() == r.outputs
    {
      var prevJoystick, lastAction := s.gate.prev, s.gate.last;
      if Elapsed(now, lastAction) < DEBOUNCE_TIME {
        return s.(gate := Gate(current, lastAction)), false;
      }
      var up := RisingEdge(current, prevJoystick, JOY_UP);
      var down := RisingEdge(current, prevJoystick, JOY_DOWN);
      var toggled := RisingEdge(current, prevJoystick, LEFT_OR_RIGHT);
      var center := RisingEdge(current, prevJoystick, JOY_CENTER);
      ActuatorStepOpenGate(s, port.State(), current, now);
      var prevSelected, selected := MoveActuatorSelection(s, up, down);
      if up || down {
        lastAction := now;
      }
      if toggled {
        port.ToggleGpio(selected);
        lastAction := now;
      }
      if center {
        lastAction := now;
      } else {
        prevJoystick := current;
      }
      next, exit := ActuatorLoop(selected, prevSelected, Gate(prevJoystick, lastAction)), center;
    }

    /** The while loop of actuator_control: passes until an accepted Center edge or the end of the samples. */
    method ActuatorLoopRun(samples: seq<Sample>) returns (used: nat, exited: bool, loop: ActuatorLoop)
      modifies port
      ensures RunActuators(ACTUATOR_LOOP_AT_ENTRY, old(port.State()), samples)
        == ActuatorRun(used, exited, loop, port.State())
    {
      loop := ACTUATOR_LOOP_AT_ENTRY;
      used, exited := 0, false;
      while used < |samples| && !exited
        invariant used <= |samples| && ActuatorLoopValid(loop)
        invariant !exited ==> var r := RunActuators(loop, port.State(), samples[used..]);
          RunActuators(ACTUATOR_LOOP_AT_ENTRY, old(port.State()), samples) == r.(used := r.used + used)
        invariant exited ==>
          RunActuators(ACTUATOR_LOOP_AT_ENTRY, old(port.State()), samples) == ActuatorRun(used, true, loop, port.State())
        decreases |samples| - used, !exited
      {
        RunActuatorsAt(loop, port.State(), samples, used);
        loop, exited := ActuatorPass(loop, samples[used].joystick, samples[used].tick);
        used := used + 1;
      }
    }

    /**
     * actuator_control over the samples it reads: Up/Down move the
     * selection, Left/Right toggle the selected line through toggle_gpio,
     * Center leaves and re-arms the first draw.
     */
    method ActuatorControl(samples: seq<Sample>) returns (used: nat, exited: bool, loop: ActuatorLoop)
      modifies this, port
      ensures old(Valid()) ==> Valid()
      ensures RunActuators(ACTUATOR_LOOP_AT_ENTRY, old(port.State()), samples)
        == ActuatorRun(used, exited, loop, port.State())
      ensures actuatorFirstCall == exited
      ensures menuFirstCall == (old(menuFirstCall) && !exited)
      ensures Readings() == old(Readings()) && CurrentLimits() == old(CurrentLimits())
      ensures selectedMenu == old(selectedMenu)
    {
      if actuatorFirstCall {
        actuatorFirstCall := false;
      }
      used, exited, loop := ActuatorLoopRun(samples);
      if exited {
        actuatorFirstCall := true;
        var repaint := MenuDisplay(-1);
      }
    }

    /** One pass of an adjust-threshold loop body over the sample `current` read at `now`. */
    method ThresholdPass(kind: Actuator, g: Gate, current: bv32, now: uint32) returns (next: Gate, exit: bool)
      modifies this
      ensures old(Valid()) ==> Valid()
      ensures var r := ThresholdStep(g, old(CurrentLimits().Get(kind)), current, now);
        next == r.gate && exit == r.exit && CurrentLimits() == old(CurrentLimits()).Set(kind, r.value)
      ensures Readings() == old(Readings()) && selectedMenu == old(selectedMenu)
      ensures menuFirstCall == old(menuFirstCall) && actuatorFirstCall == old(actuatorFirstCall)
    {
      var prevJoystick, lastAction := g.prev, g.last;
      LimitsSetSame(CurrentLimits(), kind);
      if Elapsed(now, lastAction) < DEBOUNCE_TIME {
        return Gate(current, lastAction), false;
      }
      ThresholdStepOpenGate(g, CurrentLimits().Get(kind), current, now);
      var up := RisingEdge(current, prevJoystick, JOY_UP);
      var down := RisingEdge(current, prevJoystick, JOY_DOWN);
      var center := RisingEdge(current, prevJoystick, JOY_CENTER);
      if up {
        var v := CurrentLimits().Get(kind) + THRESHOLD_STEP;
        if v > ADC_MAX {
          v := ADC_MAX;
        }
        SetThreshold(kind, v);
        lastAction := now;
      }
      if down {
        var v := CurrentLimits().Get(kind) - THRESHOLD_STEP;
        if v < 0 {
          v := 0;
        }
        LimitsSetTwice(old(CurrentLimits()), kind, CurrentLimits().Get(kind), v);
        SetThreshold(kind, v);
        lastAction := now;
      }
      if center {
        lastAction := now;
      } else {
        prevJoystick := current;
      }
      exit := center;
      next := Gate(prevJoystick, lastAction);
    }

    /**
     * adjustHeaterThreshold, adjustSprinklerThreshold and
     * adjustLightThreshold, which differ only in the global they edit:
     * accepted Up adds 10 capped at 4095, accepted Down subtracts 10
     * floored at 0, Center leaves.
     */
    method AdjustThreshold(kind: Actuator, samples: seq<Sample>) returns (used: nat, exited: bool, gate: Gate)
      modifies this
      ensures old(Valid()) ==> Valid()
      ensures var r := RunThreshold(GATE_AT_ENTRY, old(CurrentLimits().Get(kind)), samples);
        r == ThresholdRun(used, exited, gate, r.value) && CurrentLimits() == old(CurrentLimits()).Set(kind, r.value)
      ensures menuFirstCall == (old(menuFirstCall) && !exited)
      ensures Readings() == old(Readings()) && selectedMenu == old(selectedMenu) && actuatorFirstCall == old(actuatorFirstCall)
    {
      gate := GATE_AT_ENTRY;
      ghost var entry := old(CurrentLimits());
      LimitsSetSame(entry, kind);
      used, exited := 0, false;
      while used < |samples| && !exited
        invariant used <= |samples|
        invariant CurrentLimits() == entry.Set(kind, CurrentLimits().Get(kind))
        invariant !exited ==> var r := RunThreshold(gate, CurrentLimits().Get(kind), samples[used..]);
          RunThreshold(GATE_AT_ENTRY, entry.Get(kind), samples) == r.(used := r.used + used)
        invariant exited ==>
          RunThreshold(GATE_AT_ENTRY, entry.Get(kind), samples) == ThresholdRun(used, true, gate, CurrentLimits().Get(kind))
        invariant menuFirstCall == old(menuFirstCall)
        invariant Readings() == old(Readings()) && selectedMenu == old(selectedMenu) && actuatorFirstCall == old(actuatorFirstCall)
        decreases |samples| - used, !exited
      {
        RunThresholdAt(gate, CurrentLimits().Get(kind), samples, used);
        ghost var before := CurrentLimits();
        gate, exited := ThresholdPass(kind, gate, samples[used].joystick, samples[used].tick);
        LimitsSetTwice(entry, kind, before.Get(kind), CurrentLimits().Get(kind));
        used := used + 1;
      }
      if exited {
        var repaint := MenuDisplay(-1);
      }
    }

    /**
     * The switch of Menu_Thread: run the screen of entry `e` over the samples
     * that follow the Center press. When the samples run out before the
     * screen closes, `screen` is the screen still open.
     */
    method OpenScreen(e: Entry, rest: seq<Sample>, ghost lastMenu: int) returns (used: nat, exited: bool, screen: Screen)
      modifies this, port
      ensures old(Valid()) ==> Valid()
      ensures used <= |rest| && (!exited ==> used == |rest|)
      ensures RunFrom(Enter(old(View(MainMenu, lastMenu)), e).console, rest[..used])
        == if exited then View(MainMenu, selectedMenu) else View(screen, lastMenu)
      ensures exited ==> !menuFirstCall
      ensures Readings() == old(Readings()) && selectedMenu == old(selectedMenu)
    {
      ghost var entered := Enter(View(MainMenu, lastMenu), e).console;
      match e
      case ShowSensors =>
        var gate;
        used, exited, gate := ShowSensors(rest);
        screen := SensorView(gate);
        RunSensorsIsRunFrom(entered, GATE_AT_ENTRY, rest);
      case ManualControl =>
        var loop;
        used, exited, loop := ActuatorControl(rest);
        screen := Screen.ActuatorControl(loop);
        RunActuatorsIsRunFrom(entered, ACTUATOR_LOOP_AT_ENTRY, rest);
      case AdjustThreshold(kind) =>
        var gate;
        used, exited, gate := AdjustThreshold(kind, rest);
        screen := ThresholdEdit(kind, gate);
        RunThresholdIsRunFrom(entered, kind, GATE_AT_ENTRY, rest);
    }

    /**
     * One pass of Menu_Thread's loop at sample `i`: an empty sample is
     * skipped; Up, else Down, else Center on entries 0..4 opens that screen
     * over the samples that follow; then the differential redraw. `stopped`
     * means the samples ended inside an open screen.
     */
    method MenuThreadPass(samples: seq<Sample>, i: nat, lastMenu: int) returns (next: nat, newLastMenu: int, stopped: bool, screen: Screen)
      requires i < |samples| && 0 <= selectedMenu < MENU_ITEMS
      modifies this, port
      ensures old(Valid()) ==> Valid()
      ensures i < next <= |samples| && 0 <= selectedMenu < MENU_ITEMS
      ensures stopped ==> RunFrom(old(View(MainMenu, lastMenu)), samples[i..]) == View(screen, newLastMenu)
      ensures !stopped ==> screen == MainMenu
      ensures !stopped ==> RunFrom(old(View(MainMenu, lastMenu)), samples[i..]) == RunFrom(View(MainMenu, newLastMenu), samples[next..])
      ensures Readings() == old(Readings())
    {
      ghost var v := View(MainMenu, lastMenu);
      var dir := samples[i].joystick;
      assert samples[i..][0] == samples[i] && samples[i..][1..] == samples[i + 1..];
      ghost var after := ConsoleStep(v, dir, samples[i].tick).console;
      assert RunFrom(v, samples[i..]) == RunFrom(after, samples[i + 1..]);
      newLastMenu, stopped, screen := lastMenu, false, MainMenu;
      next := i + 1;
      if dir != 0 {
        var updated := false;
        if dir & JOY_UP != 0 && selectedMenu > 0 {
          selectedMenu := selectedMenu - 1;
          updated := true;
        } else if dir & JOY_DOWN != 0 && selectedMenu < EXIT_ITEM {
          selectedMenu := selectedMenu + 1;
          updated := true;
        } else if dir & JOY_CENTER != 0 {
          match EntryAt(selectedMenu)
          case Some(e) =>
            var rest := samples[i + 1..];
            var used, exited, open := OpenScreen(e, rest, lastMenu);
            RunFromSplit(Enter(v, e).console, rest, used);
            assert after == Enter(v, e).console;
            if !exited {
              stopped, screen := true, open;
              return;
            }
            assert rest[used..] == samples[i + 1 + used..];
            next := i + 1 + used;
          case None =>
        }
        if updated || selectedMenu != lastMenu {
          var repaint := MenuDisplay(lastMenu);
          newLastMenu := selectedMenu;
        }
      }
    }

    /**
     * Menu_Thread over a sequence of joystick samples: the first full menu
     * draw, then one pass per sample on the menu, with each opened screen
     * consuming the samples it reads. The resulting state is the screen
     * machine's run over the same samples.
     */
    method MenuThread(samples: seq<Sample>) returns (screen: Screen, lastMenu: int)
      requires 0 <= selectedMenu < MENU_ITEMS
      modifies this, port
      ensures old(Valid()) ==> Valid()
      ensures View(screen, lastMenu)
        == RunFrom(Console(MainMenu, old(selectedMenu), old(selectedMenu), false, old(actuatorFirstCall), old(CurrentLimits()), old(port.State())), samples)
      ensures Readings() == old(Readings())
    {
      var repaint := MenuDisplay(-1);
      lastMenu := selectedMenu;
      screen := MainMenu;
      ghost var start := View(MainMenu, lastMenu);
      var i := 0;
      while i < |samples|
        invariant 0 <= i <= |samples| && 0 <= selectedMenu < MENU_ITEMS && screen == MainMenu
        invariant RunFrom(start, samples) == RunFrom(View(MainMenu, lastMenu), samples[i..])
        invariant Readings() == old(Readings())
        invariant old(Valid()) ==> Valid()
        decreases |samples| - i
      {
        var stopped;
        i, lastMenu, stopped, screen := MenuThreadPass(samples, i, lastMenu);
        if stopped {
          return;
        }
      }
      assert samples[i..] == [];
    }
  }
}
