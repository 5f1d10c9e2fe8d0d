/**
 * The operator console of Menu_Thread: the main-menu navigator and its
 * redraw policy, the actuator-control screen, the three threshold screens
 * (one step function parameterised by the threshold it edits) and the
 * sensor view, each reduced to one pass of its loop over one joystick
 * sample; and the screen machine that strings those passes together.
 * The display is modelled only as which rows a pass repaints.
 */
module Console {
  import opened Wrappers
  import opened Board
  import opened Debounce
  import opened Thresholds

  /**
   * What a pass paints: the whole screen, or some rows. The menu and the
   * actuator screen number their rows by item (item i sits at
   * y = (i + 2) * 24); the sensor view and the threshold screens by text
   * line (line n sits at y = n * 24).
   */
  datatype Repaint = Full | Rows(rows: set<int>)

  const NOTHING := Rows({})

  // ---------------------------------------------------------------- main menu

  const MENU_ITEMS := 6
  /** "Exit Menu", the last entry, dispatches nowhere. */
  const EXIT_ITEM := 5

  /** The screens the menu entries 0..4 open. */
  datatype Entry = ShowSensors | ManualControl | AdjustThreshold(kind: Actuator)

  function EntryAt(item: int): (e: Option<Entry>)
    ensures e.Some? <==> 0 <= item < EXIT_ITEM
    ensures item == 0 ==> e == Some(ShowSensors)
    ensures item == 1 ==> e == Some(ManualControl)
    ensures item == 2 ==> e == Some(AdjustThreshold(Heater))
    ensures item == 3 ==> e == Some(AdjustThreshold(Sprinkler))
    ensures item == 4 ==> e == Some(AdjustThreshold(Light))
  {
    if item == 0 then Some(ShowSensors)
    else if item == 1 then Some(ManualControl)
    else if item == 2 then Some(AdjustThreshold(Heater))
    else if item == 3 then Some(AdjustThreshold(Sprinkler))
    else if item == 4 then Some(AdjustThreshold(Light))
    else None
  }

  /** The decision of one Menu_Thread pass: new index, whether it moved, which screen to open. */
  datatype MenuMove = MenuMove(selected: int, updated: bool, enter: Option<Entry>)

  /**
   * One Menu_Thread pass over the raw joystick mask `dir`: no edge detection
   * and no debounce; Up (when above 0), else Down (when below 5), else Center.
   */
  function MenuStep(selected: int, dir: bv32): (m: MenuMove)
    ensures 0 <= selected < MENU_ITEMS ==> 0 <= m.selected < MENU_ITEMS
    ensures m.updated <==> m.selected != selected
    ensures m.enter.Some? ==> m.selected == selected
    ensures m.selected == selected || m.selected == selected - 1 || m.selected == selected + 1
    ensures m.enter.Some? ==>
      dir & JOY_CENTER != 0 && !(dir & JOY_UP != 0 && selected > 0) && !(dir & JOY_DOWN != 0 && selected < EXIT_ITEM)
  {
    if dir == 0 then MenuMove(selected, false, None)
    else if dir & JOY_UP != 0 && selected > 0 then MenuMove(selected - 1, true, None)
    else if dir & JOY_DOWN != 0 && selected < EXIT_ITEM then MenuMove(selected + 1, true, None)
    else if dir & JOY_CENTER != 0 then MenuMove(selected, false, EntryAt(selected))
    else MenuMove(selected, false, None)
  }

  /** Up above 0 wins over Down and Center pressed in the same sample. */
  lemma MenuUpTakesPrecedence(selected: int, dir: bv32)
    requires dir & JOY_UP != 0 && selected > 0
    ensures MenuStep(selected, dir) == MenuMove(selected - 1, true, None)
  {
  }

  /** Up at the top is ignored, so a Down in the same sample still moves. */
  lemma MenuDownWhenUpBlocked(dir: bv32)
    requires dir & JOY_DOWN != 0
    ensures MenuStep(0, dir) == MenuMove(1, true, None)
  {
  }

  /** Down below the last entry moves down whenever Up does not apply, whatever Center does. */
  lemma MenuDownUnlessUp(selected: int, dir: bv32)
    requires !(dir & JOY_UP != 0 && selected > 0)
    requires dir & JOY_DOWN != 0 && selected < EXIT_ITEM
    ensures MenuStep(selected, dir) == MenuMove(selected + 1, true, None)
  {
  }

  /** A mask without Up, Down and Center (Left and Right alone, or nothing) changes nothing. */
  lemma MenuIgnoresOtherDirections(selected: int, dir: bv32)
    requires dir & (JOY_UP | JOY_DOWN | JOY_CENTER) == 0
    ensures MenuStep(selected, dir) == MenuMove(selected, false, None)
  {
  }

  /**
   * Center dispatches entries 0..4; entry 5 and an empty mask change
   * nothing.
   */
  lemma MenuCenterDispatch(selected: int, dir: bv32)
    requires 0 <= selected < MENU_ITEMS
    requires dir & JOY_CENTER != 0
    requires !(dir & JOY_UP != 0 && selected > 0) && !(dir & JOY_DOWN != 0 && selected < EXIT_ITEM)
    ensures MenuStep(selected, dir).enter == EntryAt(selected)
    ensures selected == EXIT_ITEM ==> MenuStep(selected, dir) == MenuMove(selected, false, None)
    ensures MenuStep(selected, 0) == MenuMove(selected, false, None)
  {
  }

  /** `k` consecutive passes that all read the same mask `dir`. */
  function MenuHeld(selected: int, dir: bv32, k: nat): int
    decreases k
  {
    if k == 0 then selected else MenuStep(MenuHeld(selected, dir, k - 1), dir).selected
  }

  /** A held Down repeats on every pass until the last entry. */
  lemma {:induction false} MenuHeldDownRepeats(selected: int, k: nat)
    requires 0 <= selected < MENU_ITEMS
    ensures MenuHeld(selected, JOY_DOWN, k) == if selected + k < EXIT_ITEM then selected + k else EXIT_ITEM
  {
    if k > 0 {
      MenuHeldDownRepeats(selected, k - 1);
    }
  }

  /** A held Up repeats on every pass until the first entry. */
  lemma {:induction false} MenuHeldUpRepeats(selected: int, k: nat)
    requires 0 <= selected < MENU_ITEMS
    ensures MenuHeld(selected, JOY_UP, k) == if selected - k > 0 then selected - k else 0
  {
    if k > 0 {
      MenuHeldUpRepeats(selected, k - 1);
    }
  }

  /**
   * Menu_Display's repaint decision: every row on the first call or for a
   * forced redraw (prev == -1), otherwise just the old and the new
   * highlighted row, and nothing when they are equal.
   */
  function MenuRepaint(firstCall: bool, prev: int, selected: int): Repaint {
    if firstCall || prev == -1 then Full
    else if prev != selected then Rows({prev, selected})
    else NOTHING
  }

  /** The menu rows as drawn on the display: which of them is highlighted. */
  predicate ShowsMenu(picture: seq<bool>, selected: int) {
    |picture| == MENU_ITEMS && forall i :: 0 <= i < MENU_ITEMS ==> picture[i] == (i == selected)
  }

  /** The picture after a repaint: each repainted row is drawn highlighted iff it is the selected one. */
  function PaintMenu(picture: seq<bool>, r: Repaint, selected: int): (p: seq<bool>)
    requires |picture| == MENU_ITEMS
    ensures |p| == MENU_ITEMS
  {
    match r
    case Full => seq(MENU_ITEMS, i => i == selected)
    case Rows(rows) => seq(MENU_ITEMS, i requires 0 <= i < MENU_ITEMS => if i in rows then i == selected else picture[i])
  }

  /**
   * The differential redraw leaves the display exactly as a full redraw
   * would, provided the display showed the old selection.
   */
  lemma MenuRepaintIsExact(picture: seq<bool>, firstCall: bool, prev: int, selected: int)
    requires |picture| == MENU_ITEMS && 0 <= selected < MENU_ITEMS
    requires firstCall || prev == -1 || ShowsMenu(picture, prev)
    ensures ShowsMenu(PaintMenu(picture, MenuRepaint(firstCall, prev, selected), selected), selected)
  {
  }

  /**
   * The differential redraw repaints exactly the rows whose highlight
   * changes: the old row and the new one.
   */
  lemma MenuRepaintIsMinimal(picture: seq<bool>, prev: int, selected: int)
    requires 0 <= prev < MENU_ITEMS && 0 <= selected < MENU_ITEMS
    requires ShowsMenu(picture, prev)
    ensures MenuRepaint(false, prev, selected) == Rows(set i | 0 <= i < MENU_ITEMS && picture[i] != (i == selected))
  {
    var changed := set i | 0 <= i < MENU_ITEMS && picture[i] != (i == selected);
    if prev != selected {
      assert prev in changed && selected in changed;
      assert changed == {prev, selected};
    } else {
      assert changed == {};
    }
  }

  // ------------------------------------------------------ actuator control

  /** The loop locals of actuator_control. */
  datatype ActuatorLoop = ActuatorLoop(selected: int, prevSelected: int, gate: Gate)

  /** selected_actuator = 0 and prev_selected_actuator = -1 on every entry. */
  const ACTUATOR_LOOP_AT_ENTRY := ActuatorLoop(0, -1, GATE_AT_ENTRY)

  const LEFT_OR_RIGHT: bv32 := JOY_LEFT | JOY_RIGHT

  predicate ActuatorLoopValid(s: ActuatorLoop) {
    0 <= s.selected <= 2 && -1 <= s.prevSelected <= 2
  }

  datatype ActuatorResult = ActuatorResult(loop: ActuatorLoop, outputs: Outputs, exit: bool, repaint: Repaint)

  function Max(a: int, b: int): int { if a < b then b else a }
  function Min(a: int, b: int): int { if a < b then a else b }

  /** The Up edge (saturating at 0) then the Down edge (saturating at 2), with the previous-selection bookkeeping. */
  function MoveSelection(s: ActuatorLoop, up: bool, down: bool): (r: (int, int))
    ensures 0 <= s.selected <= 2 ==> 0 <= r.1 <= 2
    ensures -1 <= s.prevSelected <= 2 && 0 <= s.selected <= 2 ==> -1 <= r.0 <= 2
    ensures !up && !down ==> r == (s.prevSelected, s.selected)
    ensures up && !down ==> r == (s.selected, Max(s.selected - 1, 0))
    ensures down && !up ==> r == (s.selected, Min(s.selected + 1, 2))
    ensures up && down ==> r == (Max(s.selected - 1, 0), Min(Max(s.selected - 1, 0) + 1, 2))
  {
    var (prev1, sel1) := if up then (s.selected, if s.selected > 0 then s.selected - 1 else 0) else (s.prevSelected, s.selected);
    if down then (sel1, if sel1 < 2 then sel1 + 1 else 2) else (prev1, sel1)
  }

  /** One pass of actuator_control's loop over the sample `cur` at tick `now`. */
  function ActuatorStep(s: ActuatorLoop, o: Outputs, cur: bv32, now: uint32): (r: ActuatorResult)
    ensures ActuatorLoopValid(s) ==> ActuatorLoopValid(r.loop)
    ensures r.outputs == if Accepts(s.gate, cur, now, LEFT_OR_RIGHT) then Toggle(o, r.loop.selected) else o
    ensures r.exit <==> Accepts(s.gate, cur, now, JOY_CENTER)
    ensures (r.loop.prevSelected, r.loop.selected)
      == MoveSelection(s, Accepts(s.gate, cur, now, JOY_UP), Accepts(s.gate, cur, now, JOY_DOWN))
  {
    if !GateOpen(now, s.gate.last) then
      ActuatorResult(s.(gate := s.gate.(prev := cur)), o, false, NOTHING)
    else
      var p := s.gate.prev;
      var up := RisingEdge(cur, p, JOY_UP);
      var down := RisingEdge(cur, p, JOY_DOWN);
      var toggled := RisingEdge(cur, p, LEFT_OR_RIGHT);
      var center := RisingEdge(cur, p, JOY_CENTER);
      var (prevSel, sel) := MoveSelection(s, up, down);
      var o' := if toggled then Toggle(o, sel) else o;
      var last := if up || down || toggled || center then now else s.gate.last;
      if center then
        ActuatorResult(ActuatorLoop(sel, prevSel, Gate(p, last)), o', true, Full)
      else
        var repaint :=
          if !(up || down || toggled) then NOTHING
          else if toggled then Rows({sel})
          else if prevSel != sel then Rows(if prevSel != -1 then {prevSel, sel} else {sel})
          else NOTHING;
        ActuatorResult(ActuatorLoop(sel, prevSel, Gate(cur, last)), o', false, repaint)
  }

  /** With the debounce window passed, the new locals, outputs and exit flag of one pass. */
  lemma ActuatorStepOpenGate(s: ActuatorLoop, o: Outputs, cur: bv32, now: uint32)
    requires GateOpen(now, s.gate.last)
    ensures var r := ActuatorStep(s, o, cur, now);
      var up := RisingEdge(cur, s.gate.prev, JOY_UP);
      var down := RisingEdge(cur, s.gate.prev, JOY_DOWN);
      var toggled := RisingEdge(cur, s.gate.prev, LEFT_OR_RIGHT);
      var center := RisingEdge(cur, s.gate.prev, JOY_CENTER);
      var m := MoveSelection(s, up, down);
      var last := if up || down || toggled || center then now else s.gate.last;
      r.loop == ActuatorLoop(m.1, m.0, Gate(if center then s.gate.prev else cur, last))
      && r.outputs == (if toggled then Toggle(o, m.1) else o) && r.exit == center
  {
  }

  /**
   * Inside the debounce window a pass only records the sample as the
   * previous one: an edge in it is not kept for a later pass.
   */
  lemma ActuatorGateClosed(s: ActuatorLoop, o: Outputs, cur: bv32, now: uint32)
    requires !GateOpen(now, s.gate.last)
    ensures ActuatorStep(s, o, cur, now) == ActuatorResult(s.(gate := Gate(cur, s.gate.last)), o, false, NOTHING)
  {
  }

  /**
   * What a pass repaints: the whole screen when it leaves; otherwise the
   * selected row alone after a toggle, the old and the new row after a
   * move (the new one alone when there was no old one), and nothing when
   * no action was accepted or the selection did not change.
   */
  lemma ActuatorStepRepaint(s: ActuatorLoop, o: Outputs, cur: bv32, now: uint32)
    ensures var r := ActuatorStep(s, o, cur, now);
      var toggled := Accepts(s.gate, cur, now, LEFT_OR_RIGHT);
      var moved := Accepts(s.gate, cur, now, JOY_UP) || Accepts(s.gate, cur, now, JOY_DOWN);
      r.repaint ==
        if r.exit then Full
        else if toggled then Rows({r.loop.selected})
        else if moved && r.loop.prevSelected != r.loop.selected then
          Rows(if r.loop.prevSelected != -1 then {r.loop.prevSelected, r.loop.selected} else {r.loop.selected})
        else NOTHING
  {
  }

  /**
   * A Left press accepted at `t1`, released, pressed again at `t2` inside
   * the window: the second press is dropped, not deferred, since the held
   * button shows no new edge at `t3` when the window has passed. The line
   * is toggled once.
   */
  lemma ActuatorEdgeInsideWindowIsDropped(s: ActuatorLoop, o: Outputs, t1: uint32, t: uint32, t2: uint32, t3: uint32)
    requires s.gate.prev == 0 && GateOpen(t1, s.gate.last)
    requires Elapsed(t, t1) < DEBOUNCE_TIME && Elapsed(t2, t1) < DEBOUNCE_TIME
    ensures var r1 := ActuatorStep(s, o, JOY_LEFT, t1);
      var r2 := ActuatorStep(r1.loop, r1.outputs, 0, t);
      var r3 := ActuatorStep(r2.loop, r2.outputs, JOY_LEFT, t2);
      var r4 := ActuatorStep(r3.loop, r3.outputs, JOY_LEFT, t3);
      r1.outputs == Toggle(o, s.selected) && r4.outputs == Toggle(o, s.selected) && r4.loop.gate.last == t1
  {
  }

  /** last_action_time moves to the sample's tick exactly when some action is accepted. */
  lemma ActuatorStepRecordsAction(s: ActuatorLoop, o: Outputs, cur: bv32, now: uint32)
    ensures ActuatorStep(s, o, cur, now).loop.gate.last
      == if Accepts(s.gate, cur, now, JOY_UP) || Accepts(s.gate, cur, now, JOY_DOWN)
            || Accepts(s.gate, cur, now, LEFT_OR_RIGHT) || Accepts(s.gate, cur, now, JOY_CENTER)
         then now else s.gate.last
  {
  }

  /** Up at the top row and Down at the bottom row saturate. */
  lemma ActuatorSelectionSaturates(s: ActuatorLoop, o: Outputs, cur: bv32, now: uint32)
    requires GateOpen(now, s.gate.last)
    ensures s.selected == 0 && RisingEdge(cur, s.gate.prev, JOY_UP) && !RisingEdge(cur, s.gate.prev, JOY_DOWN)
      ==> ActuatorStep(s, o, cur, now).loop.selected == 0
    ensures s.selected == 2 && RisingEdge(cur, s.gate.prev, JOY_DOWN) && !RisingEdge(cur, s.gate.prev, JOY_UP)
      ==> ActuatorStep(s, o, cur, now).loop.selected == 2
  {
  }

  /** Left and Right share one edge detector: pressing one while the other is held toggles nothing. */
  lemma ActuatorLeftRightShareEdge(s: ActuatorLoop, o: Outputs, now: uint32)
    requires s.gate.prev & LEFT_OR_RIGHT == JOY_LEFT
    ensures ActuatorStep(s, o, JOY_LEFT | JOY_RIGHT, now).outputs == o
    ensures ActuatorStep(s, o, JOY_RIGHT, now).outputs == o
  {
  }

  /** An accepted Left/Right toggles the selected actuator only and leaves the other two as they were. */
  lemma ActuatorToggleOnlySelected(s: ActuatorLoop, o: Outputs, cur: bv32, now: uint32, a: Actuator)
    requires ActuatorLoopValid(s)
    requires Accepts(s.gate, cur, now, LEFT_OR_RIGHT)
    ensures var r := ActuatorStep(s, o, cur, now);
      r.outputs.Get(a) == if ActuatorIndex(a) == r.loop.selected then !o.Get(a) else o.Get(a)
  {
  }

  /** A row of the actuator screen as drawn: highlighted or not, and the ON/OFF state it shows. */
  datatype RowView = RowView(highlighted: bool, on: bool)

  /** The actuator screen shows the current selection and the current line levels. */
  predicate ShowsActuators(picture: seq<RowView>, selected: int, o: Outputs) {
    |picture| == 3 && forall i :: 0 <= i < 3 ==> picture[i] == RowView(i == selected, o.Get(ActuatorAt(i)))
  }

  /** The picture after a repaint: each repainted row shows its highlight and the line's level when drawn. */
  function PaintActuators(picture: seq<RowView>, r: Repaint, selected: int, o: Outputs): (p: seq<RowView>)
    requires |picture| == 3
    ensures |p| == 3
  {
    match r
    case Full => seq(3, i requires 0 <= i < 3 => RowView(i == selected, o.Get(ActuatorAt(i))))
    case Rows(rows) =>
      seq(3, i requires 0 <= i < 3 => if i in rows then RowView(i == selected, o.Get(ActuatorAt(i))) else picture[i])
  }

  /**
   * The differential redraw of a pass that stays on the screen is exact,
   * except when a toggle and a selection change fall in the same sample.
   */
  lemma ActuatorRepaintIsExact(picture: seq<RowView>, s: ActuatorLoop, o: Outputs, cur: bv32, now: uint32)
    requires ActuatorLoopValid(s) && ShowsActuators(picture, s.selected, o)
    requires var r := ActuatorStep(s, o, cur, now);
      !r.exit && !(Accepts(s.gate, cur, now, LEFT_OR_RIGHT) && r.loop.selected != s.selected)
    ensures var r := ActuatorStep(s, o, cur, now);
      ShowsActuators(PaintActuators(picture, r.repaint, r.loop.selected, r.outputs), r.loop.selected, r.outputs)
  {
    var r := ActuatorStep(s, o, cur, now);
    var p := PaintActuators(picture, r.repaint, r.loop.selected, r.outputs);
    forall i | 0 <= i < 3
      ensures p[i] == RowView(i == r.loop.selected, r.outputs.Get(ActuatorAt(i)))
    {
      assert picture[i] == RowView(i == s.selected, o.Get(ActuatorAt(i)));
    }
  }

  /** Up and Left in one sample from the middle row: only row 0 is repainted, row 1 stays highlighted. */
  lemma ActuatorMoveWithToggleLeavesStaleRow(picture: seq<RowView>, s: ActuatorLoop, o: Outputs, now: uint32)
    requires s.selected == 1 && s.gate.prev == 0 && GateOpen(now, s.gate.last)
    requires ShowsActuators(picture, 1, o)
    ensures var r := ActuatorStep(s, o, JOY_UP | JOY_LEFT, now);
      r.loop.selected == 0 && r.repaint == Rows({0})
      && PaintActuators(picture, r.repaint, r.loop.selected, r.outputs)[1].highlighted
  {
    assert picture[1] == RowView(true, o.Get(ActuatorAt(1)));
  }

  // ------------------------------------------------------ threshold screens

  /** The text line that holds the threshold value ("Threshold: %d" at y = 4 * 24). */
  const VALUE_ROW := 4

  datatype ThresholdResult = ThresholdResult(gate: Gate, value: int, exit: bool, repaint: Repaint)

  /**
   * One pass of an adjust-threshold loop (heater, sprinkler and light run
   * the same code on their own global): accepted Up then accepted Down,
   * each clamped, then Center leaves.
   */
  function ThresholdStep(g: Gate, v: int, cur: bv32, now: uint32): (r: ThresholdResult)
    ensures InAdcRange(v) ==> InAdcRange(r.value)
    ensures Reachable(v) ==> Reachable(r.value)
    ensures r.exit <==> Accepts(g, cur, now, JOY_CENTER)
    ensures var afterUp := if Accepts(g, cur, now, JOY_UP) then StepUp(v) else v;
      r.value == if Accepts(g, cur, now, JOY_DOWN) then StepDown(afterUp) else afterUp
    ensures r.gate.last == if Accepts(g, cur, now, JOY_UP) || Accepts(g, cur, now, JOY_DOWN) || Accepts(g, cur, now, JOY_CENTER) then now else g.last
  {
    if !GateOpen(now, g.last) then
      ThresholdResult(g.(prev := cur), v, false, NOTHING)
    else
      var up := RisingEdge(cur, g.prev, JOY_UP);
      var down := RisingEdge(cur, g.prev, JOY_DOWN);
      var center := RisingEdge(cur, g.prev, JOY_CENTER);
      var v1 := if up then StepUp(v) else v;
      var v2 := if down then StepDown(v1) else v1;
      var last := if up || down || center then now else g.last;
      if center then ThresholdResult(Gate(g.prev, last), v2, true, Full)
      else ThresholdResult(Gate(cur, last), v2, false, if up || down then Rows({VALUE_ROW}) else NOTHING)
  }

  /** With the debounce window passed, the new gate and exit flag of one pass. */
  lemma ThresholdStepOpenGate(g: Gate, v: int, cur: bv32, now: uint32)
    requires GateOpen(now, g.last)
    ensures var r := ThresholdStep(g, v, cur, now);
      var up := RisingEdge(cur, g.prev, JOY_UP);
      var down := RisingEdge(cur, g.prev, JOY_DOWN);
      var center := RisingEdge(cur, g.prev, JOY_CENTER);
      r.gate == Gate(if center then g.prev else cur, if up || down || center then now else g.last)
      && r.exit == center
  {
  }

  /**
   * What a pass repaints: the whole screen when it leaves, the value's text
   * line after an accepted Up or Down, and nothing otherwise.
   */
  lemma ThresholdStepRepaint(g: Gate, v: int, cur: bv32, now: uint32)
    ensures var r := ThresholdStep(g, v, cur, now);
      r.repaint ==
        if r.exit then Full
        else if Accepts(g, cur, now, JOY_UP) || Accepts(g, cur, now, JOY_DOWN) then Rows({VALUE_ROW})
        else NOTHING
  {
  }

  /** Up and Down edges in the same accepted sample both apply, Up first. */
  lemma ThresholdUpThenDown(g: Gate, v: int, cur: bv32, now: uint32)
    requires Accepts(g, cur, now, JOY_UP) && Accepts(g, cur, now, JOY_DOWN)
    ensures ThresholdStep(g, v, cur, now).value == StepDown(StepUp(v))
  {
  }

  /** Inside the debounce window a pass only records the sample. */
  lemma ThresholdGateClosed(g: Gate, v: int, cur: bv32, now: uint32)
    requires !GateOpen(now, g.last)
    ensures ThresholdStep(g, v, cur, now) == ThresholdResult(Gate(cur, g.last), v, false, NOTHING)
  {
  }

  /**
   * An Up press accepted at `t1`, released, pressed again at `t2` inside the
   * window: the second press is dropped, not deferred, since the held button
   * shows no new edge at `t3` when the window has passed.
   */
  lemma EdgeInsideWindowIsDropped(g: Gate, v: int, t1: uint32, t: uint32, t2: uint32, t3: uint32)
    requires g.prev == 0 && GateOpen(t1, g.last)
    requires Elapsed(t, t1) < DEBOUNCE_TIME && Elapsed(t2, t1) < DEBOUNCE_TIME
    ensures var r1 := ThresholdStep(g, v, JOY_UP, t1);
      var r2 := ThresholdStep(r1.gate, r1.value, 0, t);
      var r3 := ThresholdStep(r2.gate, r2.value, JOY_UP, t2);
      var r4 := ThresholdStep(r3.gate, r3.value, JOY_UP, t3);
      r1.value == StepUp(v) && r4.value == StepUp(v) && r4.gate.last == t1
  {
  }

  /** Two Up presses a full window apart are both accepted. */
  lemma EdgesAWindowApartBothCount(g: Gate, v: int, t1: uint32, t: uint32, t2: uint32)
    requires g.prev == 0 && GateOpen(t1, g.last)
    requires Elapsed(t2, t1) >= DEBOUNCE_TIME
    ensures var r1 := ThresholdStep(g, v, JOY_UP, t1);
      var r2 := ThresholdStep(r1.gate, r1.value, 0, t);
      var r3 := ThresholdStep(r2.gate, r2.value, JOY_UP, t2);
      r3.value == StepUp(StepUp(v)) && r3.gate.last == t2
  {
  }

  // ------------------------------------------------------ sensor view

  /** Text lines (line n at y = n * 24) show_sensors_on_glcd repaints on every pass: header, a cleared line, three readings, the hint. */
  const SENSOR_ROWS := {1, 3, 4, 5, 6, 7}

  datatype SensorResult = SensorResult(gate: Gate, exit: bool, repaint: Repaint)

  /** One pass of the sensor view: redraw the readings, then leave on an accepted Center edge. */
  function SensorStep(g: Gate, cur: bv32, now: uint32): (r: SensorResult)
    ensures r.exit <==> Accepts(g, cur, now, JOY_CENTER)
    ensures !r.exit ==> r.gate == Gate(cur, g.last) && r.repaint == Rows(SENSOR_ROWS)
    ensures r.exit ==> r.gate.last == now
  {
    if Accepts(g, cur, now, JOY_CENTER) then SensorResult(Gate(g.prev, now), true, Full)
    else SensorResult(Gate(cur, g.last), false, Rows(SENSOR_ROWS))
  }

  // ------------------------------------------------------ the screen machine

  datatype Screen =
    | MainMenu
    | SensorView(gate: Gate)
    | ActuatorControl(loop: ActuatorLoop)
    | ThresholdEdit(kind: Actuator, gate: Gate)

  /**
   * The console's state: the active screen with its loop locals,
   * selected_menu, Menu_Thread's last_menu, the two `first_call` statics,
   * the threshold globals and the output lines.
   */
  datatype Console = Console(
    screen: Screen,
    selectedMenu: int,
    lastMenu: int,
    menuFirstCall: bool,
    actuatorFirstCall: bool,
    limits: Limits,
    outputs: Outputs)

  /** The state once Menu_Thread has drawn the menu for the first time (Menu_Display(-1)). */
  const CONSOLE_AT_START := Console(MainMenu, 0, 0, false, true, LIMITS_AT_RESET, ALL_OFF)

  datatype Pass = Pass(console: Console, repaint: Repaint)

  /** What opening a screen from the menu does: fresh loop locals and the screen's first draw. */
  function Enter(c: Console, e: Entry): Pass {
    match e
    case ShowSensors => Pass(c.(screen := SensorView(GATE_AT_ENTRY)), Full)
    case ManualControl =>
      Pass(c.(screen := ActuatorControl(ACTUATOR_LOOP_AT_ENTRY), actuatorFirstCall := false),
           if c.actuatorFirstCall then Full else NOTHING)
    case AdjustThreshold(k) => Pass(c.(screen := ThresholdEdit(k, GATE_AT_ENTRY)), Full)
  }

  /**
   * Leaving a screen: clear it and call Menu_Display(-1); then the rest of
   * the Menu_Thread pass that opened the screen brings last_menu up to date.
   */
  function ReturnToMenu(c: Console): Pass {
    Pass(c.(screen := MainMenu, menuFirstCall := false, lastMenu := c.selectedMenu), Full)
  }

  /** One Menu_Thread pass on the main menu. */
  function MenuPass(c: Console, dir: bv32): Pass {
    if dir == 0 then Pass(c, NOTHING)
    else
      var m := MenuStep(c.selectedMenu, dir);
      match m.enter
      case Some(e) => Enter(c, e)
      case None =>
        if m.updated || m.selected != c.lastMenu then
          Pass(c.(selectedMenu := m.selected, lastMenu := m.selected, menuFirstCall := false),
               MenuRepaint(c.menuFirstCall, c.lastMenu, m.selected))
        else
          Pass(c.(selectedMenu := m.selected), NOTHING)
  }

  /** One joystick sample consumed by whichever screen is active. */
  function ConsoleStep(c: Console, cur: bv32, now: uint32): Pass {
    match c.screen
    case MainMenu => MenuPass(c, cur)
    case SensorView(g) =>
      var r := SensorStep(g, cur, now);
      if r.exit then ReturnToMenu(c) else Pass(c.(screen := SensorView(r.gate)), r.repaint)
    case ActuatorControl(s) =>
      var r := ActuatorStep(s, c.outputs, cur, now);
      if r.exit then ReturnToMenu(c.(outputs := r.outputs, actuatorFirstCall := true))
      else Pass(c.(screen := ActuatorControl(r.loop), outputs := r.outputs), r.repaint)
    case ThresholdEdit(k, g) =>
      var r := ThresholdStep(g, c.limits.Get(k), cur, now);
      var c' := c.(limits := c.limits.Set(k, r.value));
      if r.exit then ReturnToMenu(c') else Pass(c'.(screen := ThresholdEdit(k, r.gate)), r.repaint)
  }

  /** One joystick sample with the tick at which it is read. */
  datatype Sample = Sample(joystick: bv32, tick: uint32)

  /** The console after a sequence of samples, first sample first. */
  function RunFrom(c: Console, samples: seq<Sample>): Console
    decreases |samples|
  {
    if samples == [] then c
    else RunFrom(ConsoleStep(c, samples[0].joystick, samples[0].tick).console, samples[1..])
  }

  /** Running a prefix and then the rest is running the whole sequence. */
  lemma {:induction false} RunFromSplit(c: Console, samples: seq<Sample>, k: nat)
    requires k <= |samples|
    ensures RunFrom(c, samples) == RunFrom(RunFrom(c, samples[..k]), samples[k..])
    decreases k
  {
    if k > 0 {
      var c1 := ConsoleStep(c, samples[0].joystick, samples[0].tick).console;
      RunFromSplit(c1, samples[1..], k - 1);
      assert samples[..k][0] == samples[0];
      assert samples[..k][1..] == samples[1..][..k - 1];
      assert samples[1..][k - 1..] == samples[k..];
    }
  }

  /**
   * What holds between any two samples: both indices in range, last_menu in
   * step with selected_menu, the menu drawn once, actuator_control's
   * first_call set exactly while that screen is closed, thresholds within
   * [0, 5000].
   */
  ghost predicate ConsoleValid(c: Console) {
    && 0 <= c.selectedMenu < MENU_ITEMS
    && c.lastMenu == c.selectedMenu
    && !c.menuFirstCall
    && (c.screen.ActuatorControl? <==> !c.actuatorFirstCall)
    && (c.screen.ActuatorControl? ==> ActuatorLoopValid(c.screen.loop))
    && c.limits.AllReachable()
  }

  lemma StartIsValid()
    ensures ConsoleValid(CONSOLE_AT_START)
  {
  }

  lemma ConsoleStepKeepsValid(c: Console, cur: bv32, now: uint32)
    requires ConsoleValid(c)
    ensures ConsoleValid(ConsoleStep(c, cur, now).console)
  {
    match c.screen
    case MainMenu =>
    case SensorView(g) =>
    case ActuatorControl(s) =>
    case ThresholdEdit(k, g) =>
      var r := ThresholdStep(g, c.limits.Get(k), cur, now);
      assert Reachable(c.limits.Get(k));
      var l := c.limits.Set(k, r.value);
      assert l.Get(Heater) == l.heater && l.Get(Sprinkler) == l.sprinkler && l.Get(Light) == l.light;
  }

  /** Whatever the joystick does, the menu index stays in [0, 5] and the actuator index in [0, 2]. */
  lemma {:induction false} RunKeepsValid(c: Console, samples: seq<Sample>)
    requires ConsoleValid(c)
    ensures ConsoleValid(RunFrom(c, samples))
    ensures 0 <= RunFrom(c, samples).selectedMenu <= 5
    ensures RunFrom(c, samples).screen.ActuatorControl? ==> 0 <= RunFrom(c, samples).screen.loop.selected <= 2
    decreases |samples|
  {
    if samples != [] {
      ConsoleStepKeepsValid(c, samples[0].joystick, samples[0].tick);
      RunKeepsValid(ConsoleStep(c, samples[0].joystick, samples[0].tick).console, samples[1..]);
    }
  }

  lemma ConsoleStepKeepsAdcRange(c: Console, cur: bv32, now: uint32)
    requires c.limits.AllInAdcRange()
    ensures ConsoleStep(c, cur, now).console.limits.AllInAdcRange()
  {
    match c.screen
    case MainMenu =>
    case SensorView(g) =>
    case ActuatorControl(s) =>
    case ThresholdEdit(k, g) =>
      var r := ThresholdStep(g, c.limits.Get(k), cur, now);
      assert InAdcRange(c.limits.Get(k));
      var l := c.limits.Set(k, r.value);
      assert l.Get(Heater) == l.heater && l.Get(Sprinkler) == l.sprinkler && l.Get(Light) == l.light;
  }

  /** Thresholds inside [0, 4095] stay inside it under any sequence of adjustments. */
  lemma {:induction false} RunKeepsAdcRange(c: Console, samples: seq<Sample>)
    requires c.limits.AllInAdcRange()
    ensures RunFrom(c, samples).limits.AllInAdcRange()
    decreases |samples|
  {
    if samples != [] {
      ConsoleStepKeepsAdcRange(c, samples[0].joystick, samples[0].tick);
      RunKeepsAdcRange(ConsoleStep(c, samples[0].joystick, samples[0].tick).console, samples[1..]);
    }
  }

  /** From the start, one Down moves the highlight to entry 1 and repaints rows 0 and 1 only. */
  lemma FirstDownRepaintsTwoRows(now: uint32)
    ensures ConsoleStep(CONSOLE_AT_START, JOY_DOWN, now)
      == Pass(CONSOLE_AT_START.(selectedMenu := 1, lastMenu := 1), Rows({0, 1}))
  {
  }

  /**
   * The menu has no edge detection and a screen's previous sample starts at
   * 0: with Center held on the sensor entry, the view opens, the first
   * sample once the tick counter is past 100 closes it, and the next menu
   * pass opens it again.
   */
  lemma HeldCenterReopensScreen(c: Console, t1: uint32, t2: uint32, t3: uint32)
    requires ConsoleValid(c) && c.screen == MainMenu && c.selectedMenu == 0
    requires t2 >= DEBOUNCE_TIME
    ensures var p1 := ConsoleStep(c, JOY_CENTER, t1);
      var p2 := ConsoleStep(p1.console, JOY_CENTER, t2);
      var p3 := ConsoleStep(p2.console, JOY_CENTER, t3);
      p1.console.screen == SensorView(GATE_AT_ENTRY)
      && p2.console.screen == MainMenu
      && p3.console.screen == SensorView(GATE_AT_ENTRY)
  {
  }

  // ------------------------------------------------------ one screen until it closes

  /** A screen loop fed samples until its Center exit or the end of the samples. */
  datatype SensorRun = SensorRun(used: nat, exited: bool, gate: Gate)

  function RunSensors(g: Gate, samples: seq<Sample>): (r: SensorRun)
    ensures r.used <= |samples|
    ensures r.exited ==> r.used > 0
    ensures !r.exited ==> r.used == |samples|
    decreases |samples|
  {
    if samples == [] then SensorRun(0, false, g)
    else
      var r := SensorStep(g, samples[0].joystick, samples[0].tick);
      if r.exit then SensorRun(1, true, r.gate)
      else var rest := RunSensors(r.gate, samples[1..]); rest.(used := rest.used + 1)
  }

  datatype ActuatorRun = ActuatorRun(used: nat, exited: bool, loop: ActuatorLoop, outputs: Outputs)

  function RunActuators(s: ActuatorLoop, o: Outputs, samples: seq<Sample>): (r: ActuatorRun)
    ensures r.used <= |samples|
    ensures r.exited ==> r.used > 0
    ensures !r.exited ==> r.used == |samples|
    ensures ActuatorLoopValid(s) ==> ActuatorLoopValid(r.loop)
    decreases |samples|
  {
    if samples == [] then ActuatorRun(0, false, s, o)
    else
      var r := ActuatorStep(s, o, samples[0].joystick, samples[0].tick);
      if r.exit then ActuatorRun(1, true, r.loop, r.outputs)
      else var rest := RunActuators(r.loop, r.outputs, samples[1..]); rest.(used := rest.used + 1)
  }

  datatype ThresholdRun = ThresholdRun(used: nat, exited: bool, gate: Gate, value: int)

  function RunThreshold(g: Gate, v: int, samples: seq<Sample>): (r: ThresholdRun)
    ensures r.used <= |samples|
    ensures r.exited ==> r.used > 0
    ensures !r.exited ==> r.used == |samples|
    ensures InAdcRange(v) ==> InAdcRange(r.value)
    ensures Reachable(v) ==> Reachable(r.value)
    decreases |samples|
  {
    if samples == [] then ThresholdRun(0, false, g, v)
    else
      var r := ThresholdStep(g, v, samples[0].joystick, samples[0].tick);
      if r.exit then ThresholdRun(1, true, r.gate, r.value)
      else var rest := RunThreshold(r.gate, r.value, samples[1..]); rest.(used := rest.used + 1)
  }

  /** One more sample of an open actuator screen, at position `i` of the samples. */
  lemma RunActuatorsAt(s: ActuatorLoop, o: Outputs, samples: seq<Sample>, i: nat)
    requires i < |samples|
    ensures var r := ActuatorStep(s, o, samples[i].joystick, samples[i].tick);
      RunActuators(s, o, samples[i..])
        == if r.exit then ActuatorRun(1, true, r.loop, r.outputs)
           else var rest := RunActuators(r.loop, r.outputs, samples[i + 1..]); rest.(used := rest.used + 1)
  {
    assert samples[i..][0] == samples[i] && samples[i..][1..] == samples[i + 1..];
  }

  /** One more sample of an open threshold screen, at position `i` of the samples. */
  lemma RunThresholdAt(g: Gate, v: int, samples: seq<Sample>, i: nat)
    requires i < |samples|
    ensures var r := ThresholdStep(g, v, samples[i].joystick, samples[i].tick);
      RunThreshold(g, v, samples[i..])
        == if r.exit then ThresholdRun(1, true, r.gate, r.value)
           else var rest := RunThreshold(r.gate, r.value, samples[i + 1..]); rest.(used := rest.used + 1)
  {
    assert samples[i..][0] == samples[i] && samples[i..][1..] == samples[i + 1..];
  }

  /** The sensor loop is the screen machine while the sensor view is open. */
  lemma {:induction false} RunSensorsIsRunFrom(c: Console, g: Gate, samples: seq<Sample>)
    requires c.screen == SensorView(g)
    ensures var r := RunSensors(g, samples);
      RunFrom(c, samples[..r.used]) == if r.exited then ReturnToMenu(c).console else c.(screen := SensorView(r.gate))
    decreases |samples|
  {
    if samples != [] {
      var r := RunSensors(g, samples);
      var r0 := SensorStep(g, samples[0].joystick, samples[0].tick);
      assert samples[..r.used][0] == samples[0];
      assert samples[..r.used][1..] == samples[1..][..r.used - 1];
      if !r0.exit {
        RunSensorsIsRunFrom(c.(screen := SensorView(r0.gate)), r0.gate, samples[1..]);
      }
    }
  }

  /** The actuator loop is the screen machine while actuator control is open. */
  lemma {:induction false} RunActuatorsIsRunFrom(c: Console, s: ActuatorLoop, samples: seq<Sample>)
    requires c.screen == ActuatorControl(s)
    ensures var r := RunActuators(s, c.outputs, samples);
      RunFrom(c, samples[..r.used])
        == if r.exited then ReturnToMenu(c.(outputs := r.outputs, actuatorFirstCall := true)).console
           else c.(screen := ActuatorControl(r.loop), outputs := r.outputs)
    decreases |samples|
  {
    if samples != [] {
      var r := RunActuators(s, c.outputs, samples);
      var r0 := ActuatorStep(s, c.outputs, samples[0].joystick, samples[0].tick);
      assert samples[..r.used][0] == samples[0];
      assert samples[..r.used][1..] == samples[1..][..r.used - 1];
      if !r0.exit {
        RunActuatorsIsRunFrom(c.(screen := ActuatorControl(r0.loop), outputs := r0.outputs), r0.loop, samples[1..]);
      }
    }
  }

  /** An adjust-threshold loop is the screen machine while that screen is open. */
  lemma {:induction false} RunThresholdIsRunFrom(c: Console, k: Actuator, g: Gate, samples: seq<Sample>)
    requires c.screen == ThresholdEdit(k, g)
    ensures var r := RunThreshold(g, c.limits.Get(k), samples);
      RunFrom(c, samples[..r.used])
        == if r.exited then ReturnToMenu(c.(limits := c.limits.Set(k, r.value))).console
           else c.(screen := ThresholdEdit(k, r.gate), limits := c.limits.Set(k, r.value))
    decreases |samples|
  {
    var r := RunThreshold(g, c.limits.Get(k), samples);
    if samples == [] {
      LimitsSetSame(c.limits, k);
    } else {
      var r0 := ThresholdStep(g, c.limits.Get(k), samples[0].joystick, samples[0].tick);
      assert samples[..r.used][0] == samples[0];
      assert samples[..r.used][1..] == samples[1..][..r.used - 1];
      if !r0.exit {
        var c1 := c.(screen := ThresholdEdit(k, r0.gate), limits := c.limits.Set(k, r0.value));
        RunThresholdIsRunFrom(c1, k, r0.gate, samples[1..]);
        LimitsSetTwice(c.limits, k, r0.value, r.value);
      }
    }
  }
}
