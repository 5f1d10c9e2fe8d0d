/**
 * The debounce gate every console screen except the main menu applies:
 * an action fires only on a rising edge of its joystick bit and only when at
 * least DEBOUNCE_TIME ticks have passed since the screen's last accepted
 * action, the elapsed time being computed in unsigned 32-bit arithmetic.
 */
module Debounce {
  import opened Board

  const DEBOUNCE_TIME: uint32 := 100

  /** The tick counter wraps around at 2^32. */
  const TICK_MODULUS := 0x1_0000_0000

  /** `currentTime - last_action_time` on uint32_t operands: `last + d` is `now`, modulo 2^32. */
  function Elapsed(now: uint32, last: uint32): (d: uint32)
    ensures last as int + d as int == now as int || last as int + d as int == now as int + TICK_MODULUS
  {
    if now >= last then now - last else (now as int - last as int + TICK_MODULUS) as uint32
  }

  /** The tick counter `d` ticks after it read `last`. */
  function After(last: uint32, d: nat): uint32 {
    ((last as int + d) % TICK_MODULUS) as uint32
  }

  /** The debounce window since the last accepted action has passed. */
  predicate GateOpen(now: uint32, last: uint32) {
    Elapsed(now, last) >= DEBOUNCE_TIME
  }

  /** The gate opens exactly DEBOUNCE_TIME ticks after an action, also across a wrap of the counter. */
  lemma GateOpensAfterWindow(last: uint32, d: nat)
    requires d < TICK_MODULUS
    ensures GateOpen(After(last, d), last) <==> d >= DEBOUNCE_TIME as int
  {
    var now := After(last, d);
    var e := Elapsed(now, last);
    assert now as int == last as int + d || now as int == last as int + d - TICK_MODULUS;
    assert e as int == d;
  }

  /** `mask` has a bit set in the current sample and none in the previous one. */
  predicate RisingEdge(cur: bv32, prev: bv32, mask: bv32) {
    cur & mask != 0 && prev & mask == 0
  }

  /**
   * The loop-local debounce state of a screen: the previous joystick sample
   * (prev_joystick_state) and the tick of the last accepted action
   * (last_action_time).
   */
  datatype Gate = Gate(prev: bv32, last: uint32)

  /** Both locals start at 0 on every entry to a screen. */
  const GATE_AT_ENTRY := Gate(0, 0)

  /** An action on `mask` is accepted in this sample. */
  predicate Accepts(g: Gate, cur: bv32, now: uint32, mask: bv32) {
    GateOpen(now, g.last) && RisingEdge(cur, g.prev, mask)
  }
}
