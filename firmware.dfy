/** The manual-override firmware: the global setpoint `control_val`, the
    constants it is steered with, and the main loop that drains the serial
    port into `control` and hands the setpoint to the water servo. */
module Firmware {
  import opened CTypes
  import opened Override

  const CONTROL_MAX: short := 180
  const CONTROL_MIN: short := 0
  const CONTROL_INTERVAL: short := 1

  /** `control_val`'s initial value, `0.5*(CONTROL_MAX+CONTROL_MIN)`. */
  const INITIAL_CONTROL_VAL: short := Midpoint(CONTROL_MAX, CONTROL_MIN)

  /** The setpoint after a batch of bytes, with the firmware's constants. */
  function Drain(v: short, input: seq<byte>): short
  {
    Run(v, input, CONTROL_MAX, CONTROL_MIN, CONTROL_INTERVAL)
  }

  /** The status lines printed while a batch of bytes is drained. */
  function DrainPrinted(v: short, input: seq<byte>): seq<short>
  {
    Printed(v, input, CONTROL_MAX, CONTROL_MIN, CONTROL_INTERVAL)
  }

  /** The board's state: `control_val` and what the loop last handed to
      the outside world. */
  class Board {
    /** `&control_val`, the cell `control` writes through. */
    const controlVal: ShortRef
    /** The angle last passed to `water_servo.write`. */
    var servoAngle: short
    /** Every status line printed so far, by the value it shows. */
    var log: seq<short>

    ghost predicate Valid()
      reads this, controlVal
    {
      CONTROL_MIN <= controlVal.value <= CONTROL_MAX
    }

    constructor ()
      ensures Valid() && fresh(controlVal)
      ensures controlVal.value == INITIAL_CONTROL_VAL == 90
      ensures log == []
    {
      controlVal := new ShortRef(Midpoint(CONTROL_MAX, CONTROL_MIN));
      servoAngle := 0;
      log := [];
    }

    /** One pass of `loop()`: `input` is every byte pending on the serial
        port, fed to `control` in arrival order; each call that raises the
        print flag logs `control_val`; then the servo gets `control_val`. */
    method Loop(input: seq<byte>)
      requires Valid()
      modifies this, controlVal
      ensures Valid()
      ensures controlVal.value == Drain(old(controlVal.value), input)
      ensures log == old(log) + DrainPrinted(old(controlVal.value), input)
      ensures servoAngle == controlVal.value
    {
      ghost var v0 := controlVal.value;
      var i := 0;
      while i < |input|
        invariant 0 <= i <= |input|
        invariant controlVal.value == Drain(v0, input[..i])
        invariant log == old(log) + DrainPrinted(v0, input[..i])
      {
        RunSnoc(v0, input[..i], input[i], CONTROL_MAX, CONTROL_MIN, CONTROL_INTERVAL);
        assert input[..i + 1] == input[..i] + [input[i]];
        var p := Control(ByteChar(input[i]), controlVal, CONTROL_MAX, CONTROL_MIN, CONTROL_INTERVAL);
        if p {
          log := log + [controlVal.value];
        }
        i := i + 1;
      }
      assert input[..i] == input;
      servoAngle := controlVal.value;
    }
  }

  /** Whatever arrives on the serial line, the setpoint stays inside
      `[CONTROL_MIN, CONTROL_MAX]`, and so does every printed value. */
  lemma DrainInRange(v: short, input: seq<byte>)
    requires CONTROL_MIN <= v <= CONTROL_MAX
    ensures CONTROL_MIN <= Drain(v, input) <= CONTROL_MAX
    ensures forall x :: x in DrainPrinted(v, input) ==> CONTROL_MIN <= x <= CONTROL_MAX
  {
  }

  /** With the firmware's constants a step never wraps: `+` and `-` move by
      one and stop at the bounds, and `=` goes to 90. */
  lemma DeploymentSteps(v: short)
    requires CONTROL_MIN <= v <= CONTROL_MAX
    ensures Step('+', v, CONTROL_MAX, CONTROL_MIN, CONTROL_INTERVAL).val == if v < CONTROL_MAX then v + 1 else CONTROL_MAX
    ensures Step('-', v, CONTROL_MAX, CONTROL_MIN, CONTROL_INTERVAL).val == if v > CONTROL_MIN then v - 1 else CONTROL_MIN
    ensures Step('=', v, CONTROL_MAX, CONTROL_MIN, CONTROL_INTERVAL).val == 90
  {
  }

  /** From any in-range setpoint, `k` bytes of `+` raise it by `k`, up to
      `CONTROL_MAX`. */
  lemma {:induction false} DrainRepeatedIncrement(v: short, k: nat)
    requires CONTROL_MIN <= v <= CONTROL_MAX
    ensures Drain(v, seq(k, _ => '+' as int as byte)) as int
      == if v as int + k < CONTROL_MAX as int then v as int + k else CONTROL_MAX as int
    decreases k
  {
    if k > 0 {
      var s := seq(k, _ => '+' as int as byte);
      assert s == [s[0]] + seq(k - 1, _ => '+' as int as byte);
      DeploymentSteps(v);
      var w := Step('+', v, CONTROL_MAX, CONTROL_MIN, CONTROL_INTERVAL).val;
      DrainRepeatedIncrement(w, k - 1);
      assert ByteChar(s[0]) == '+';
    }
  }
}
