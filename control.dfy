/** The manual-override command interpreter `control(c, val, max, min,
    interval)`: one received character updates the setpoint behind `val`
    and may ask for a status line. */
module Override {
  import opened CTypes
  import opened ClampMacro

  /** The characters `control` acts on; every other one is ignored. */
  const Commands: seq<char> := "+-10=p"

  /** `Serial.read()`'s result passed as the `char c` that `control`
      switches on. The character keeps the byte's code, so exactly six byte
      values reach a `switch` arm; that no byte at or above 128 does is a
      corollary, stated for the reader. */
  function ByteChar(b: byte): (c: char)
    ensures c as int == b as int
    ensures c in Commands <==> b as int in {43, 45, 48, 49, 61, 112}
    ensures b as int >= 128 ==> c !in Commands
  {
    (b as int) as char
  }

  /** What one call of `control` leaves behind: the new setpoint and
      whether the status line is printed. */
  datatype Outcome = Outcome(val: short, printFlag: bool)

  /** The specification of one call of `control`. The switch first moves the
      setpoint (`+`/`-` by `interval` with 16-bit wrap-around, `1`/`0` to
      the bounds, `=` to the midpoint), then the result is clamped. The `=`
      case falls through into `p`, so both raise the print flag. */
  function Step(c: char, v: short, max: short, min: short, interval: short): (r: Outcome)
    ensures min <= max ==> min <= r.val <= max
    ensures r.printFlag <==> c in Commands
    ensures (c == 'p' || c !in Commands) && min <= v <= max ==> r.val == v
  {
    var moved :=
      if c == '+' then ToShort(v as int + interval as int)
      else if c == '-' then ToShort(v as int - interval as int)
      else if c == '1' then max
      else if c == '0' then min
      else if c == '=' then Midpoint(max, min)
      else v;
    Outcome(Clamp(moved as int, max as int, min as int) as short, c in Commands)
  }

  /** The `short *` the setpoint is passed through. */
  class ShortRef {
    var value: short

    constructor (v: short)
      ensures value == v
    {
      value := v;
    }
  }

  /** `control` itself: updates `*val` in each switch arm, re-clamps, and
      returns the flag that decides whether the status line is printed. */
  method Control(c: char, val: ShortRef, max: short, min: short, interval: short) returns (p: bool)
    modifies val
    ensures val.value == Step(c, old(val.value), max, min, interval).val
    ensures p == Step(c, old(val.value), max, min, interval).printFlag
  {
    p := false;
    if c == '+' {
      val.value := ToShort(val.value as int + interval as int);
      p := true;
    } else if c == '-' {
      val.value := ToShort(val.value as int - interval as int);
      p := true;
    } else if c == '1' {
      val.value := max;
      p := true;
    } else if c == '0' {
      val.value := min;
      p := true;
    } else if c == '=' || c == 'p' {
      if c == '=' {
        val.value := Midpoint(max, min);
      }
      p := true;
    }
    val.value := Clamp(val.value as int, max as int, min as int) as short;
  }

  // Per-command behaviour of Step

  /** A `+` or `-` whose exact result lies in `[min, max]` lands on it,
      for any `interval` and any start value. */
  lemma StepExactMove(v: short, max: short, min: short, interval: short)
    ensures min as int <= v as int + interval as int <= max as int ==>
      Step('+', v, max, min, interval) == Outcome((v as int + interval as int) as short, true)
    ensures min as int <= v as int - interval as int <= max as int ==>
      Step('-', v, max, min, interval) == Outcome((v as int - interval as int) as short, true)
    ensures Step('+', -5, 10, 0, 8).val == 3
  {
  }

  /** A step past a bound stops at that bound, as long as the exact result
      fits in a `short`; with a negative `interval`, `+` can stop at `min`
      and `-` at `max`. */
  lemma StepSaturates(v: short, max: short, min: short, interval: short)
    requires min <= max
    ensures max as int < v as int + interval as int < 0x8000 ==> Step('+', v, max, min, interval).val == max
    ensures -0x8000 <= v as int + interval as int < min as int ==> Step('+', v, max, min, interval).val == min
    ensures -0x8000 <= v as int - interval as int < min as int ==> Step('-', v, max, min, interval).val == min
    ensures max as int < v as int - interval as int < 0x8000 ==> Step('-', v, max, min, interval).val == max
    ensures Step('+', 5, 10, 0, -8).val == 0
  {
  }

  /** When the exact result leaves the `short` range it wraps before the
      clamp sees it: a result at or above 2^15 is clamped as that result
      minus 2^16, one below -2^15 as that result plus 2^16. So `+` from
      32767 with `max` 32767 and `min` 0 lands on `min`, and `+` of -1 from
      -32768 with bounds `[0, 10]` lands on `max`. */
  lemma StepWrapsAtShortLimit(v: short, max: short, min: short, interval: short)
    ensures 0x8000 <= v as int + interval as int ==>
      Step('+', v, max, min, interval).val as int == Clamp(v as int + interval as int - 0x10000, max as int, min as int)
    ensures v as int + interval as int < -0x8000 ==>
      Step('+', v, max, min, interval).val as int == Clamp(v as int + interval as int + 0x10000, max as int, min as int)
    ensures v as int - interval as int < -0x8000 ==>
      Step('-', v, max, min, interval).val as int == Clamp(v as int - interval as int + 0x10000, max as int, min as int)
    ensures 0x8000 <= v as int - interval as int ==>
      Step('-', v, max, min, interval).val as int == Clamp(v as int - interval as int - 0x10000, max as int, min as int)
    ensures Step('+', 0x7fff, 0x7fff, 0, 1).val == 0
    ensures Step('+', -0x8000, 10, 0, -1).val == 10
  {
  }

  /** `1` and `0` snap to the bounds, `=` to their midpoint. */
  lemma StepSnaps(v: short, max: short, min: short, interval: short)
    requires min <= max
    ensures Step('1', v, max, min, interval) == Outcome(max, true)
    ensures Step('0', v, max, min, interval) == Outcome(min, true)
    ensures Step('=', v, max, min, interval) == Outcome(Midpoint(max, min), true)
  {
  }

  /** A character outside the command set leaves an in-range setpoint
      alone and prints nothing; an out-of-range one is only clamped. */
  lemma StepIgnores(c: char, v: short, max: short, min: short, interval: short)
    requires c !in Commands
    ensures Step(c, v, max, min, interval) == Outcome(Clamp(v as int, max as int, min as int) as short, false)
  {
  }

  /** `-` undoes `+` when both the start and the step up lie inside the
      range, for any `interval`, negative ones included. */
  lemma StepIncDecInverse(v: short, max: short, min: short, interval: short)
    requires min <= v <= max && min as int <= v as int + interval as int <= max as int
    ensures Step('-', Step('+', v, max, min, interval).val, max, min, interval).val == v
  {
  }

  /** Repeating `1`, `0`, `=` or `p` has the same effect as sending it once. */
  lemma StepSnapIdempotent(c: char, v: short, max: short, min: short, interval: short)
    requires min <= max && c in "10=p"
    ensures var once := Step(c, v, max, min, interval);
      Step(c, once.val, max, min, interval) == once
  {
  }

  /** Distinct bytes reach `control` as distinct characters. */
  lemma ByteCharInjective(b: byte, b': byte)
    ensures ByteChar(b) == ByteChar(b') ==> b == b'
  {
  }

  // The batch of bytes drained by one pass of the serial loop

  /** The setpoint after feeding `input` to `control` in arrival order:
      the left fold of Step over the bytes. */
  function Run(v: short, input: seq<byte>, max: short, min: short, interval: short): (r: short)
    ensures min <= max && (min <= v <= max || |input| > 0) ==> min <= r <= max
    decreases |input|
  {
    if input == [] then v
    else Run(Step(ByteChar(input[0]), v, max, min, interval).val, input[1..], max, min, interval)
  }

  /** The values of the status lines printed while `input` is drained, in
      order: one per byte that raises the print flag. */
  function Printed(v: short, input: seq<byte>, max: short, min: short, interval: short): (r: seq<short>)
    ensures |r| <= |input|
    ensures min <= max ==> forall i :: 0 <= i < |r| ==> min <= r[i] <= max
    decreases |input|
  {
    if input == [] then []
    else
      var o := Step(ByteChar(input[0]), v, max, min, interval);
      (if o.printFlag then [o.val] else []) + Printed(o.val, input[1..], max, min, interval)
  }

  /** Draining two batches one after the other is draining their
      concatenation. */
  lemma {:induction false} RunAppend(v: short, a: seq<byte>, b: seq<byte>, max: short, min: short, interval: short)
    ensures Run(v, a + b, max, min, interval) == Run(Run(v, a, max, min, interval), b, max, min, interval)
    ensures Printed(v, a + b, max, min, interval)
      == Printed(v, a, max, min, interval) + Printed(Run(v, a, max, min, interval), b, max, min, interval)
    decreases |a|
  {
    if a != [] {
      assert (a + b)[0] == a[0];
      assert (a + b)[1..] == a[1..] + b;
      RunAppend(Step(ByteChar(a[0]), v, max, min, interval).val, a[1..], b, max, min, interval);
    } else {
      assert a + b == b;
    }
  }

  /** One more byte is one more Step on the state reached so far. */
  lemma RunSnoc(v: short, input: seq<byte>, x: byte, max: short, min: short, interval: short)
    ensures var w := Run(v, input, max, min, interval);
      var o := Step(ByteChar(x), w, max, min, interval);
      Run(v, input + [x], max, min, interval) == o.val
      && Printed(v, input + [x], max, min, interval)
         == Printed(v, input, max, min, interval) + (if o.printFlag then [o.val] else [])
  {
    RunAppend(v, input, [x], max, min, interval);
  }

  /** The bytes of `input` that `control` reacts to. */
  function CommandBytes(input: seq<byte>): (r: seq<byte>)
    ensures |r| <= |input|
    ensures forall i :: 0 <= i < |r| ==> ByteChar(r[i]) in Commands
    decreases |input|
  {
    if input == [] then []
    else (if ByteChar(input[0]) in Commands then [input[0]] else []) + CommandBytes(input[1..])
  }

  /** Noise on the serial line changes nothing: from an in-range setpoint,
      draining `input` ends where draining only its command bytes does,
      and prints the same status lines. */
  lemma {:induction false} RunIgnoresNoise(v: short, input: seq<byte>, max: short, min: short, interval: short)
    requires min <= v <= max
    ensures Run(v, input, max, min, interval) == Run(v, CommandBytes(input), max, min, interval)
    ensures Printed(v, input, max, min, interval) == Printed(v, CommandBytes(input), max, min, interval)
    decreases |input|
  {
    if input != [] {
      var c := ByteChar(input[0]);
      var o := Step(c, v, max, min, interval);
      RunIgnoresNoise(o.val, input[1..], max, min, interval);
      if c in Commands {
        assert CommandBytes(input) == [input[0]] + CommandBytes(input[1..]);
        RunAppend(v, [input[0]], CommandBytes(input[1..]), max, min, interval);
      } else {
        assert o.val == v;
        assert CommandBytes(input) == CommandBytes(input[1..]);
      }
    }
  }

  /** The printed count is the number of command bytes received. */
  lemma {:induction false} PrintedCount(v: short, input: seq<byte>, max: short, min: short, interval: short)
    ensures |Printed(v, input, max, min, interval)| == |CommandBytes(input)|
    decreases |input|
  {
    if input != [] {
      PrintedCount(Step(ByteChar(input[0]), v, max, min, interval).val, input[1..], max, min, interval);
    }
  }
}
