# Manual-override setpoint controller

This project models the manual-override firmware in `src/main.cpp`. The
firmware keeps one 16-bit setpoint, `control_val`, which starts at the
midpoint of `[CONTROL_MIN, CONTROL_MAX] = [0, 180]`. Each pass of the
main loop reads every byte waiting on the serial port. It feeds each byte to
the command interpreter `control` and then writes the setpoint to the water
servo. `control` understands these commands:

- `+` and `-` step the setpoint by `CONTROL_INTERVAL`.
- `1` and `0` snap it to the upper and lower bound.
- `=` resets it to the midpoint.
- `p` only asks for a status line.

Every other byte is ignored. After every byte the setpoint is re-clamped with
the `CLAMP` macro. Every recognised command raises a print flag.

The model has four modules:

- `CTypes` (`ctypes.dfy`) holds the C `short` and byte types. It also has the
  two implicit conversions into `short` that `control` performs:
  - 16-bit wrap-around when `*val += interval` is stored back;
  - truncation toward zero when the double `0.5*(max+min)` is stored.
- `ClampMacro` (`clamp.dfy`) is the `CLAMP(x, max, min)` macro, with its
  upper bound first as in the source.
- `Override` (`control.dfy`) has:
  - `ByteChar`, the received byte as the `char` argument;
  - `Step`, a function that specifies one call of `control`;
  - `ShortRef`, a class standing for the `short *` argument;
  - `Control`, the imperative `control` that updates the cell;
  - `Run` and `Printed`, the left folds over a batch of bytes.
- `Firmware` (`firmware.dfy`) has the constants, and a `Board` class that owns
  `control_val`. `Board.Loop` drains one batch of bytes with a `while` loop,
  proved equal to the fold.

The proved properties:

- Every command leaves the setpoint inside `[min, max]` whenever `min <= max`.
- Ignored bytes leave an in-range setpoint unchanged.
- For any `interval`, `-` undoes a `+` that starts and ends inside the range.
- Snapping commands are idempotent.
- Draining a batch is a left fold, and draining `a + b` is draining `a`,
  then `b`.
- From an in-range setpoint (which `control_val` always is), noise bytes can
  be removed from a batch without changing the end state or the printed
  lines.
- With the firmware's constants, `+` and `-` move by exactly one and stop at
  the bounds.

## Model

| member | source | states |
|---|---|---|
| `CTypes.ToShort` | src/main.cpp:35-43 | the stored sum or difference is congruent to the true one modulo 2^16, and equal to it when it fits in a `short` |
| `CTypes.Midpoint` | src/main.cpp:55-56 | `0.5*(max+min)` stored in a `short` is half the sum truncated toward zero, and lies in `[min, max]` when `min <= max` |
| `ClampMacro.Clamp` | src/main.cpp:9-13 | the result is one of `x`, `max` or `min`; it lies in `[min, max]` when `min <= max`; an `x` already in range is returned unchanged |
| `ClampMacro.ClampIdempotent` | src/main.cpp:9-13 | clamping a clamped value changes nothing |
| `ClampMacro.ClampNearest` | src/main.cpp:9-13 | the clamped value is the point of `[min, max]` nearest to `x` |
| `ClampMacro.ClampMonotone` | src/main.cpp:9-13 | clamping preserves order |
| `ClampMacro.ClampInvertedBounds` | src/main.cpp:9-13 | with `max < min` the macro yields `max` for `x > max` and `min` otherwise |
| `Override.Step` | src/main.cpp:32-65 | one call leaves the setpoint in `[min, max]` when `min <= max`; the print flag is raised exactly for `+ - 1 0 = p`; `p` and unrecognised bytes leave an in-range setpoint unchanged |
| `Override.Control` | src/main.cpp:32-66 | the imperative `control` updates `*val` and returns the print flag exactly as `Step` specifies |
| `Override.StepExactMove` | src/main.cpp:35-43 | for any `interval` and any start value, a `+` or `-` whose exact result lies in `[min, max]` yields exactly that result and prints |
| `Override.StepSaturates` | src/main.cpp:35-62 | a `+` or `-` whose exact result fits in a `short` but lies above `max` stops at `max`, and one below `min` stops at `min`; this covers a negative `interval` taking `+` to `min` and `-` to `max` |
| `Override.StepWrapsAtShortLimit` | src/main.cpp:35-62 | for every input, a `+` or `-` whose exact result is at or above 2^15 is clamped as that result minus 2^16, and one below -2^15 as that result plus 2^16; so `+` from 32767 with bounds `[0, 32767]` lands on 0 |
| `Override.StepSnaps` | src/main.cpp:45-59 | `1` gives exactly `max`, `0` exactly `min`, `=` the midpoint (through the fall-through into `p`), all printing |
| `Override.ByteChar` | src/main.cpp:83 | the byte from `Serial.read()` becomes the `char c` with the same code; it reaches a `switch` arm exactly when the code is 43, 45, 48, 49, 61 or 112, and never when it is 128 or above |
| `Override.ByteCharInjective` | src/main.cpp:83 | distinct received bytes reach `control` as distinct characters |
| `Override.StepIgnores` | src/main.cpp:34-62 | a byte that matches no case only re-clamps the setpoint and does not print |
| `Override.StepIncDecInverse` | src/main.cpp:35-43 | for any `interval`, negative ones included, `-` undoes a `+` whose start and result both lie inside the range |
| `Override.StepSnapIdempotent` | src/main.cpp:45-62 | sending `1`, `0`, `=` or `p` twice has the effect of sending it once |
| `Override.Run` | src/main.cpp:81-84 | the setpoint after a batch is the left fold of `Step`, in `[min, max]` when the batch is non-empty or the start value was in range |
| `Override.Printed` | src/main.cpp:58-64 | the status lines of a batch are at most one per byte, and each shows an in-range value |
| `Override.RunAppend` | src/main.cpp:81-84 | draining `a + b` ends where draining `a` then `b` does, and prints the lines of `a` followed by those of `b` |
| `Override.RunSnoc` | src/main.cpp:81-84 | one more byte is one more `Step` on the state reached so far |
| `Override.RunIgnoresNoise` | src/main.cpp:81-84 | from an in-range setpoint, dropping every non-command byte from a batch changes neither the end state nor the printed lines |
| `Override.PrintedCount` | src/main.cpp:58-64 | a batch prints exactly one status line per command byte |
| `Firmware.Board.constructor` | src/main.cpp:29 | `control_val` starts at 90, inside `[CONTROL_MIN, CONTROL_MAX]` |
| `Firmware.Board.Loop` | src/main.cpp:81-88 | after a pass, `control_val` is the fold of `control` over the pending bytes in arrival order; it stays in range; the log grows by that batch's status lines; the servo receives `control_val` |
| `Firmware.DrainInRange` | src/main.cpp:81-84 | any batch leaves the setpoint and every printed value inside `[0, 180]` |
| `Firmware.DeploymentSteps` | src/main.cpp:18-20 | with the firmware's constants, `+` and `-` move by one and stop at the bounds, and `=` gives 90 |
| `Firmware.DrainRepeatedIncrement` | src/main.cpp:35-38 | `k` bytes of `+` raise an in-range setpoint by `k`, up to 180 |

## Left out

- `setup()` (src/main.cpp:68-79) only sets pin modes, the PWM range and frequency, the serial baud rate and the servo pins. It contains no logic.
- Serial I/O: `Serial.available()` and `Serial.read()` are replaced by the batch of bytes pending at the start of a pass, given as a `seq<byte>`. The model does not cover bytes that arrive while a batch is being drained.
- `Serial.printf`: only the value shown is modelled, as the print flag and the `Board.log` entry. The text format is not modelled. The source prints the global `control_val` rather than `*val`. In the only call, `val` points to `control_val`, so the two agree.
- `water_servo.write` and `door_servo`: only the angle handed to the servo is kept, as `servoAngle`. Its value before the first pass is not meaningful. The commented-out `analogWrite` is not modelled.
- `src/config_template.h` holds pin numbers, HTTP intervals, the API host and the certificate fingerprint. The manual-override loop uses none of them.
- Storing an out-of-range `int` into a `short` is modelled as wrap-around modulo 2^16. The C++ standard before C++20 leaves this implementation-defined. The compiler the firmware targets wraps. With the firmware's constants it never happens (`Firmware.DeploymentSteps`).
- The signedness of `char` is not modelled. Every case label is ASCII, so a byte at or above 128 matches no case either way (`Override.ByteChar`).
