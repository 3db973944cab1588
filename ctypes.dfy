/** The C integer types the controller works with, and the two conversions
    into `short` that its arithmetic performs implicitly. */
module CTypes {

  /** A 16-bit signed `short`, the type of the setpoint and of the
      parameters of `control`. */
  newtype short = x: int | -0x8000 <= x < 0x8000

  /** One byte as returned by the serial port's read. */
  newtype byte = x: int | 0 <= x < 0x100

  /** Narrowing an `int` into a `short` on assignment (`*val += interval`):
      the value is kept modulo 2^16, as the target compiler does. */
  function ToShort(x: int): (r: short)
    ensures -0x8000 <= x < 0x8000 ==> r as int == x
    ensures (x - r as int) % 0x10000 == 0
  {
    ((x + 0x8000) % 0x10000 - 0x8000) as short
  }

  /** `0.5*(max+min)` stored into a `short`: the double is halved exactly
      and the conversion truncates toward zero. */
  function Midpoint(max: short, min: short): (r: short)
    ensures var s := max as int + min as int;
      if s >= 0 then 0 <= s - 2 * r as int <= 1 else 0 <= 2 * r as int - s <= 1
    ensures min <= max ==> min <= r <= max
  {
    var s := max as int + min as int;
    (if s >= 0 then s / 2 else -((-s) / 2)) as short
  }
}
