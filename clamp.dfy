/** The `CLAMP(x, max, min)` macro: a value above `max` becomes `max`,
    a value below `min` becomes `min`, anything else is left as it is.
    The arguments keep the macro's order: the upper bound comes first. */
module ClampMacro {

  function Clamp(x: int, max: int, min: int): (r: int)
    ensures r == x || r == max || r == min
    ensures min <= max ==> min <= r <= max
    ensures min <= x <= max ==> r == x
  {
    if x > max then max else if x < min then min else x
  }

  function Dist(a: int, b: int): nat
  {
    if a < b then b - a else a - b
  }

  /** Clamping an already clamped value changes nothing. */
  lemma ClampIdempotent(x: int, max: int, min: int)
    requires min <= max
    ensures Clamp(Clamp(x, max, min), max, min) == Clamp(x, max, min)
  {
  }

  /** The clamped value is the point of `[min, max]` nearest to `x`. */
  lemma ClampNearest(x: int, max: int, min: int, y: int)
    requires min <= y <= max
    ensures Dist(Clamp(x, max, min), x) <= Dist(y, x)
  {
  }

  /** Clamping preserves the order of its inputs. */
  lemma ClampMonotone(x: int, y: int, max: int, min: int)
    requires min <= max && x <= y
    ensures Clamp(x, max, min) <= Clamp(y, max, min)
  {
  }

  /** With the bounds given the wrong way round the macro never yields a
      value strictly between them: the first test wins for large `x`,
      the second for every other. */
  lemma ClampInvertedBounds(x: int, max: int, min: int)
    requires max < min
    ensures Clamp(x, max, min) == (if x > max then max else min)
  {
  }
}
