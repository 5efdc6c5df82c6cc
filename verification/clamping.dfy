/**
 Bounding a value from below and above, as used by the engine to keep ratings
 in range and by the optimizer to project candidate points into a box.
 */
module Clamping {

  /**
   `low` if `v` is below it, otherwise `high` if `v` is above that, otherwise `v`.
   The lower test comes first, so with `low > high` a value below `low` yields `low`.
   */
  function Clamp(low: real, v: real, high: real): (c: real)
    ensures v < low ==> c == low
    ensures low <= v && high < v ==> c == high
    ensures low <= v <= high ==> c == v
  {
    if v < low then low
    else if v > high then high
    else v
  }

  /** With a non-empty interval the result lies inside it. */
  lemma ClampWithin(low: real, v: real, high: real)
    requires low <= high
    ensures low <= Clamp(low, v, high) <= high
  {
  }

  /** A value already inside the interval is returned unchanged. */
  lemma ClampIdentity(low: real, v: real, high: real)
    requires low <= v <= high
    ensures Clamp(low, v, high) == v
  {
  }

  /** Clamping twice is clamping once. */
  lemma ClampIdempotent(low: real, v: real, high: real)
    requires low <= high
    ensures Clamp(low, Clamp(low, v, high), high) == Clamp(low, v, high)
  {
    ClampWithin(low, v, high);
    ClampIdentity(low, Clamp(low, v, high), high);
  }

  /** Clamping preserves the order of its argument. */
  lemma ClampMonotone(low: real, v1: real, v2: real, high: real)
    requires low <= high
    requires v1 <= v2
    ensures Clamp(low, v1, high) <= Clamp(low, v2, high)
  {
  }
}
