/** The arithmetic helpers of util.h. */
module Util {

  /** `MAX(a, b)`: `a` when `a > b`, otherwise `b`. */
  function Max(a: int, b: int): (r: int)
    ensures r >= a && r >= b
    ensures r == a || r == b
  {
    if a > b then a else b
  }

  /** `MIN(a, b)`: `a` when `a < b`, otherwise `b`. */
  function Min(a: int, b: int): (r: int)
    ensures r <= a && r <= b
    ensures r == a || r == b
  {
    if a < b then a else b
  }

  /**
   * `JB_LIMIT(var, max, min)`, the new value of `var`: at least `min`, at most
   * `max` when the bounds are ordered, `min` when they are not, and `var`
   * itself when it already lies within them.
   */
  function Limit(v: int, max: int, min: int): (r: int)
    ensures r >= min
    ensures min <= max ==> r <= max
    ensures min > max ==> r == min
    ensures min <= v <= max ==> r == v
    ensures min <= max && v < min ==> r == min
    ensures min <= max && v > max ==> r == max
  {
    Max(Min(v, max), min)
  }

  /** `JB_SWAP(type, a, b)`: the two variables exchange their values. */
  method Swap<T>(a: T, b: T) returns (a': T, b': T)
    ensures a' == b && b' == a
  {
    var c := a;
    a' := b;
    b' := c;
  }

  /** `abs` on `int`. */
  function Abs(x: int): (r: nat)
    ensures r == x || r == -x
  {
    if x < 0 then -x else x
  }

  /** C's `d / 2` on `int`: the quotient is truncated toward zero. */
  function Half(d: int): (q: int)
    ensures d - 2 * q == 0 || d - 2 * q == (if d < 0 then -1 else 1)
    ensures d >= 0 ==> 0 <= q <= d
    ensures d < 0 ==> d <= q <= 0
  {
    if d >= 0 then d / 2 else -((-d) / 2)
  }

  /** Appending is associative: the regrouping step of every request log. */
  lemma AppendAssoc<T>(a: seq<T>, b: seq<T>, c: seq<T>)
    ensures a + b + c == a + (b + c)
  {
  }

  /** Conversion to `int16_t`: two's-complement truncation to 16 bits. */
  function ToInt16(x: int): (r: int)
    ensures -32768 <= r <= 32767
    ensures -32768 <= x <= 32767 ==> r == x
    ensures (x - r) % 65536 == 0
  {
    (x + 32768) % 65536 - 32768
  }
}
