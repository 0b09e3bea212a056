/**
 * Integer facts shared by the Rust and the Java side of the model: both
 * convert byte counts to megabytes by dividing twice (`/ 1024 / 1024` and
 * twenty halvings in `>> 20`).
 */
module Arithmetic {

  /** Bytes in one megabyte (2^20). */
  const BYTES_PER_MB: int := 0x10_0000

  /** `d * lo + d <= d * hi` for `lo < hi`: consecutive multiples of `d` are `d` apart. */
  lemma MultipleStep(d: nat, lo: int, hi: int)
    requires lo < hi
    ensures d * lo + d <= d * hi
  {
    var t := hi - lo;
    assert d * hi == d * lo + d * t;
    assert d * t == d + d * (t - 1);
  }

  /** Quotient and remainder are unique: any `q`, `r` with `x == d * q + r` and `0 <= r < d` give `x / d == q`. */
  lemma DivisionUnique(x: int, d: nat, q: int, r: int)
    requires d > 0 && x == d * q + r && 0 <= r < d
    ensures x / d == q
  {
    var q', r' := x / d, x % d;
    assert x == d * q' + r' && 0 <= r' < d;
    if q' < q {
      MultipleStep(d, q', q);
    } else if q' > q {
      MultipleStep(d, q, q');
    }
  }

  /** Dividing (rounding down) by `a` and then by `b` is dividing by `a * b`, also for negative `x`. */
  lemma DivideTwice(x: int, a: nat, b: nat)
    requires a > 0 && b > 0
    ensures x / a / b == x / (a * b)
  {
    var h, r1 := x / a, x % a;
    var q, r2 := h / b, h % b;
    assert x == a * h + r1 && 0 <= r1 < a;
    assert h == b * q + r2 && 0 <= r2 < b;
    assert a * h == (a * b) * q + a * r2;
    MultipleStep(a, r2, b);
    DivisionUnique(x, a * b, q, a * r2 + r1);
  }
}
