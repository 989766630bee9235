/** Shared vocabulary: optional values, the token scale and Go's integer division. */
module Common {

  datatype Option<+T> = None | Some(value: T)

  /** One token is NANO nanotokens, one second is NANO nanoseconds; so `rate` tokens per
      second is exactly `rate` nanotokens per nanosecond. */
  const NANO: int := 1_000_000_000

  /** Go's integer division, and its float-to-integer conversion: truncation toward zero. */
  function TruncDiv(a: int, b: int): int
    requires b > 0
  {
    if a >= 0 then a / b else -((-a) / b)
  }

  /** `q` is the quotient `a / b` rounded toward zero. */
  ghost predicate IsTruncated(q: int, a: int, b: int)
    requires b > 0
  {
    if a >= 0 then q * b <= a < q * b + b else q * b - b < a <= q * b
  }

  lemma TruncDivTruncates(a: int, b: int)
    requires b > 0
    ensures IsTruncated(TruncDiv(a, b), a, b)
  {
    if a >= 0 {
      assert a == (a / b) * b + a % b;
    } else {
      assert -a == ((-a) / b) * b + (-a) % b;
      assert (-((-a) / b)) * b == -(((-a) / b) * b);
    }
  }

  /** time.Time.Truncate: the last multiple of `w` at or before `t`. */
  function Truncate(t: int, w: int): int
    requires w > 0
  {
    t - t % w
  }

  lemma ProductNonNegative(a: int, b: int)
    requires a >= 0 && b >= 0
    ensures a * b >= 0
  {
  }

  lemma ProductMonotonic(a: int, b: int, c: int)
    requires a <= b && c >= 0
    ensures a * c <= b * c
  {
  }

  /** `wait` is the whole number of steps of size `rate` in `need`; `w` steps cover `need`
      when they are more than `wait`, or exactly `wait` and nothing was truncated. */
  lemma TruncatedWait(need: int, rate: int, w: int)
    requires need >= 0 && rate > 0
    ensures rate * w >= need <==> w > need / rate || (w == need / rate && need % rate == 0)
  {
    var q := need / rate;
    assert need == rate * q + need % rate;
    if w > q {
      ProductMonotonic(q + 1, w, rate);
      assert rate * w >= rate * (q + 1) == rate * q + rate;
    } else if w < q {
      ProductMonotonic(w, q - 1, rate);
      assert rate * w <= rate * (q - 1) == rate * q - rate;
    }
  }

  /** The truncated instant is `t / w` windows after the zero time. */
  lemma TruncateIsWindowIndex(t: int, w: int)
    requires w > 0
    ensures Truncate(t, w) == (t / w) * w
    ensures Truncate(t, w) % w == 0 && Truncate(t, w) <= t < Truncate(t, w) + w
  {
    assert t == (t / w) * w + t % w;
    MultipleHasNoRemainder(t / w, w);
  }

  lemma MultipleHasNoRemainder(q: int, w: int)
    requires w > 0
    ensures (q * w) % w == 0 && (q * w) / w == q
  {
    var m, r := (q * w) / w, (q * w) % w;
    assert q * w == m * w + r;
    assert (q - m) * w == r;
    if q > m { ProductMonotonic(1, q - m, w); }
    if q < m { ProductMonotonic(q - m, -1, w); }
  }

  /** Two aligned instants that differ are at least a whole window apart. */
  lemma AlignedGap(a: int, b: int, w: int)
    requires w > 0 && a % w == 0 && b % w == 0 && a < b
    ensures b - a >= w
  {
    assert a == (a / w) * w && b == (b / w) * w;
    assert b - a == (b / w - a / w) * w;
    if b / w <= a / w { ProductMonotonic(b / w - a / w, 0, w); }
    ProductMonotonic(1, b / w - a / w, w);
  }
}
