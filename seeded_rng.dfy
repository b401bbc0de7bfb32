/** julesv1/src/utils/SeededRNG.ts: the linear congruential generator
    `seed := (seed * 9301 + 49297) % 233280`, whose draw is `seed / 233280`.
    JavaScript's `%` truncates toward zero (the remainder takes the sign of the
    dividend), unlike Dafny's Euclidean `%`, so it is written out as `JsRem`.
    Seeds are integers; for the seeds the generator can reach from a seed of
    magnitude below 233280 every intermediate value is an integer below 2^53,
    which a JavaScript number holds exactly. */
module Rng {
  const Multiplier: int := 9301
  const Increment: int := 49297
  const Modulus: int := 233280

  /** The largest integer below which every JavaScript number is exact. */
  const ExactLimit: int := 0x20_0000_0000_0000

  /** JavaScript's integer quotient, `Math.trunc(a / m)`, for a positive `m`. */
  function JsQuot(a: int, m: int): int
    requires m > 0
  {
    if a >= 0 then a / m else -((-a) / m)
  }

  /** JavaScript's `a % m` on integers, for a positive `m`: what is left of
      `a` after taking away the truncated quotient's multiple of `m`. */
  function JsRem(a: int, m: int): (r: int)
    requires m > 0
    ensures a == JsQuot(a, m) * m + r
    ensures a >= 0 ==> 0 <= r < m
    ensures a < 0 ==> -m < r <= 0
  {
    if a >= 0 then a % m else -((-a) % m)
  }

  /** On non-negative operands the two remainders agree; on a negative one
      that is not a multiple of `m` JavaScript's is Dafny's minus `m`. */
  lemma JsRemVersusEuclidean(a: int, m: int)
    requires m > 0
    ensures a >= 0 ==> JsRem(a, m) == a % m
    ensures a < 0 && a % m != 0 ==> JsRem(a, m) == a % m - m
    ensures a < 0 && a % m == 0 ==> JsRem(a, m) == 0
  {
    if a < 0 {
      var q := (-a) / m;
      var r := (-a) % m;
      assert -a == q * m + r;
      if r != 0 {
        assert a == (-q - 1) * m + (m - r);
        EuclideanUnique(a, m, -q - 1, m - r);
      } else {
        assert a == (-q) * m + 0;
        EuclideanUnique(a, m, -q, 0);
      }
    }
  }

  /** Dafny's `%` is the unique remainder in [0, m). */
  lemma EuclideanUnique(a: int, m: int, q: int, r: int)
    requires m > 0 && 0 <= r < m && a == q * m + r
    ensures a % m == r
  {
    var q0 := a / m;
    var r0 := a % m;
    assert a == q0 * m + r0;
    assert (q - q0) * m == r0 - r;
    if q > q0 {
      MultipleAtLeast(q - q0, m);
    } else if q < q0 {
      MultipleAtLeast(q0 - q, m);
    }
  }

  lemma MultipleAtLeast(k: int, m: int)
    requires k >= 1 && m > 0
    ensures k * m >= m
  {
    assert k * m == (k - 1) * m + m;
  }

  /** The seed after one `next()`. */
  function NextSeed(s: int): int {
    JsRem(s * Multiplier + Increment, Modulus)
  }

  /** The value `next()` returns once the seed is `s`. */
  function Draw(s: int): real {
    s as real / Modulus as real
  }

  /** The seed after `n` calls of `next()`. */
  function SeedAfter(s: int, n: nat): int {
    if n == 0 then s else NextSeed(SeedAfter(s, n - 1))
  }

  /** The values of `n` successive calls of `next()` from seed `s`. */
  function Stream(s: int, n: nat): (r: seq<real>)
    ensures |r| == n
  {
    if n == 0 then [] else Stream(s, n - 1) + [Draw(SeedAfter(s, n))]
  }

  /** From a non-negative seed every draw lies in [0, 1), and the seed stays
      in [0, 233280). */
  lemma NextFromNonNegative(s: int)
    requires s >= 0
    ensures 0 <= NextSeed(s) < Modulus
    ensures 0.0 <= Draw(NextSeed(s)) < 1.0
  {
  }

  /** From a negative seed the remainder may be negative: every draw lies in
      (-1, 1) whatever the seed. */
  lemma NextFromAnySeed(s: int)
    ensures -Modulus < NextSeed(s) < Modulus
    ensures -1.0 < Draw(NextSeed(s)) < 1.0
  {
  }

  /** While the seed's magnitude is below the modulus, the product and sum are
      below 2^53, so the JavaScript arithmetic on numbers is the integer
      arithmetic modelled here. */
  lemma ArithmeticIsExact(s: int)
    requires -Modulus < s < Modulus
    ensures -ExactLimit < s * Multiplier + Increment < ExactLimit
    ensures -Modulus < NextSeed(s) < Modulus
  {
  }

  /** Every seed reached from a non-negative seed is in [0, 233280), so every
      draw of the stream is in [0, 1). */
  lemma {:induction false} StreamInUnitInterval(s: int, n: nat)
    requires s >= 0
    ensures n > 0 ==> 0 <= SeedAfter(s, n) < Modulus
    ensures forall i | 0 <= i < n :: 0.0 <= Stream(s, n)[i] < 1.0
  {
    if n > 0 {
      StreamInUnitInterval(s, n - 1);
      assert SeedAfter(s, n - 1) >= 0;
      NextFromNonNegative(SeedAfter(s, n - 1));
    }
  }

  /** The generator is reproducible and resumable: `a + b` draws from a seed
      are the `a` draws followed by the `b` draws from the seed they leave. */
  lemma {:induction false} StreamSplits(s: int, a: nat, b: nat)
    ensures SeedAfter(s, a + b) == SeedAfter(SeedAfter(s, a), b)
    ensures Stream(s, a + b) == Stream(s, a) + Stream(SeedAfter(s, a), b)
  {
    if b > 0 {
      StreamSplits(s, a, b - 1);
    }
  }

  /** How far above `min` a draw `d` lands on an interval of `width`. */
  function Offset(d: real, width: real): real {
    d * width
  }

  /** `nextRange(min, max)` on a draw `d`. */
  function Scale(min: real, max: real, d: real): real {
    min + Offset(d, max - min)
  }

  /** A draw in [0, 1) lands within the width, on the width's side of 0. */
  lemma OffsetBounds(d: real, width: real)
    requires 0.0 <= d < 1.0
    ensures width > 0.0 ==> 0.0 <= Offset(d, width) < width
    ensures width == 0.0 ==> Offset(d, width) == 0.0
    ensures width < 0.0 ==> width < Offset(d, width) <= 0.0
  {
    if width > 0.0 {
      ProductBelow(d, width);
    } else if width < 0.0 {
      ProductBelow(d, -width);
      assert d * -width == -(d * width);
    }
  }

  lemma ProductBelow(d: real, x: real)
    requires 0.0 <= d < 1.0 && x > 0.0
    ensures 0.0 <= d * x < x
  {
    assert x - d * x == (1.0 - d) * x;
  }

  /** From a non-negative seed, `nextRange(min, max)` lies in [min, max) when
      min < max; with min > max the interval is reversed, (max, min]. */
  lemma RangeFromNonNegative(s: int, min: real, max: real)
    requires s >= 0
    ensures var r := Scale(min, max, Draw(NextSeed(s)));
      && (min < max ==> min <= r < max)
      && (min == max ==> r == min)
      && (min > max ==> max < r <= min)
  {
    NextFromNonNegative(s);
    OffsetBounds(Draw(NextSeed(s)), max - min);
  }

  class SeededRNG {
    var seed: int

    constructor (seed: int)
      ensures this.seed == seed
    {
      this.seed := seed;
    }

    /** `next()`: advances the seed and returns the new seed over 233280. */
    method Next() returns (r: real)
      modifies this
      ensures seed == NextSeed(old(seed))
      ensures r == Draw(seed)
    {
      seed := JsRem(seed * Multiplier + Increment, Modulus);
      r := seed as real / Modulus as real;
    }

    /** `nextRange(min, max)`: one draw, scaled onto the interval. */
    method NextRange(min: real, max: real) returns (r: real)
      modifies this
      ensures seed == NextSeed(old(seed))
      ensures r == Scale(min, max, Draw(seed))
    {
      var d := Next();
      r := min + d * (max - min);
    }
  }
}
