// pkg/domain/outbox/utils.go: exponential backoff truncated to whole seconds.
//
// The product is taken in exact reals. The conversion to a 64-bit integer and the
// multiplication by time.Second are modelled with their width: a product that a 64-bit integer
// cannot hold converts to whatever the platform yields ("outOfRange"), and the multiplication
// wraps around.
module Backoff {
  const SECOND := 1_000_000_000
  const TWO_63 := 0x8000_0000_0000_0000
  const TWO_64 := 0x1_0000_0000_0000_0000

  // The largest whole number of seconds whose nanoseconds fit 63 bits.
  const MAX_SECONDS := 9_223_372_036

  function Pow2(n: nat): (p: nat)
    ensures p >= 1
  {
    if n == 0 then 1 else 2 * Pow2(n - 1)
  }

  // A conversion from floating point to integer drops the fraction.
  function Truncate(x: real): int {
    if x >= 0.0 then x.Floor else -((-x).Floor)
  }

  function RetrySeconds(backoff: int, attempt: nat): int {
    TruncatedProduct(backoff, Pow2(attempt))
  }

  function TruncatedProduct(backoff: int, power: nat): int {
    Truncate(backoff as real / SECOND as real * power as real)
  }

  // The delay without any integer width.
  function ExactDelay(backoff: int, attempt: nat): int {
    RetrySeconds(backoff, attempt) * SECOND
  }

  function Wrap64(x: int): (w: int)
    ensures -TWO_63 <= w < TWO_63
    ensures -TWO_63 <= x < TWO_63 ==> w == x
    ensures (w - x) % TWO_64 == 0
  {
    (x + TWO_63) % TWO_64 - TWO_63
  }

  function NextRetryDuration(backoff: int, attempt: nat, outOfRange: int): int {
    var seconds := RetrySeconds(backoff, attempt);
    Wrap64((if -TWO_63 <= seconds < TWO_63 then seconds else outOfRange) * SECOND)
  }

  // No 64-bit overflow: the whole seconds of backoff * 2^attempt stay representable.
  predicate Fits(backoff: int, attempt: nat) {
    backoff * Pow2(attempt) < (MAX_SECONDS + 1) * SECOND
  }

  lemma {:induction false} Pow2Add(a: nat, b: nat)
    ensures Pow2(a + b) == Pow2(a) * Pow2(b)
    decreases b
  {
    if b > 0 {
      Pow2Add(a, b - 1);
      assert a + b - 1 == a + (b - 1);
      MulAssoc(Pow2(a), Pow2(b - 1));
    }
  }

  lemma MulAssoc(x: int, y: int)
    ensures x * (2 * y) == 2 * (x * y)
  {
  }

  lemma Pow2Monotone(a: nat, b: nat)
    requires a <= b
    ensures Pow2(a) <= Pow2(b)
  {
    Pow2Add(a, b - a);
    assert Pow2(a) * 1 <= Pow2(a) * Pow2(b - a);
  }

  // Truncation in one sentence: the delay is the only multiple of a second within one second
  // below backoff * 2^attempt.
  lemma DelayBracketsProduct(backoff: nat, attempt: nat)
    ensures ExactDelay(backoff, attempt) % SECOND == 0
    ensures ExactDelay(backoff, attempt) <= backoff * Pow2(attempt) < ExactDelay(backoff, attempt) + SECOND
  {
    ProductBrackets(backoff, Pow2(attempt));
  }

  lemma ProductBrackets(backoff: nat, power: nat)
    ensures TruncatedProduct(backoff, power) * SECOND % SECOND == 0
    ensures TruncatedProduct(backoff, power) * SECOND <= backoff * power
            < TruncatedProduct(backoff, power) * SECOND + SECOND
  {
    Scaled(backoff, power);
    TruncationBrackets(backoff as real / SECOND as real * power as real, backoff * power);
  }

  lemma Scaled(backoff: nat, power: nat)
    ensures var x := backoff as real / SECOND as real * power as real;
            x >= 0.0 && x * SECOND as real == (backoff * power) as real
  {
    var q := backoff as real / SECOND as real;
    assert q >= 0.0 && q * SECOND as real == backoff as real;
    assert backoff as real * power as real == (backoff * power) as real;
    Reassociate(q, power as real, SECOND as real);
  }

  lemma Reassociate(x: real, y: real, z: real)
    ensures x * y * z == x * z * y
    ensures x >= 0.0 && y >= 0.0 ==> x * y >= 0.0
  {
  }

  lemma TruncationBrackets(x: real, product: int)
    requires x >= 0.0 && x * SECOND as real == product as real
    ensures Truncate(x) * SECOND % SECOND == 0
    ensures Truncate(x) * SECOND <= product < Truncate(x) * SECOND + SECOND
  {
    assert Truncate(x) as real <= x < Truncate(x) as real + 1.0;
  }

  lemma DelayIsUnique(backoff: nat, attempt: nat, d: int)
    requires d % SECOND == 0 && d <= backoff * Pow2(attempt) < d + SECOND
    ensures d == ExactDelay(backoff, attempt)
  {
    DelayBracketsProduct(backoff, attempt);
    var e := ExactDelay(backoff, attempt);
    assert d == d / SECOND * SECOND && e == e / SECOND * SECOND;
  }

  lemma DoubledFloor(seconds: int, later: int, product: int)
    requires seconds * SECOND <= product && 2 * product < (later + 1) * SECOND
    ensures later >= 2 * seconds
  {
  }

  // One more attempt waits at least twice as long.
  lemma DelayDoubles(backoff: nat, attempt: nat)
    ensures ExactDelay(backoff, attempt + 1) >= 2 * ExactDelay(backoff, attempt)
  {
    DelayBracketsProduct(backoff, attempt);
    DelayBracketsProduct(backoff, attempt + 1);
    MulAssoc(backoff, Pow2(attempt));
    DoubledFloor(RetrySeconds(backoff, attempt), RetrySeconds(backoff, attempt + 1), backoff * Pow2(attempt));
  }

  lemma {:induction false} DelayMonotone(backoff: nat, attempt: nat, later: nat)
    requires attempt <= later
    ensures 0 <= ExactDelay(backoff, attempt) <= ExactDelay(backoff, later)
    decreases later
  {
    DelayBracketsProduct(backoff, attempt);
    var d := ExactDelay(backoff, attempt);
    assert 0 <= backoff * Pow2(attempt);
    assert d > -SECOND && d == d / SECOND * SECOND;
    if attempt < later {
      DelayMonotone(backoff, attempt, later - 1);
      DelayDoubles(backoff, later - 1);
    }
  }

  // A whole number of seconds loses nothing to truncation.
  lemma DelayExactForWholeSeconds(seconds: nat, attempt: nat)
    ensures ExactDelay(seconds * SECOND, attempt) == seconds * SECOND * Pow2(attempt)
  {
    var d := seconds * Pow2(attempt) * SECOND;
    assert d == seconds * SECOND * Pow2(attempt);
    assert d % SECOND == 0;
    DelayIsUnique(seconds * SECOND, attempt, d);
  }

  // The 64-bit result is the exact delay just when the product fits, whatever the platform
  // yields for a conversion out of range.
  lemma DelayExactIffFits(backoff: nat, attempt: nat, outOfRange: int)
    ensures NextRetryDuration(backoff, attempt, outOfRange) == ExactDelay(backoff, attempt)
       <==> Fits(backoff, attempt)
  {
    DelayBracketsProduct(backoff, attempt);
    DelayMonotone(backoff, attempt, attempt);
    var seconds := RetrySeconds(backoff, attempt);
    assert Fits(backoff, attempt) <==> seconds <= MAX_SECONDS;
  }

  // While the conversion is in range, the 64-bit result is the exact delay, wrapped around.
  lemma DelayWraps(backoff: nat, attempt: nat, outOfRange: int)
    requires backoff * Pow2(attempt) < TWO_63 * SECOND
    ensures -TWO_63 <= NextRetryDuration(backoff, attempt, outOfRange) < TWO_63
    ensures (NextRetryDuration(backoff, attempt, outOfRange) - ExactDelay(backoff, attempt)) % TWO_64 == 0
  {
    DelayBracketsProduct(backoff, attempt);
    DelayMonotone(backoff, attempt, attempt);
    var seconds := RetrySeconds(backoff, attempt);
    assert 0 <= seconds < TWO_63;
  }

  // A delay that does not fit comes out shorter, never longer.
  lemma DelayFallsShort(backoff: nat, attempt: nat, outOfRange: int)
    ensures NextRetryDuration(backoff, attempt, outOfRange) <= ExactDelay(backoff, attempt)
    ensures NextRetryDuration(backoff, attempt, outOfRange) < ExactDelay(backoff, attempt)
       <==> !Fits(backoff, attempt)
  {
    DelayBracketsProduct(backoff, attempt);
    DelayExactIffFits(backoff, attempt, outOfRange);
    var exact := ExactDelay(backoff, attempt);
    if !Fits(backoff, attempt) {
      assert RetrySeconds(backoff, attempt) > MAX_SECONDS;
      assert exact >= (MAX_SECONDS + 1) * SECOND > TWO_63;
    }
  }

  lemma FitsBelow(backoff: nat, attempt: nat, later: nat)
    requires attempt <= later && Fits(backoff, later)
    ensures Fits(backoff, attempt)
  {
    Pow2Monotone(attempt, later);
    MulMonotone(backoff, Pow2(attempt), Pow2(later));
  }

  lemma MulMonotone(k: nat, x: int, y: int)
    requires x <= y
    ensures k * x <= k * y
  {
  }

  // The default backoff of 20s overflows at the 29th attempt: the next retry time then lies in
  // the past, so such a row is due again at once.
  lemma DelayOverflowsIntoThePast(outOfRange: int)
    ensures !Fits(20 * SECOND, 29)
    ensures NextRetryDuration(20 * SECOND, 29, outOfRange) < 0
  {
    Pow2Add(14, 15);
    assert Pow2(14) == 16384 && Pow2(15) == 32768;
    assert Pow2(29) == 536_870_912;
    DelayExactForWholeSeconds(20, 29);
    assert RetrySeconds(20 * SECOND, 29) == 10_737_418_240;
  }
}
