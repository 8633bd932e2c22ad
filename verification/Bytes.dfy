/** Machine integers of the firmware: bytes, 32-bit words and the wrap-around difference of two
    32-bit timestamps. */
module Bytes {

  type Byte = x: int | 0 <= x < 0x100

  type Word = x: int | 0 <= x < WORD_RANGE

  const WORD_RANGE := 0x1_0000_0000

  /** The unsigned 32-bit difference of two timestamps. */
  function Elapsed(now: Word, start: Word): Word {
    (now - start) % WORD_RANGE
  }

  /** What a 32-bit register shows of an unbounded count. */
  function ToWord(t: nat): Word {
    t % WORD_RANGE
  }

  /** The difference of two readings of a monotone clock is the true difference modulo 2^32, so it
      never exceeds the true one and equals it exactly while less than 2^32 has passed. */
  lemma ElapsedOfReadings(now: nat, start: nat)
    requires start <= now
    ensures Elapsed(ToWord(now), ToWord(start)) == (now - start) % WORD_RANGE
    ensures Elapsed(ToWord(now), ToWord(start)) <= now - start
    ensures Elapsed(ToWord(now), ToWord(start)) == now - start <==> now - start < WORD_RANGE
  {
    var a, b := now / WORD_RANGE, start / WORD_RANGE;
    assert now - start == (ToWord(now) - ToWord(start)) + (a - b) * WORD_RANGE;
    ModShift(ToWord(now) - ToWord(start), a - b);
  }

  lemma ModShift(x: int, k: int)
    ensures (x + k * WORD_RANGE) % WORD_RANGE == x % WORD_RANGE
  {
    var q, q' := x / WORD_RANGE, (x + k * WORD_RANGE) / WORD_RANGE;
    assert x == q * WORD_RANGE + x % WORD_RANGE;
    assert x + k * WORD_RANGE == q' * WORD_RANGE + (x + k * WORD_RANGE) % WORD_RANGE;
    assert (q + k - q') * WORD_RANGE == (x + k * WORD_RANGE) % WORD_RANGE - x % WORD_RANGE;
  }

  // ----- Multiples -------------------------------------------------------------------------

  /** The length of `n` rounds. */
  function Rounds(n: nat, step: nat): nat {
    if n == 0 then 0 else Rounds(n - 1, step) + step
  }

  lemma {:induction false} RoundsIsProduct(n: nat, step: nat)
    ensures Rounds(n, step) == n * step
  {
    if n > 0 {
      RoundsIsProduct(n - 1, step);
    }
  }

  lemma {:induction false} RoundsMonotone(m: nat, n: nat, step: nat)
    requires m <= n
    ensures Rounds(m, step) <= Rounds(n, step)
  {
    if m < n {
      RoundsMonotone(m, n - 1, step);
    }
  }

  lemma SmallMultiple(x: int, k: int)
    requires -k < x * k < k
    ensures x == 0
  {
  }

  lemma AddMultiple(a: nat, n: nat, k: nat)
    requires 0 < k
    ensures (a + n * k) / k == a / k + n
  {
    var q, r := a / k, (a + n * k) / k;
    assert a == q * k + a % k && a + n * k == r * k + (a + n * k) % k;
    assert (r - q - n) * k == r * k - q * k - n * k;
    SmallMultiple(r - q - n, k);
  }

  lemma DivideMonotone(a: nat, b: nat, k: nat)
    requires 0 < k && a <= b
    ensures a / k <= b / k
  {
    var q, r := a / k, b / k;
    assert a == q * k + a % k && b == r * k + b % k;
    assert (q - r) * k == q * k - r * k;
    if q - r >= 0 {
      SmallMultiple(q - r, k);
    }
  }
}
