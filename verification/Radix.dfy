/**
 Base-16 arithmetic behind the frontier. For a record count n, Digit(n, k) is the
 k-th hexadecimal digit, and Top(n, k) is n with its k lowest digits cleared, which
 is where the blocks of level k end and those of the smaller levels begin.
 */
module Radix {
  /** 2^53 - 1, the largest revision. */
  const MAX_REVISION: int := 0x1F_FFFF_FFFF_FFFF

  function Pow16(k: nat): (r: nat)
    ensures r > 0
  {
    if k == 0 then 1 else 16 * Pow16(k - 1)
  }

  function Digit(n: nat, k: nat): (d: nat)
    ensures d < 16
  {
    if k == 0 then n % 16 else Digit(n / 16, k - 1)
  }

  function Top(n: nat, k: nat): nat {
    if k == 0 then n else 16 * Top(n / 16, k - 1)
  }

  /** Sum of the hexadecimal digits of n. */
  function DigitSum(n: nat): nat {
    if n == 0 then 0 else n % 16 + DigitSum(n / 16)
  }

  /** Sum of the digits of n at positions below k. */
  function LowDigits(n: nat, k: nat): nat {
    if k == 0 then 0 else LowDigits(n, k - 1) + Digit(n, k - 1)
  }

  // ---- Products, one small fact each ----

  lemma MulAdd(a: int, b: int, p: int)
    ensures (a + b) * p == a * p + b * p
  {
  }

  lemma MulAssoc16(a: int, p: int)
    ensures a * (16 * p) == 16 * (a * p)
  {
  }

  lemma MulMonotone(a: int, b: int, p: int)
    requires a <= b && 0 <= p
    ensures a * p <= b * p
  {
    MulAdd(a, b - a, p);
    assert (b - a) * p >= 0;
  }

  /** Division by p is the only quotient that leaves a remainder in [0, p). */
  lemma QuotientUnique(n: int, p: int, q: int, r: int)
    requires 0 < p && n == q * p + r && 0 <= r < p
    ensures n / p == q && n % p == r
  {
    var d := n / p;
    assert n == d * p + n % p;
    if d < q {
      MulMonotone(d + 1, q, p);
      MulAdd(d, 1, p);
    } else if q < d {
      MulMonotone(q + 1, d, p);
      MulAdd(q, 1, p);
    }
  }

  // ---- Where the blocks of each level lie ----

  /** Clearing one more digit removes that digit's blocks. */
  lemma {:induction false} TopStep(n: nat, k: nat)
    ensures Top(n, k) == Top(n, k + 1) + Digit(n, k) * Pow16(k)
  {
    if k > 0 {
      TopStep(n / 16, k - 1);
      MulAssoc16(Digit(n / 16, k - 1), Pow16(k - 1));
    }
  }

  lemma {:induction false} TopBounds(n: nat, k: nat)
    ensures Top(n, k) <= n < Top(n, k) + Pow16(k)
  {
    if k > 0 {
      TopBounds(n / 16, k - 1);
    }
  }

  lemma {:induction false} TopZero(n: nat, k: nat)
    requires n < Pow16(k)
    ensures Top(n, k) == 0 && Digit(n, k) == 0
  {
    if k > 0 {
      TopZero(n / 16, k - 1);
    }
  }

  lemma {:induction false} Pow16Monotone(a: nat, b: nat)
    requires a <= b
    ensures Pow16(a) <= Pow16(b)
    decreases b - a
  {
    if a < b {
      Pow16Monotone(a + 1, b);
    }
  }

  // ---- Adding one: the carry ----

  /** The k lowest digits of n are all fifteen. */
  predicate Full(n: nat, k: nat) {
    k == 0 || (n % 16 == 15 && Full(n / 16, k - 1))
  }

  lemma {:induction false} FullDigit(n: nat, k: nat, i: nat)
    requires Full(n, k) && i < k
    ensures Digit(n, i) == 15
  {
    if i > 0 {
      FullDigit(n / 16, k - 1, i - 1);
    }
  }

  lemma {:induction false} FullExtend(n: nat, k: nat)
    requires Full(n, k) && Digit(n, k) == 15
    ensures Full(n, k + 1)
  {
    if k > 0 {
      FullExtend(n / 16, k - 1);
    }
  }

  /** A full suffix completes a block: the successor has it cleared. */
  lemma {:induction false} FullSuccessor(n: nat, k: nat)
    requires Full(n, k)
    ensures n + 1 == Top(n, k) + Pow16(k)
  {
    if k > 0 {
      FullSuccessor(n / 16, k - 1);
    }
  }

  /** Adding one clears a full suffix, bumps the digit above it and keeps the others. */
  lemma {:induction false} Increment(n: nat, k: nat, i: nat)
    requires Full(n, k) && Digit(n, k) < 15
    ensures Digit(n + 1, i) == if i < k then 0 else if i == k then Digit(n, k) + 1 else Digit(n, i)
  {
    if k > 0 {
      assert (n + 1) % 16 == 0 && (n + 1) / 16 == n / 16 + 1;
      if i > 0 {
        Increment(n / 16, k - 1, i - 1);
      }
    } else {
      assert (n + 1) / 16 == n / 16;
    }
  }

  // ---- Aligned blocks ----

  /** The k lowest digits of s are all zero. */
  predicate Aligned(s: nat, k: nat) {
    k == 0 || (s % 16 == 0 && Aligned(s / 16, k - 1))
  }

  /** Alignment as the Go code tests it: s % 16^k == 0. */
  lemma {:induction false} AlignedIsRemainder(s: nat, k: nat)
    ensures Aligned(s, k) <==> s % Pow16(k) == 0
  {
    if k > 0 {
      AlignedIsRemainder(s / 16, k - 1);
      var p := Pow16(k - 1);
      assert Pow16(k) == 16 * p;
      hide *;
      if s % 16 == 0 && (s / 16) % p == 0 {
        MultipleUp(s, p);
      }
      if s % (16 * p) == 0 {
        MultipleDown(s, p);
      }
      assert Aligned(s, k) <==> s % 16 == 0 && Aligned(s / 16, k - 1) by {
        AlignedStep(s, k);
      }
    }
  }

  lemma AlignedStep(s: nat, k: nat)
    requires k > 0
    ensures Aligned(s, k) <==> s % 16 == 0 && Aligned(s / 16, k - 1)
  {
  }

  lemma MultipleUp(s: nat, p: nat)
    requires p > 0 && s % 16 == 0 && (s / 16) % p == 0
    ensures s % (16 * p) == 0
  {
    var q := s / 16 / p;
    assert s / 16 == q * p;
    MulAssoc16(q, p);
    QuotientUnique(s, 16 * p, q, 0);
  }

  lemma MultipleDown(s: nat, p: nat)
    requires p > 0 && s % (16 * p) == 0
    ensures s % 16 == 0 && (s / 16) % p == 0
  {
    var q := s / (16 * p);
    assert s == q * (16 * p);
    MulAssoc16(q, p);
    Sixteenfold(s, q * p);
    QuotientUnique(s / 16, p, q, 0);
  }

  lemma Sixteenfold(s: int, m: int)
    requires s == 16 * m
    ensures s % 16 == 0 && s / 16 == m
  {
  }

  /** The last record of an aligned level-k block at s has its k lowest digits full. */
  lemma {:induction false} BlockEnd(s: nat, k: nat)
    requires Aligned(s, k)
    ensures Full(s + Pow16(k) - 1, k) && Top(s + Pow16(k) - 1, k) == s
  {
    if k > 0 {
      var n := s + Pow16(k) - 1;
      assert n % 16 == 15 && n / 16 == s / 16 + Pow16(k - 1) - 1;
      BlockEnd(s / 16, k - 1);
    }
  }

  lemma {:induction false} TopAligned(n: nat, k: nat)
    ensures Aligned(Top(n, k), k)
  {
    if k > 0 {
      TopAligned(n / 16, k - 1);
    }
  }

  // ---- Digit sums ----

  lemma {:induction false} LowDigitsShift(n: nat, k: nat)
    ensures LowDigits(n, k + 1) == n % 16 + LowDigits(n / 16, k)
  {
    if k > 0 {
      LowDigitsShift(n, k - 1);
    }
  }

  lemma {:induction false} LowDigitsTotal(n: nat, k: nat)
    requires n < Pow16(k)
    ensures LowDigits(n, k) == DigitSum(n)
  {
    if k > 0 {
      LowDigitsShift(n, k - 1);
      LowDigitsTotal(n / 16, k - 1);
    }
  }

  /** Whole blocks of 16, 16^2, ... records among the first n. */
  function Completed(n: nat): nat {
    if n == 0 then 0 else n / 16 + Completed(n / 16)
  }

  /** Each completed block replaces sixteen references by one. */
  lemma {:induction false} CompletedBlocks(n: nat)
    ensures 15 * Completed(n) + DigitSum(n) == n
  {
    if n > 0 {
      CompletedBlocks(n / 16);
    }
  }

  // ---- Shifts and masks as Go defines them on nonnegative integers ----

  /** x >> k as k successive halvings. */
  function ShiftRight(x: nat, k: nat): nat {
    if k == 0 then x else ShiftRight(x / 2, k - 1)
  }

  /** x & 15, bit by bit. */
  function Mask15(x: nat): nat {
    x % 2 + 2 * (x / 2 % 2) + 4 * (x / 4 % 2) + 8 * (x / 8 % 2)
  }

  lemma MaskIsRemainder(x: nat)
    ensures Mask15(x) == x % 16
  {
    var a := x / 2;
    var b := a / 2;
    var c := b / 2;
    assert x / 4 == b && x / 8 == c;
    assert c / 2 == x / 16;
    assert x == 16 * (c / 2) + Mask15(x);
  }

  lemma ShiftFour(x: nat, k: nat)
    ensures ShiftRight(x, k + 4) == ShiftRight(x / 16, k)
  {
    assert ShiftRight(x, k + 4) == ShiftRight(x / 2, k + 3);
    assert ShiftRight(x / 2, k + 3) == ShiftRight(x / 2 / 2, k + 2);
    assert ShiftRight(x / 2 / 2, k + 2) == ShiftRight(x / 2 / 2 / 2, k + 1);
    assert x / 2 / 2 / 2 / 2 == x / 16;
  }

  /** The digit that (n >> 4k) & 15 extracts. */
  lemma {:induction false} ShiftMaskIsDigit(n: nat, k: nat)
    ensures Mask15(ShiftRight(n, 4 * k)) == Digit(n, k)
  {
    if k == 0 {
      MaskIsRemainder(n);
    } else {
      ShiftFour(n, 4 * (k - 1));
      ShiftMaskIsDigit(n / 16, k - 1);
    }
  }

  /** The same digit by division: (n / 16^k) % 16. */
  lemma {:induction false} DigitIsDivision(n: nat, k: nat)
    ensures Digit(n, k) == (n / Pow16(k)) % 16
  {
    if k > 0 {
      DigitIsDivision(n / 16, k - 1);
      var p := Pow16(k - 1);
      var q, r := n / 16 / p, n / 16 % p;
      assert n / 16 == q * p + r;
      MulAssoc16(q, p);
      QuotientUnique(n, 16 * p, q, 16 * r + n % 16);
    }
  }
}
