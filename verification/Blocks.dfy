/**
 The whole blocks among the first n records, and how many there are.
 */
module Blocks {
  import opened Radix
  import opened Costs

  /** An aligned block of 16^level records within the first n. */
  predicate Block(n: int, level: nat, start: int) {
    1 <= level && 1 <= start && Aligned(start - 1, level) && start + Pow16(level) - 1 <= n
  }

  /** The blocks of levels 1..k that end at record n. */
  function Ending(n: int, k: nat): set<(nat, int)> {
    if k == 0 then {} else Ending(n, k - 1) + {(k, n - Pow16(k) + 1)}
  }

  function AllBlocks(n: nat): set<(nat, int)> {
    if n == 0 then {} else AllBlocks(n - 1) + Ending(n, Trailing(n))
  }

  lemma {:induction false} EndingMember(n: int, k: nat, level: nat, start: int)
    ensures (level, start) in Ending(n, k) <==> 1 <= level <= k && start == n - Pow16(level) + 1
  {
    if k > 0 {
      EndingMember(n, k - 1, level, start);
    }
  }

  lemma {:induction false} EndingCount(n: int, k: nat)
    ensures |Ending(n, k)| == k
  {
    if k > 0 {
      EndingCount(n, k - 1);
      EndingMember(n, k - 1, k, n - Pow16(k) + 1);
    }
  }

  /** Alignment is kept by a step of the block's size. */
  lemma {:induction false} AlignedNext(s: nat, k: nat)
    ensures Aligned(s + Pow16(k), k) <==> Aligned(s, k)
  {
    if k > 0 {
      assert (s + Pow16(k)) % 16 == s % 16 && (s + Pow16(k)) / 16 == s / 16 + Pow16(k - 1);
      AlignedNext(s / 16, k - 1);
    }
  }

  /** A positive number is aligned to the levels up to the times 16 divides it. */
  lemma {:induction false} TrailingAligned(n: nat, k: nat)
    requires n > 0
    ensures Aligned(n, k) <==> k <= Trailing(n)
    ensures Aligned(n, k) ==> n >= Pow16(k)
  {
    if k > 0 && n % 16 == 0 {
      TrailingAligned(n / 16, k - 1);
    }
  }

  /** A block ends at n exactly when n is aligned to its level. */
  lemma BlockEndsAt(n: nat, level: nat, start: int)
    requires n > 0 && start == n - Pow16(level) + 1
    ensures Block(n, level, start) <==> 1 <= level <= Trailing(n)
  {
    TrailingAligned(n, level);
    if start >= 1 {
      AlignedNext(start - 1, level);
    }
  }

  lemma {:induction false} AllBlocksMember(n: nat, level: nat, start: int)
    ensures (level, start) in AllBlocks(n) <==> Block(n, level, start)
  {
    if n > 0 {
      AllBlocksMember(n - 1, level, start);
      EndingMember(n, Trailing(n), level, start);
      if start == n - Pow16(level) + 1 {
        BlockEndsAt(n, level, start);
      }
    }
  }

  /** There are floor(n / 16) + floor(n / 16^2) + ... of them. */
  lemma {:induction false} AllBlocksCount(n: nat)
    ensures |AllBlocks(n)| == Completed(n)
  {
    hide *;
    if n == 0 {
      NoBlocks();
    } else {
      AllBlocksCount(n - 1);
      CompletedStep(n - 1);
      EndingCount(n, Trailing(n));
      NewBlocks(n);
    }
  }

  lemma NoBlocks()
    ensures AllBlocks(0) == {} && Completed(0) == 0
  {
  }

  lemma NewBlocks(n: nat)
    requires n > 0
    ensures |AllBlocks(n)| == |AllBlocks(n - 1)| + |Ending(n, Trailing(n))|
  {
    BlocksUnion(n);
    hide *;
    forall b | b in Ending(n, Trailing(n))
      ensures b !in AllBlocks(n - 1)
    {
      EndsLater(n, b);
    }
    DisjointCount(AllBlocks(n - 1), Ending(n, Trailing(n)));
  }

  lemma BlocksUnion(n: nat)
    requires n > 0
    ensures AllBlocks(n) == AllBlocks(n - 1) + Ending(n, Trailing(n))
  {
  }

  lemma EndsLater(n: nat, b: (nat, int))
    requires n > 0 && b in Ending(n, Trailing(n))
    ensures b !in AllBlocks(n - 1)
  {
    hide AllBlocks, Ending, Trailing, Aligned;
    EndingMember(n, Trailing(n), b.0, b.1);
    AllBlocksMember(n - 1, b.0, b.1);
  }

  lemma DisjointCount<T>(a: set<T>, b: set<T>)
    requires forall x :: x in b ==> x !in a
    ensures |a + b| == |a| + |b|
  {
    assert a !! b;
  }

  lemma {:induction false} FullShorter(n: nat, k: nat, j: nat)
    requires Full(n, k) && j <= k
    ensures Full(n, j)
  {
    if j > 0 {
      FullShorter(n / 16, k - 1, j - 1);
    }
  }

  /** With digit `level` of h - 1 below fifteen, only blocks of lower levels end at h. */
  lemma EndsBelow(h: nat, level: nat, k: nat, start: int)
    requires h > 0 && Block(h, k, start) && start + Pow16(k) - 1 == h && Digit(h - 1, level) != 15
    ensures k <= level
  {
    BlockEnd(start - 1, k);
    if k > level {
      FullShorter(h - 1, k, level + 1);
      FullDigit(h - 1, level + 1, level);
    }
  }
}
