/**
 What an accepted frontier looks like. The position of every reference is determined by
 the revision alone, so two accepted frontiers differ at most in hashes and keys.
 */
module Frontier {
  import opened Wrappers
  import opened Radix
  import opened Wire

  /** References of level k and above in chronological order. */
  function Above(lv: Levels, k: nat): seq<ObjectRef>
    requires k <= 16
    decreases 16 - k
  {
    if k == 16 then [] else Above(lv, k + 1) + lv[k]
  }

  lemma {:induction false} FlatSplit(lv: Levels, k: nat)
    requires k <= 16
    ensures Flat(lv, 16) == Above(lv, k) + Flat(lv, k)
    decreases 16 - k
  {
    if k < 16 {
      FlatSplit(lv, k + 1);
    }
  }

  /** Equal-sized valid blocks that walk are evenly spaced. */
  lemma {:induction false} BlocksTile(refs: seq<ObjectRef>, level: nat, next: int, chain: Bytes)
    requires forall i :: 0 <= i < |refs| ==> ValidRef(refs[i]) && refs[i].level == level
    requires Walk(refs, next, chain).Some?
    ensures Walk(refs, next, chain).value.0 == next + |refs| * Pow16(level)
    ensures forall i :: 0 <= i < |refs| ==> refs[i].start == next + i * Pow16(level)
  {
    if refs != [] {
      var p := Pow16(level);
      assert ValidRef(refs[0]);
      BlocksTile(refs[1..], level, next + p, refs[0].lastRecordHash);
      MulAdd(|refs| - 1, 1, p);
      forall i | 0 <= i < |refs|
        ensures refs[i].start == next + i * p
      {
        if i > 0 {
          assert refs[i] == refs[1..][i - 1];
          MulAdd(i - 1, 1, p);
        }
      }
    }
  }

  /** The levels below k of a frontier for n records cover n - Top(n, k) of them. */
  lemma {:induction false} FlatLength(lv: Levels, k: nat, n: nat, next: int, chain: Bytes)
    requires k <= 16 && forall level :: 0 <= level < k ==> LevelOK(lv[level], level, n)
    requires Walk(Flat(lv, k), next, chain).Some?
    ensures Walk(Flat(lv, k), next, chain).value.0 == next + n - Top(n, k)
  {
    if k > 0 {
      var refs := lv[k - 1];
      assert LevelOK(refs, k - 1, n);
      WalkConcat(refs, Flat(lv, k - 1), next, chain);
      var w := Walk(refs, next, chain).value;
      BlocksTile(refs, k - 1, next, chain);
      FlatLength(lv, k - 1, n, w.0, w.1);
      TopStep(n, k - 1);
    }
  }

  /** In an accepted frontier the blocks below level k start at Top(n, k) + 1. */
  lemma Boundary(lv: Levels, revision: int, prevHash: Bytes, k: nat) returns (h: Bytes)
    requires ValidRevision(revision) && LevelsOK(lv, revision, prevHash) && k <= 16
    ensures Walk(Above(lv, k), 1, ZERO_HASH) == Some((Top(revision - 1, k) + 1, h))
    ensures Walk(Flat(lv, k), Top(revision - 1, k) + 1, h) == Some((revision, prevHash))
  {
    hide ValidRef, LevelOK, Walk, Flat, Above;
    FlatSplit(lv, k);
    WalkConcat(Above(lv, k), Flat(lv, k), 1, ZERO_HASH);
    var w := Walk(Above(lv, k), 1, ZERO_HASH).value;
    FlatLength(lv, k, revision - 1, w.0, w.1);
    h := w.1;
  }

  /** Where the i-th reference of a level starts, by the digits above it. */
  function Position(n: nat, level: nat, i: nat): int {
    Top(n, level + 1) + 1 + i * Pow16(level)
  }

  /** Every reference of an accepted frontier is where the revision says. */
  lemma RefPosition(lv: Levels, revision: int, prevHash: Bytes, level: nat, i: nat)
    requires ValidRevision(revision) && LevelsOK(lv, revision, prevHash)
    requires level < 16 && i < |lv[level]|
    ensures lv[level][i].level == level
    ensures lv[level][i].start == Position(revision - 1, level, i)
    ensures lv[level][i].end == lv[level][i].start + Pow16(level) - 1
  {
    hide *;
    var h := LevelWalk(lv, revision, prevHash, level);
    LevelHere(lv, revision, prevHash, level);
    BlockAt(lv[level], level, revision - 1, h, i);
  }

  /** The references of one level walk from where the digits above it say. */
  lemma LevelWalk(lv: Levels, revision: int, prevHash: Bytes, level: nat) returns (h: Bytes)
    requires ValidRevision(revision) && LevelsOK(lv, revision, prevHash) && level < 16
    ensures revision >= 1 && Walk(lv[level], Top(revision - 1, level + 1) + 1, h).Some?
  {
    hide *;
    PositiveRevision(revision);
    h := Boundary(lv, revision, prevHash, level + 1);
    FlatStep(lv, level + 1);
    WalkConcat(lv[level], Flat(lv, level), Top(revision - 1, level + 1) + 1, h);
  }

  lemma PositiveRevision(revision: int)
    requires ValidRevision(revision)
    ensures revision >= 1
  {
  }

  /** The i-th of a run of equal-sized blocks. */
  lemma BlockAt(refs: seq<ObjectRef>, level: nat, n: nat, chain: Bytes, i: nat)
    requires forall j :: 0 <= j < |refs| ==> ValidRef(refs[j]) && refs[j].level == level
    requires Walk(refs, Top(n, level + 1) + 1, chain).Some? && i < |refs|
    ensures refs[i].level == level && refs[i].start == Position(n, level, i)
    ensures refs[i].end == refs[i].start + Pow16(level) - 1
  {
    BlocksTile(refs, level, Top(n, level + 1) + 1, chain);
    hide ValidRef, Walk, Top, Pow16;
    BlockSize(refs[i]);
  }

  lemma LevelHere(lv: Levels, revision: int, prevHash: Bytes, level: nat)
    requires ValidRevision(revision) && LevelsOK(lv, revision, prevHash) && level < 16
    ensures forall i :: 0 <= i < |lv[level]| ==> ValidRef(lv[level][i]) && lv[level][i].level == level
  {
    assert LevelOK(lv[level], level, revision - 1);
    hide ValidRef, Walk;
  }

  lemma BlockSize(x: ObjectRef)
    requires ValidRef(x)
    ensures x.end == x.start + Pow16(x.level) - 1
  {
  }

  lemma LevelParts(refs: seq<ObjectRef>, level: nat, n: nat)
    requires LevelOK(refs, level, n)
    ensures forall i :: 0 <= i < |refs| ==> ValidRef(refs[i]) && refs[i].level == level
  {
    hide ValidRef;
  }

  /** Any two frontiers accepted for one revision have the same shape. */
  lemma ShapeIsCanonical(f: seq<FrontierLevel>, g: seq<FrontierLevel>, revision: int, p: Bytes, q: Bytes)
    requires FrontierOK(f, revision, p) && FrontierOK(g, revision, q)
    ensures |Refs(f)| == |Refs(g)|
    ensures forall i :: 0 <= i < |Refs(f)| ==>
              Refs(f)[i].level == Refs(g)[i].level &&
              Refs(f)[i].start == Refs(g)[i].start &&
              Refs(f)[i].end == Refs(g)[i].end
  {
    RefsAreFlat(f, 16);
    RefsAreFlat(g, 16);
    FlatShape(Spread(f), Spread(g), revision, p, q, 16);
  }

  lemma {:induction false} FlatShape(a: Levels, b: Levels, revision: int, p: Bytes, q: Bytes, k: nat)
    requires ValidRevision(revision) && LevelsOK(a, revision, p) && LevelsOK(b, revision, q) && k <= 16
    ensures |Flat(a, k)| == |Flat(b, k)|
    ensures forall i :: 0 <= i < |Flat(a, k)| ==>
              Flat(a, k)[i].level == Flat(b, k)[i].level &&
              Flat(a, k)[i].start == Flat(b, k)[i].start &&
              Flat(a, k)[i].end == Flat(b, k)[i].end
  {
    hide ValidRef, Walk;
    if k > 0 {
      var j := k - 1;
      FlatShape(a, b, revision, p, q, j);
      assert LevelOK(a[j], j, revision - 1) && LevelOK(b[j], j, revision - 1);
      forall i | 0 <= i < |a[j]|
        ensures a[j][i].level == b[j][i].level && a[j][i].start == b[j][i].start && a[j][i].end == b[j][i].end
      {
        RefPosition(a, revision, p, j, i);
        RefPosition(b, revision, q, j, i);
      }
    }
  }

  /** An accepted frontier lists every block of [1, revision) exactly once, in order. */
  lemma FrontierCovers(f: seq<FrontierLevel>, revision: int, prevHash: Bytes, r: int)
    requires FrontierOK(f, revision, prevHash) && 1 <= r < revision
    ensures exists i :: 0 <= i < |Refs(f)| && Refs(f)[i].start <= r <= Refs(f)[i].end &&
              forall j :: 0 <= j < |Refs(f)| && Refs(f)[j].start <= r <= Refs(f)[j].end ==> j == i
  {
    hide ValidRef, Walk, Flat;
    RefsAreFlat(f, 16);
    FlatValid(Spread(f), 16, revision - 1);
    var i := WalkCovers(Refs(f), 1, ZERO_HASH, r);
  }

  lemma {:induction false} WalkCovers(refs: seq<ObjectRef>, next: int, chain: Bytes, r: int) returns (i: nat)
    requires forall x :: x in refs ==> ValidRef(x)
    requires Walk(refs, next, chain).Some? && next <= r < Walk(refs, next, chain).value.0
    ensures i < |refs| && refs[i].start <= r <= refs[i].end
    ensures forall j :: 0 <= j < |refs| && refs[j].start <= r <= refs[j].end ==> j == i
  {
    var head := refs[0];
    assert ValidRef(head);
    WalkForward(refs[1..], head.end + 1, head.lastRecordHash);
    if r <= head.end {
      i := 0;
      assert forall j :: 0 < j < |refs| ==> refs[j] == refs[1..][j - 1] && refs[j] in refs[1..];
    } else {
      var k := WalkCovers(refs[1..], head.end + 1, head.lastRecordHash, r);
      i := k + 1;
      assert forall j :: 0 < j < |refs| ==> refs[j] == refs[1..][j - 1];
    }
  }

  // ---- Inside a segment ----

  /** The frontier of the commit at a segment's last revision contains the segment's
      interior as its own suffix: fifteen blocks of every smaller level, then the commit. */
  lemma SegmentInterior(ref: ObjectRef, lv: Levels, prevHash: Bytes) returns (h: Bytes)
    requires ValidRef(ref) && LevelsOK(lv, ref.end, prevHash)
    ensures Walk(Above(lv, ref.level), 1, ZERO_HASH) == Some((ref.start, h))
    ensures Walk(Flat(lv, ref.level), ref.start, h) == Some((ref.end, prevHash))
    ensures forall k :: 0 <= k < ref.level ==> |lv[k]| == 15
  {
    hide *;
    SegmentEnd(ref);
    h := Boundary(lv, ref.end, prevHash, ref.level);
    forall k | 0 <= k < ref.level
      ensures |lv[k]| == 15
    {
      FullLevel(lv, ref.end, prevHash, ref.level, k);
    }
  }

  lemma SegmentEnd(ref: ObjectRef)
    requires ValidRef(ref)
    ensures ref.level <= 15 && 1 <= ref.start <= ref.end && ValidRevision(ref.end)
    ensures Full(ref.end - 1, ref.level) && Top(ref.end - 1, ref.level) == ref.start - 1
  {
    hide Aligned, Full, Top;
    BlockEnd(ref.start - 1, ref.level);
  }

  lemma FullLevel(lv: Levels, revision: int, prevHash: Bytes, level: nat, k: nat)
    requires ValidRevision(revision) && LevelsOK(lv, revision, prevHash)
    requires Full(revision - 1, level) && k < level <= 16
    ensures |lv[k]| == 15
  {
    assert LevelOK(lv[k], k, revision - 1);
    hide *;
    FullDigit(revision - 1, level, k);
    LevelCount(lv[k], k, revision - 1);
  }

  lemma LevelCount(refs: seq<ObjectRef>, level: nat, n: nat)
    requires LevelOK(refs, level, n)
    ensures |refs| == Digit(n, level)
  {
    hide ValidRef;
  }

  // ---- Sizes ----

  lemma {:induction false} FlatSize(lv: Levels, k: nat, n: nat)
    requires k <= 16 && forall level :: 0 <= level < k ==> LevelOK(lv[level], level, n)
    ensures |Flat(lv, k)| == LowDigits(n, k)
  {
    if k > 0 {
      FlatSize(lv, k - 1, n);
      assert LevelOK(lv[k - 1], k - 1, n);
    }
  }

  lemma RevisionRange()
    ensures Pow16(13) == 0x10_0000_0000_0000 && Pow16(14) == 0x100_0000_0000_0000
    ensures MAX_REVISION == 2 * Pow16(13) - 1
    ensures MAX_REVISION < Pow16(14) < Pow16(16)
  {
    assert Pow16(4) == 0x1_0000;
    assert Pow16(8) == 0x1_0000 * Pow16(4);
    assert Pow16(12) == 0x1_0000 * Pow16(8);
    assert Pow16(16) == 0x1_0000 * Pow16(12);
  }

  lemma {:induction false} DigitSumBound(n: nat, k: nat)
    ensures n <= 2 * Pow16(k) - 2 ==> DigitSum(n) <= 15 * k
    ensures n <= 2 * Pow16(k) - 1 ==> DigitSum(n) <= 15 * k + 1
  {
    if n == 0 {
    } else if k == 0 {
      assert n == 1 ==> DigitSum(1) == 1 + DigitSum(0);
    } else {
      var p := Pow16(k - 1);
      assert DigitSum(n) == n % 16 + DigitSum(n / 16);
      hide *;
      DigitSumBound(n / 16, k - 1);
      assert n <= 2 * (16 * p) - 2 ==> n / 16 <= 2 * p - 1 && (n / 16 == 2 * p - 1 ==> n % 16 <= 14);
    }
  }

  /** A frontier has one reference per unit of the hexadecimal digit sum of R - 1, never
      more than 195, and none at a level above 13. */
  lemma FrontierSize(f: seq<FrontierLevel>, revision: int, prevHash: Bytes)
    requires FrontierOK(f, revision, prevHash)
    ensures |Refs(f)| == DigitSum(revision - 1) <= 195
    ensures forall i :: 0 <= i < |f| ==> f[i].level <= 13
  {
    var lv := Spread(f);
    RefsAreFlat(f, 16);
    FlatSize(lv, 16, revision - 1);
    RevisionRange();
    LowDigitsTotal(revision - 1, 16);
    DigitSumBound(revision - 1, 13);
    forall i | 0 <= i < |f|
      ensures f[i].level <= 13
    {
      var level := f[i].level;
      if level >= 14 {
        assert LevelOK(lv[level], level, revision - 1);
        RefsAtPresent(f, i);
        Pow16Monotone(14, level);
        TopZero(revision - 1, level);
      }
    }
  }

  lemma {:induction false} RefsAtPresent(f: seq<FrontierLevel>, i: nat)
    requires CanonicalLevels(f) && i < |f|
    ensures RefsAt(f, f[i].level) == f[i].refs
  {
    if i < |f| - 1 {
      RefsAtPresent(f[..|f| - 1], i);
    }
  }

  // ---- From the level array back to the stored list ----

  /** Nonempty levels below k, lowest first. */
  function Gather(lv: Levels, k: nat): seq<FrontierLevel>
    requires k <= 16
  {
    if k == 0 then []
    else Gather(lv, k - 1) + if lv[k - 1] == [] then [] else [FrontierLevel(k - 1, lv[k - 1])]
  }

  lemma {:induction false} GatherCanonical(lv: Levels, k: nat)
    requires k <= 16 && forall i :: 0 <= i < k ==> |lv[i]| <= 15
    ensures CanonicalLevels(Gather(lv, k))
    ensures forall i :: 0 <= i < |Gather(lv, k)| ==> Gather(lv, k)[i].level < k
    ensures forall i :: 0 <= i < 16 ==> Spread(Gather(lv, k))[i] == if i < k then lv[i] else []
  {
    if k > 0 {
      var g, top := Gather(lv, k - 1), FrontierLevel(k - 1, lv[k - 1]);
      assert Gather(lv, k) == if lv[k - 1] == [] then g else g + [top];
      hide Gather, Spread, CanonicalLevels;
      GatherCanonical(lv, k - 1);
      if lv[k - 1] != [] {
        SpreadSnoc(g, top);
        CanonicalSnoc(g, top);
      }
    } else {
      assert Gather(lv, k) == [];
    }
  }

  lemma CanonicalSnoc(g: seq<FrontierLevel>, top: FrontierLevel)
    requires CanonicalLevels(g) && top.level <= 15 && 1 <= |top.refs| <= 15
    requires forall i :: 0 <= i < |g| ==> g[i].level < top.level
    ensures CanonicalLevels(g + [top])
    ensures var f := g + [top]; forall i :: 0 <= i < |f| ==> f[i].level <= top.level
  {
  }
}
