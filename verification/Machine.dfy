/**
 The int64 arithmetic of the Go code. Dafny checks every expression of this type for
 range, so what is computed here cannot overflow.
 */
module Machine {
  import opened Radix
  import opened Wire
  import opened Frontier

  newtype Int64 = x: int | -0x8000_0000_0000_0000 <= x < 0x8000_0000_0000_0000

  const MAX_REVISION_64: Int64 := 0x1F_FFFF_FFFF_FFFF

  /** int64(1) << (4 * level). */
  function Size(level: nat): (s: Int64)
    requires level <= 15
    ensures s as int == Pow16(level) <= 0x1000_0000_0000_0000
  {
    SizeFits(level);
    if level == 0 then 1 else 16 * Size(level - 1)
  }

  lemma SizeFits(level: nat)
    requires level <= 15
    ensures Pow16(level) <= 0x1000_0000_0000_0000
  {
    RevisionRange();
    assert Pow16(15) == 16 * Pow16(14);
    Pow16Monotone(level, 15);
  }

  /** Remainder by a block size is what alignment means. */
  lemma RemainderFits(start: Int64, level: nat)
    requires level <= 15 && start >= 1
    ensures (start - 1) % Size(level) == 0 <==> Aligned(start as int - 1, level)
  {
    AlignedIsRemainder(start as int - 1, level);
    assert ((start - 1) % Size(level)) as int == (start as int - 1) % Pow16(level);
  }

  /** The range test of validateRef. */
  method CheckRange(level: nat, start: Int64, end: Int64) returns (ok: bool)
    requires level <= 15 && ValidRevision(start as int) && ValidRevision(end as int)
    ensures ok <==> Aligned(start as int - 1, level) && start as int <= MAX_REVISION - (Pow16(level) - 1) &&
                    end as int == start as int + (Pow16(level) - 1)
    ensures ok ==> level <= 13
  {
    var size := Size(level);
    RemainderFits(start, level);
    RevisionRange();
    if level >= 14 {
      Pow16Monotone(14, level);
    }
    ok := (start - 1) % size == 0 && start <= MAX_REVISION_64 - (size - 1) && end == start + (size - 1);
  }
}
