/**
 What a sequence of appends by one writer costs: one commit each, and one segment per
 completed block of 16, 16^2, ... records.
 */
module Costs {
  import opened Wrappers
  import opened Radix
  import opened Wire
  import opened Carry
  import Frontier

  datatype Built = Built(frontier: seq<FrontierLevel>, segments: nat)

  /** The frontier of the next commit after a writer's commits so far, and the segments
      created on the way. commits are the level-0 references carry makes of them. */
  function Append(pack: Packer, commits: seq<ObjectRef>): Option<Built> {
    if commits == [] then Some(Built([], 0))
    else
      match Append(pack, commits[..|commits| - 1])
      case None => None
      case Some(b) =>
        match CarryFrom(pack, Spread(b.frontier), commits[|commits| - 1], 0)
        case None => None
        case Some(c) => Some(Built(Frontier.Gather(c.levels, 16), b.segments + |c.created|))
  }

  function EndHash(commits: seq<ObjectRef>): Bytes {
    if commits == [] then ZERO_HASH else commits[|commits| - 1].lastRecordHash
  }

  /** References to commits 1, 2, ... of one hash chain. */
  predicate CommitRefs(commits: seq<ObjectRef>) {
    commits != [] ==>
      var n := |commits| - 1;
      && ValidRef(commits[n]) && commits[n].level == 0 && commits[n].start == n + 1 < MAX_REVISION
      && commits[n].firstPrevHash == EndHash(commits[..n])
      && CommitRefs(commits[..n])
  }

  /** After N appends every record before the head is either in the frontier or has been
      traded, fifteen for one segment. */
  lemma {:induction false} Conservation(pack: Packer, commits: seq<ObjectRef>, b: Built)
    requires Packs(pack) && CommitRefs(commits) && Append(pack, commits) == Some(b)
    ensures FrontierOK(b.frontier, |commits| + 1, EndHash(commits))
    ensures 15 * b.segments + |Refs(b.frontier)| == |commits|
    decreases |commits|
  {
    hide *;
    if commits == [] {
      EmptyFrontier();
      AppendNone(pack);
    } else {
      var n := |commits| - 1;
      var before, carried := AppendLast(pack, commits, b);
      LastRef(commits);
      Conservation(pack, commits[..n], before);
      CarryCorrect(pack, before.frontier, commits[n], carried);
    }
  }

  lemma LastRef(commits: seq<ObjectRef>)
    requires CommitRefs(commits) && commits != []
    ensures
      var n := |commits| - 1;
      ValidRef(commits[n]) && commits[n].level == 0 && commits[n].start == n + 1 < MAX_REVISION &&
      commits[n].firstPrevHash == EndHash(commits[..n]) && EndHash(commits) == commits[n].lastRecordHash &&
      CommitRefs(commits[..n])
  {
    hide ValidRef;
  }

  lemma InRange(commits: seq<ObjectRef>)
    requires CommitRefs(commits)
    ensures |commits| < MAX_REVISION
  {
    hide ValidRef;
  }

  lemma AppendNone(pack: Packer)
    ensures Append(pack, []) == Some(Built([], 0)) && EndHash([]) == ZERO_HASH
  {
  }

  lemma AppendLast(pack: Packer, commits: seq<ObjectRef>, b: Built) returns (before: Built, carried: Carried)
    requires commits != [] && Append(pack, commits) == Some(b)
    ensures Append(pack, commits[..|commits| - 1]) == Some(before)
    ensures CarryFrom(pack, Spread(before.frontier), commits[|commits| - 1], 0) == Some(carried)
    ensures b == Built(Frontier.Gather(carried.levels, 16), before.segments + |carried.created|)
  {
    before := Append(pack, commits[..|commits| - 1]).value;
    carried := CarryFrom(pack, Spread(before.frontier), commits[|commits| - 1], 0).value;
    hide CarryFrom, Spread, Frontier.Gather;
  }

  /** How many whole blocks end at record n: the times 16 divides it. */
  function Trailing(n: nat): nat {
    if n > 0 && n % 16 == 0 then 1 + Trailing(n / 16) else 0
  }

  lemma {:induction false} CompletedStep(n: nat)
    ensures Completed(n + 1) == Completed(n) + Trailing(n + 1)
  {
    if (n + 1) % 16 == 0 {
      assert (n + 1) / 16 == n / 16 + 1;
      CompletedStep(n / 16);
    } else {
      assert (n + 1) / 16 == n / 16;
    }
  }

  /** The append of revision |commits| + 1 creates one segment for each block it completes. */
  lemma AppendCreates(pack: Packer, commits: seq<ObjectRef>, b: Built)
    requires Packs(pack) && CommitRefs(commits) && commits != [] && Append(pack, commits) == Some(b)
    ensures Append(pack, commits[..|commits| - 1]).Some? &&
            b.segments == Append(pack, commits[..|commits| - 1]).value.segments + Trailing(|commits|)
  {
    hide *;
    var front := commits[..|commits| - 1];
    var before, carried := AppendLast(pack, commits, b);
    LastRef(commits);
    SegmentsCompleted(pack, commits, b);
    SegmentsCompleted(pack, front, before);
    CompletedStep(|commits| - 1);
  }

  lemma SegmentsCompleted(pack: Packer, commits: seq<ObjectRef>, b: Built)
    requires Packs(pack) && CommitRefs(commits) && Append(pack, commits) == Some(b)
    ensures b.segments == Completed(|commits|)
  {
    hide *;
    Conservation(pack, commits, b);
    InRange(commits);
    Frontier.FrontierSize(b.frontier, |commits| + 1, EndHash(commits));
    CompletedBlocks(|commits|);
  }

  /** Objects created by N appends: N commits and one segment per completed block, always
      fewer than 16 N / 15. */
  lemma TotalCreations(pack: Packer, commits: seq<ObjectRef>, b: Built)
    requires Packs(pack) && CommitRefs(commits) && Append(pack, commits) == Some(b)
    ensures b.segments == FloorSum(|commits|, 14)
    ensures var n := |commits| + 1; 15 * (n + b.segments) < 16 * n
  {
    hide *;
    var n := |commits|;
    InRange(commits);
    SegmentsCompleted(pack, commits, b);
    CompletedBlocks(n);
    Frontier.RevisionRange();
    Pow16Monotone(14, 15);
    CompletedIsFloorSum(n, 14);
  }

  function Quotient(n: nat, p: nat): nat
    requires p > 0
  {
    n / p
  }

  /** floor(n / 16) + floor(n / 16^2) + ... + floor(n / 16^k). */
  function FloorSum(n: nat, k: nat): nat {
    if k == 0 then 0 else FloorSum(n, k - 1) + Quotient(n, Pow16(k))
  }

  lemma DivTwice(n: nat, p: nat)
    requires p > 0
    ensures Quotient(n / 16, p) == Quotient(n, 16 * p)
  {
    var q, r := n / 16 / p, n / 16 % p;
    assert n / 16 == q * p + r;
    MulAssoc16(q, p);
    QuotientUnique(n, 16 * p, q, 16 * r + n % 16);
  }

  lemma {:induction false} FloorSumShift(n: nat, k: nat)
    ensures FloorSum(n, k + 1) == n / 16 + FloorSum(n / 16, k)
  {
    if k == 0 {
      assert Pow16(1) == 16;
    } else {
      FloorSumShift(n, k - 1);
      DivTwice(n, Pow16(k));
    }
  }

  lemma {:induction false} CompletedIsFloorSum(n: nat, k: nat)
    requires n < Pow16(k + 1)
    ensures Completed(n) == FloorSum(n, k)
  {
    if k == 0 {
      assert Pow16(1) == 16 && n / 16 == 0;
      assert n > 0 ==> Completed(n) == Completed(0);
    } else {
      CompletedIsFloorSum(n / 16, k - 1);
      FloorSumShift(n, k - 1);
    }
  }
}
