/**
 The planner's choice is the best one: reading a block as planned is no heavier than any
 other way the format allows, and a block is split only where that is strictly lighter.
 */
module PlanCost {
  import opened Radix
  import opened ReadPlan

  /** A way of reading a block: not at all, as one object (its packed segment, or its commit
      at level 0), or through the commit at its end and the blocks of that commit's frontier. */
  datatype Reading = Nothing | Object | AtEnd(children: seq<Reading>)

  predicate Misses(start: int, level: nat, r: Range) {
    r.last < start || start + Pow16(level) - 1 < r.first
  }

  /** Only the known last hash of a block anchors its suffix; any other part needs the object. */
  predicate Suffix(start: int, level: nat, r: Range) {
    start < r.first <= start + Pow16(level) - 1 <= r.last
  }

  /** What the format allows for the part of a block that r asks for. */
  ghost predicate Allowed(t: Reading, start: int, level: nat, r: Range)
    decreases level, 0, 0
  {
    if Misses(start, level, r) then t == Nothing
    else
      match t
      case Nothing => false
      case Object => true
      case AtEnd(ts) => level > 0 && Suffix(start, level, r) && AllAllowed(ts, start, level - 1, 15, r)
  }

  /** `count` blocks of a level from next on, then fifteen of each smaller level. */
  ghost predicate AllAllowed(ts: seq<Reading>, next: int, level: nat, count: nat, r: Range)
    decreases level, 1, count
  {
    if count > 0 then
      ts != [] && Allowed(ts[0], next, level, r) && AllAllowed(ts[1..], next + Pow16(level), level, count - 1, r)
    else if level == 0 then ts == []
    else AllAllowed(ts, next, level - 1, 15, r)
  }

  /** The weight of a reading: that of each object it fetches. */
  ghost function Load(t: Reading, start: int, level: nat, r: Range, batch: int): int
    requires Allowed(t, start, level, r)
    decreases level, 0, 0
  {
    match t
    case Nothing => 0
    case Object => Weight(if level == 0 then CommitReadCost(start) else ReadCost(Pow16(level), 1, 0), batch)
    case AtEnd(ts) => Weight(CommitReadCost(start + Pow16(level) - 1), batch) + AllLoad(ts, start, level - 1, 15, r, batch)
  }

  ghost function AllLoad(ts: seq<Reading>, next: int, level: nat, count: nat, r: Range, batch: int): int
    requires AllAllowed(ts, next, level, count, r)
    decreases level, 1, count
  {
    if count > 0 then
      Load(ts[0], next, level, r, batch) + AllLoad(ts[1..], next + Pow16(level), level, count - 1, r, batch)
    else if level == 0 then 0
    else AllLoad(ts, next, level - 1, 15, r, batch)
  }

  /** Weights add up; a record weighs a batch and 64 bytes, a GET 64 KiB, a reference 384 bytes. */
  lemma WeightPlus(a: ReadCost, b: ReadCost, batch: int)
    ensures Weight(Plus(a, b), batch) == Weight(a, batch) + Weight(b, batch)
    ensures Weight(FREE, batch) == 0 && Weight(ReadCost(1, 0, 0), batch) == batch + 64
    ensures Weight(ReadCost(0, 1, 0), batch) == 64 * 1024 && Weight(ReadCost(0, 0, 1), batch) == 384
  {
  }

  /** The cost the planner compares with the packed object's. */
  function Historical(start: int, level: nat, r: Range, cheaper: Cheaper): ReadCost
    requires level > 0
  {
    Plus(CommitReadCost(start + Pow16(level) - 1), PlanChildren(start, level - 1, 15, r, cheaper))
  }

  lemma PlanCases(start: int, level: nat, r: Range, batch: int)
    ensures
      var p := Plan(start, level, r, ByWeight(batch));
      var packed := ReadCost(Pow16(level), 1, 0);
      if Misses(start, level, r) then p == (FREE, false)
      else if level == 0 then p == (CommitReadCost(start), false)
      else if !Suffix(start, level, r) then p == (packed, false)
      else
        var h := Historical(start, level, r, ByWeight(batch));
        p == if Weight(h, batch) < Weight(packed, batch) then (h, true) else (packed, false)
  {
    hide PlanChildren, CommitReadCost, Weight;
  }

  lemma ChildrenCases(next: int, level: nat, count: nat, r: Range, cheaper: Cheaper)
    ensures
      PlanChildren(next, level, count, r, cheaper) ==
      if count > 0 then Plus(Plan(next, level, r, cheaper).0, PlanChildren(next + Pow16(level), level, count - 1, r, cheaper))
      else if level == 0 then FREE
      else PlanChildren(next, level - 1, 15, r, cheaper)
  {
  }

  // ---- No reading is lighter ----

  /** Whatever else a reader could do, it would not be lighter. */
  lemma {:induction false} NoneLighter(t: Reading, start: int, level: nat, r: Range, batch: int)
    requires Allowed(t, start, level, r)
    ensures Weight(Plan(start, level, r, ByWeight(batch)).0, batch) <= Load(t, start, level, r, batch)
    decreases level, 0, 0
  {
    PlanCases(start, level, r, batch);
    WeightPlus(FREE, FREE, batch);
    hide Plan, PlanChildren, Weight, CommitReadCost;
    if t.AtEnd? {
      AllNoneLighter(t.children, start, level - 1, 15, r, batch);
      WeightPlus(CommitReadCost(start + Pow16(level) - 1), PlanChildren(start, level - 1, 15, r, ByWeight(batch)), batch);
    }
  }

  lemma {:induction false} AllNoneLighter(ts: seq<Reading>, next: int, level: nat, count: nat, r: Range, batch: int)
    requires AllAllowed(ts, next, level, count, r)
    ensures Weight(PlanChildren(next, level, count, r, ByWeight(batch)), batch) <= AllLoad(ts, next, level, count, r, batch)
    decreases level, 1, count
  {
    ChildrenCases(next, level, count, r, ByWeight(batch));
    WeightPlus(FREE, FREE, batch);
    hide Plan, PlanChildren, Weight, Allowed, Load;
    if count > 0 {
      NoneLighter(ts[0], next, level, r, batch);
      AllNoneLighter(ts[1..], next + Pow16(level), level, count - 1, r, batch);
      WeightPlus(Plan(next, level, r, ByWeight(batch)).0, PlanChildren(next + Pow16(level), level, count - 1, r, ByWeight(batch)), batch);
    } else if level > 0 {
      AllNoneLighter(ts, next, level - 1, 15, r, batch);
    }
  }

  // ---- And the planned one is a reading ----

  lemma {:induction false} Planned(start: int, level: nat, r: Range, batch: int) returns (t: Reading)
    ensures Allowed(t, start, level, r) && (t.AtEnd? <==> Plan(start, level, r, ByWeight(batch)).1)
    ensures Load(t, start, level, r, batch) == Weight(Plan(start, level, r, ByWeight(batch)).0, batch)
    decreases level, 0, 0
  {
    PlanCases(start, level, r, batch);
    WeightPlus(FREE, FREE, batch);
    hide Plan, PlanChildren, Weight, CommitReadCost;
    if Misses(start, level, r) {
      t := Nothing;
    } else if Plan(start, level, r, ByWeight(batch)).1 {
      var ts := AllPlanned(start, level - 1, 15, r, batch);
      t := AtEnd(ts);
      WeightPlus(CommitReadCost(start + Pow16(level) - 1), PlanChildren(start, level - 1, 15, r, ByWeight(batch)), batch);
    } else {
      t := Object;
    }
  }

  lemma {:induction false} AllPlanned(next: int, level: nat, count: nat, r: Range, batch: int) returns (ts: seq<Reading>)
    ensures AllAllowed(ts, next, level, count, r)
    ensures AllLoad(ts, next, level, count, r, batch) == Weight(PlanChildren(next, level, count, r, ByWeight(batch)), batch)
    decreases level, 1, count
  {
    ChildrenCases(next, level, count, r, ByWeight(batch));
    WeightPlus(FREE, FREE, batch);
    hide Plan, PlanChildren, Weight, Allowed, Load;
    if count > 0 {
      var t := Planned(next, level, r, batch);
      var rest := AllPlanned(next + Pow16(level), level, count - 1, r, batch);
      ts := [t] + rest;
      assert ts[1..] == rest;
      WeightPlus(Plan(next, level, r, ByWeight(batch)).0, PlanChildren(next + Pow16(level), level, count - 1, r, ByWeight(batch)), batch);
    } else if level > 0 {
      ts := AllPlanned(next, level - 1, 15, r, batch);
    } else {
      ts := [];
    }
  }

  /** A lightest reading of a block. */
  ghost predicate Lightest(t: Reading, start: int, level: nat, r: Range, batch: int) {
    Allowed(t, start, level, r) &&
    forall u :: Allowed(u, start, level, r) ==> Load(t, start, level, r, batch) <= Load(u, start, level, r, batch)
  }

  /** The planned cost is that of the lightest readings, and the block is split exactly when
      all of these split it: a packed object that is as light is preferred. */
  lemma PlanIsLightest(start: int, level: nat, r: Range, batch: int)
    ensures exists t :: Lightest(t, start, level, r, batch)
    ensures forall t :: Lightest(t, start, level, r, batch) ==>
              Load(t, start, level, r, batch) == Weight(Plan(start, level, r, ByWeight(batch)).0, batch)
    ensures Plan(start, level, r, ByWeight(batch)).1 <==> forall t :: Lightest(t, start, level, r, batch) ==> t.AtEnd?
  {
    var best := Planned(start, level, r, batch);
    PlanCases(start, level, r, batch);
    hide Plan, PlanChildren, Weight, CommitReadCost, Load, Allowed;
    forall u | Allowed(u, start, level, r)
      ensures Load(best, start, level, r, batch) <= Load(u, start, level, r, batch)
    {
      NoneLighter(u, start, level, r, batch);
    }
    assert Lightest(best, start, level, r, batch);
    if Plan(start, level, r, ByWeight(batch)).1 {
      forall t | Lightest(t, start, level, r, batch)
        ensures t.AtEnd?
      {
        NotWhole(t, start, level, r, batch);
      }
    }
  }

  /** Where the historical commit is chosen, the object and nothing at all are worse or not allowed. */
  lemma NotWhole(t: Reading, start: int, level: nat, r: Range, batch: int)
    requires Allowed(t, start, level, r) && Plan(start, level, r, ByWeight(batch)).1
    requires Load(t, start, level, r, batch) <= Weight(Plan(start, level, r, ByWeight(batch)).0, batch)
    ensures t.AtEnd?
  {
    PlanCases(start, level, r, batch);
    hide Plan, PlanChildren, Weight, CommitReadCost;
  }

  // ---- The documented catch-up ----

  /** Blocks that end before the range cost nothing. */
  lemma {:induction false} NothingBefore(next: int, level: nat, count: nat, r: Range, cheaper: Cheaper)
    requires next + count * Pow16(level) + Pow16(level) - 1 <= r.first
    ensures PlanChildren(next, level, count, r, cheaper) == FREE
    decreases level, 1, count
  {
    ChildrenCases(next, level, count, r, cheaper);
    hide PlanChildren;
    if count > 0 {
      var p := Pow16(level);
      MulAdd(count - 1, 1, p);
      assert (count - 1) * p >= 0;
      NothingBefore(next + p, level, count - 1, r, cheaper);
      hide Pow16;
    } else if level > 0 {
      NothingBefore(next, level - 1, 15, r, cheaper);
    }
  }

  lemma Powers()
    ensures Pow16(0) == 1 && Pow16(1) == 16 && Pow16(2) == 256 && Pow16(3) == 4096 && Pow16(4) == 65536
  {
  }

  lemma DigitStep(n: nat, top: nat)
    requires n == 16 * top + 15
    ensures DigitSum(n) == 15 + DigitSum(top)
  {
    assert n % 16 == 15 && n / 16 == top;
  }

  lemma LastCommitCost()
    ensures CommitReadCost(65536) == ReadCost(1, 1, 60)
  {
    DigitStep(65535, 4095);
    DigitStep(4095, 255);
    DigitStep(255, 15);
    DigitStep(15, 0);
    hide DigitSum;
    ZeroDigits();
  }

  lemma ZeroDigits()
    ensures DigitSum(0) == 0
  {
  }

  /** Catching up from revision 65,535 to 65,537 reads commit 65,536 alone instead of the
      segment of the first 65,536 records, whatever the size of the batches. */
  lemma CatchUpExample(batch: nat)
    ensures Plan(1, 4, Range(65536, 65537), ByWeight(batch)) == (ReadCost(1, 1, 60), true)
  {
    var r := Range(65536, 65537);
    hide *;
    Powers();
    LastCommitCost();
    PlanCases(1, 4, r, batch);
    NothingBefore(1, 3, 15, r, ByWeight(batch));
    ExampleCases(1, 4, r, batch);
  }

  lemma ExampleCases(start: int, level: nat, r: Range, batch: nat)
    requires start == 1 && level == 4 && r == Range(65536, 65537) && Pow16(level) == 65536
    requires CommitReadCost(65536) == ReadCost(1, 1, 60) && PlanChildren(1, 3, 15, r, ByWeight(batch)) == FREE
    ensures Historical(start, level, r, ByWeight(batch)) == ReadCost(1, 1, 60)
    ensures Weight(ReadCost(1, 1, 60), batch) < Weight(ReadCost(65536, 1, 0), batch)
    ensures !Misses(start, level, r) && Suffix(start, level, r)
  {
    hide PlanChildren, CommitReadCost, Pow16;
  }
}
