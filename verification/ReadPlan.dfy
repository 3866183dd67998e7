/**
 Scan's choice between a packed segment and the historical commit at its end, made from
 revision arithmetic alone before any I/O.
 */
module ReadPlan {
  import opened Radix
  import opened Machine
  import Frontier

  /** An inclusive interval of revisions; Range(0, 0) is the empty one. */
  datatype Range = Range(first: int, last: int)

  const EMPTY := Range(0, 0)

  function All(): Range { Range(1, MAX_REVISION) }

  function StartingAt(revision: int): Range { Range(revision, MAX_REVISION) }

  function After(revision: int): Range {
    if revision < 0 || revision > MAX_REVISION then StartingAt(revision)
    else if revision == MAX_REVISION then EMPTY
    else StartingAt(revision + 1)
  }

  predicate ValidRange(r: Range) {
    r == EMPTY || (0 < r.first <= r.last <= MAX_REVISION)
  }

  predicate Requests(r: Range, revision: int) {
    r.first <= revision <= r.last
  }

  /** The revisions each kind of range asks for, and when it is a valid one. */
  lemma RangesMean(n: int, revision: int)
    requires 1 <= revision <= MAX_REVISION
    ensures ValidRange(All()) && Requests(All(), revision)
    ensures ValidRange(StartingAt(n)) <==> 1 <= n <= MAX_REVISION
    ensures ValidRange(StartingAt(n)) ==> (Requests(StartingAt(n), revision) <==> revision >= n)
    ensures ValidRange(After(n)) <==> 0 <= n <= MAX_REVISION
    ensures ValidRange(After(n)) ==> (Requests(After(n), revision) <==> revision > n)
    ensures After(0) == All()
  {
  }

  datatype ReadCost = ReadCost(records: int, gets: int, refs: int)

  const FREE := ReadCost(0, 0, 0)

  function Plus(a: ReadCost, b: ReadCost): ReadCost {
    ReadCost(a.records + b.records, a.gets + b.gets, a.refs + b.refs)
  }

  /** The estimate in bytes, over integers where the Go code uses float64. */
  function Weight(c: ReadCost, batchBytes: int): int {
    c.records * (64 + batchBytes) + 384 * c.refs + 0x1_0000 * c.gets
  }

  /** Decides whether the first cost beats the second. Everything about Scan is proved for
      an arbitrary such function, so rounding in the estimate cannot matter. */
  type Cheaper = (ReadCost, ReadCost) -> bool

  function ByWeight(batchBytes: int): Cheaper {
    (a, b) => Weight(a, batchBytes) < Weight(b, batchBytes)
  }

  function CommitReadCost(revision: int): ReadCost {
    ReadCost(1, 1, if revision <= 1 then 0 else DigitSum(revision - 1))
  }

  /** rangeReadPlan: the predicted cost of reading r within a block, and whether to split it. */
  function Plan(start: int, level: nat, r: Range, cheaper: Cheaper): (ReadCost, bool)
    decreases level, 0, 0
  {
    var size := Pow16(level);
    var end := start + size - 1;
    if r.last < start || r.first > end then (FREE, false)
    else if level == 0 then (CommitReadCost(start), false)
    else
      var packed := ReadCost(size, 1, 0);
      if (r.first <= start && r.last >= end) || r.last < end then (packed, false)
      else
        var historical := Plus(CommitReadCost(end), PlanChildren(start, level - 1, 15, r, cheaper));
        if cheaper(historical, packed) then (historical, true) else (packed, false)
  }

  /** The next `count` blocks of a level, then fifteen blocks of each smaller level. */
  function PlanChildren(next: int, level: nat, count: nat, r: Range, cheaper: Cheaper): ReadCost
    decreases level, 1, count
  {
    if count > 0 then
      Plus(Plan(next, level, r, cheaper).0, PlanChildren(next + Pow16(level), level, count - 1, r, cheaper))
    else if level == 0 then FREE
    else PlanChildren(next, level - 1, 15, r, cheaper)
  }

  lemma PlusAssociates(a: ReadCost, b: ReadCost, c: ReadCost)
    ensures Plus(Plus(a, b), c) == Plus(a, Plus(b, c))
    ensures Plus(a, FREE) == a && Plus(FREE, a) == a
  {
  }

  /** A block is split only when the range starts inside it and reaches its end. */
  lemma SplitIsSuffix(start: int, level: nat, r: Range, cheaper: Cheaper)
    requires Plan(start, level, r, cheaper).1
    ensures level > 0 && start < r.first <= start + Pow16(level) - 1 <= r.last
  {
  }

  // ---- The predicted cost fits int64 ----

  /** No more records and requests than revisions, and 195 references for each. */
  predicate Fits(c: ReadCost, n: int) {
    0 <= c.records <= n && 0 <= c.gets <= n && 0 <= c.refs <= 195 * n
  }

  lemma CommitFits(revision: int)
    requires 1 <= revision <= MAX_REVISION
    ensures Fits(CommitReadCost(revision), 1)
  {
    Frontier.RevisionRange();
    Frontier.DigitSumBound(revision - 1, 13);
  }

  lemma {:induction false} PlanFits(start: int, level: nat, r: Range, cheaper: Cheaper)
    requires 1 <= start && start + Pow16(level) - 1 <= MAX_REVISION
    ensures Fits(Plan(start, level, r, cheaper).0, Pow16(level))
    decreases level, 0, 0
  {
    hide CommitReadCost, PlanChildren;
    if level > 0 {
      CommitFits(start + Pow16(level) - 1);
      PlanChildrenFits(start, level - 1, 15, r, cheaper);
    } else {
      CommitFits(start);
    }
  }

  lemma {:induction false} PlanChildrenFits(next: int, level: nat, count: nat, r: Range, cheaper: Cheaper)
    requires 1 <= next && next + count * Pow16(level) + Pow16(level) - 1 <= MAX_REVISION
    ensures Fits(PlanChildren(next, level, count, r, cheaper), count * Pow16(level) + Pow16(level) - 1)
    decreases level, 1, count
  {
    if count > 0 {
      var p := Pow16(level);
      MulAdd(count - 1, 1, p);
      assert (count - 1) * p >= 0;
      PlanFits(next, level, r, cheaper);
      PlanChildrenFits(next + p, level, count - 1, r, cheaper);
      hide Plan, Pow16;
    } else if level > 0 {
      PlanChildrenFits(next, level - 1, 15, r, cheaper);
    }
  }

  // ---- The loops, in int64 ----

  datatype Cost64 = Cost64(records: Int64, gets: Int64, refs: Int64)

  function AsCost(c: Cost64): ReadCost {
    ReadCost(c.records as int, c.gets as int, c.refs as int)
  }

  method CommitReadCostLoop(revision: Int64) returns (cost: Cost64)
    requires 1 <= revision as int <= MAX_REVISION
    ensures AsCost(cost) == CommitReadCost(revision as int)
  {
    CommitFits(revision as int);
    var refs, n: Int64 := 0, revision - 1;
    while n > 0
      invariant n >= 0 && refs >= 0
      invariant refs as int + DigitSum(n as int) == CommitReadCost(revision as int).refs
    {
      refs := refs + n % 16;
      n := n / 16;
    }
    cost := Cost64(1, 1, refs);
  }

  /** The cost so far and the planned rest make up a total far below 2^63. */
  ghost predicate Sums(acc: Cost64, rest: ReadCost, total: ReadCost) {
    && Plus(AsCost(acc), rest) == total
    && acc.records >= 0 && acc.gets >= 0 && acc.refs >= 0
    && rest.records >= 0 && rest.gets >= 0 && rest.refs >= 0
    && Fits(total, MAX_REVISION)
  }

  lemma SumsStart(acc: Cost64, rest: ReadCost, n: nat, m: nat)
    requires Fits(AsCost(acc), n) && Fits(rest, m) && n + m <= MAX_REVISION
    ensures Sums(acc, rest, Plus(AsCost(acc), rest))
  {
  }

  /** Adding the cost of one child moves it from the rest to what is known. */
  lemma SumsNext(acc: Cost64, child: Cost64, rest: ReadCost, total: ReadCost)
    requires Sums(acc, Plus(AsCost(child), rest), total)
    requires child.records >= 0 && child.gets >= 0 && child.refs >= 0
    requires rest.records >= 0 && rest.gets >= 0 && rest.refs >= 0
    ensures 195 * MAX_REVISION < 0x8000_0000_0000_0000
    ensures acc.records as int + child.records as int <= MAX_REVISION
    ensures acc.gets as int + child.gets as int <= MAX_REVISION
    ensures acc.refs as int + child.refs as int <= 195 * MAX_REVISION
    ensures Sums(Cost64(acc.records + child.records, acc.gets + child.gets, acc.refs + child.refs), rest, total)
  {
  }

  /** The fifteen children of one level. */
  method AddChildren(start: Int64, level: nat, r: Range, cheaper: Cheaper, historical: Cost64, ghost total: ReadCost)
    returns (sum: Cost64, next: Int64)
    requires level <= 15 && 1 <= start && start as int + 16 * Pow16(level) - 1 <= MAX_REVISION
    requires Sums(historical, PlanChildren(start as int, level, 15, r, cheaper), total)
    ensures next as int == start as int + 15 * Pow16(level)
    ensures Sums(sum, PlanChildren(next as int, level, 0, r, cheaper), total)
    decreases level, 1, 0
  {
    hide *;
    var childSize := Size(level);
    sum, next := historical, start;
    var count := 15;
    while count > 0
      invariant 0 <= count <= 15 && 1 <= next
      invariant next as int == start as int + (15 - count) * childSize as int
      invariant Sums(sum, PlanChildren(next as int, level, count, r, cheaper), total)
    {
      ChildStep(next as int, level, count, r, cheaper);
      var child, _ := RangeReadPlan(next, level, r, cheaper);
      AsCostFits(child, Pow16(level));
      SumsNext(sum, child, PlanChildren(next as int + Pow16(level), level, count - 1, r, cheaper), total);
      sum := Cost64(sum.records + child.records, sum.gets + child.gets, sum.refs + child.refs);
      OneMore(15 - count, childSize as int);
      next := next + childSize;
      count := count - 1;
    }
  }

  lemma OneMore(k: int, size: int)
    ensures (k + 1) * size == k * size + size
  {
  }

  lemma ChildStep(next: int, level: nat, count: nat, r: Range, cheaper: Cheaper)
    requires 0 < count <= 15 && 1 <= next && next + (count + 1) * Pow16(level) - 1 <= MAX_REVISION
    ensures next + Pow16(level) - 1 <= MAX_REVISION
    ensures PlanChildren(next, level, count, r, cheaper)
            == Plus(Plan(next, level, r, cheaper).0, PlanChildren(next + Pow16(level), level, count - 1, r, cheaper))
    ensures Fits(Plan(next, level, r, cheaper).0, Pow16(level))
    ensures
      var rest := PlanChildren(next + Pow16(level), level, count - 1, r, cheaper);
      rest.records >= 0 && rest.gets >= 0 && rest.refs >= 0
  {
    hide Plan, Pow16;
    var p := Pow16(level);
    MulAdd(count, 1, p);
    MulAdd(count - 1, 1, p);
    MulMonotone(0, count - 1, p);
    PlanFits(next, level, r, cheaper);
    PlanChildrenFits(next + p, level, count - 1, r, cheaper);
    NotNegative(PlanChildren(next + p, level, count - 1, r, cheaper), (count - 1) * p + p - 1);
  }

  lemma NotNegative(c: ReadCost, n: int)
    requires Fits(c, n)
    ensures c.records >= 0 && c.gets >= 0 && c.refs >= 0
  {
  }

  lemma AsCostFits(c: Cost64, n: nat)
    requires Fits(AsCost(c), n)
    ensures c.records >= 0 && c.gets >= 0 && c.refs >= 0
  {
  }

  lemma HistoricalFits(start: int, level: nat, r: Range, cheaper: Cheaper, commit: Cost64)
    requires level > 0 && 1 <= start && start + Pow16(level) - 1 <= MAX_REVISION
    requires AsCost(commit) == CommitReadCost(start + Pow16(level) - 1)
    ensures
      var children := PlanChildren(start, level - 1, 15, r, cheaper);
      Sums(commit, children, Plus(AsCost(commit), children))
  {
    hide Plan, CommitReadCost;
    CommitFits(start + Pow16(level) - 1);
    PlanChildrenFits(start, level - 1, 15, r, cheaper);
    SumsStart(commit, PlanChildren(start, level - 1, 15, r, cheaper), 1, Pow16(level) - 1);
  }

  /** The cost of the children of a level and those below it, and the records they cover. */
  function Rest(next: int, level: int, r: Range, cheaper: Cheaper): ReadCost {
    if level < 0 then FREE else PlanChildren(next, level, 15, r, cheaper)
  }

  function Remaining(level: int): int {
    if level < 0 then 0 else 16 * Pow16(level) - 1
  }

  /** The levels above have been added and the others remain, up to the block's end. */
  ghost predicate CostSoFar(historical: Cost64, next: Int64, level: int, end: Int64, total: ReadCost, r: Range, cheaper: Cheaper) {
    && 1 <= next && next as int + Remaining(level) == end as int <= MAX_REVISION
    && Sums(historical, Rest(next as int, level, r, cheaper), total)
  }

  lemma FirstLevel(historical: Cost64, start: Int64, level: nat, end: Int64, total: ReadCost, r: Range, cheaper: Cheaper)
    requires 0 < level && 1 <= start && end as int == start as int + Pow16(level) - 1 <= MAX_REVISION
    requires Sums(historical, PlanChildren(start as int, level - 1, 15, r, cheaper), total)
    ensures CostSoFar(historical, start, level - 1, end, total, r, cheaper)
  {
    hide PlanChildren, Sums;
  }

  lemma NextLevel(historical: Cost64, next: Int64, level: nat, end: Int64, total: ReadCost, r: Range, cheaper: Cheaper)
    requires CostSoFar(historical, next, level, end, total, r, cheaper)
    ensures 1 <= next && next as int + 16 * Pow16(level) - 1 == end as int <= MAX_REVISION
    ensures Sums(historical, PlanChildren(next as int, level, 15, r, cheaper), total)
  {
    hide PlanChildren, Sums, Pow16;
  }

  lemma LevelAdded(historical: Cost64, start: Int64, next: Int64, level: nat, end: Int64, total: ReadCost, r: Range, cheaper: Cheaper)
    requires 1 <= start && start as int + 16 * Pow16(level) - 1 == end as int <= MAX_REVISION
    requires next as int == start as int + 15 * Pow16(level)
    requires Sums(historical, PlanChildren(next as int, level, 0, r, cheaper), total)
    ensures CostSoFar(historical, next, level - 1, end, total, r, cheaper)
  {
    hide Plan, Sums;
  }

  lemma NothingLeft(historical: Cost64, next: Int64, end: Int64, total: ReadCost, r: Range, cheaper: Cheaper)
    requires CostSoFar(historical, next, -1, end, total, r, cheaper)
    ensures AsCost(historical) == total
  {
  }

  /** The cost of the commit at the end and of fifteen children of every smaller level. */
  method HistoricalCost(start: Int64, end: Int64, level: nat, r: Range, cheaper: Cheaper) returns (historical: Cost64)
    requires 0 < level <= 15 && 1 <= start && end as int == start as int + Pow16(level) - 1 <= MAX_REVISION
    ensures AsCost(historical) == Plus(CommitReadCost(end as int), PlanChildren(start as int, level - 1, 15, r, cheaper))
    decreases level, 0, 0
  {
    assert Pow16(level) == 16 * Pow16(level - 1);
    hide *;
    historical := CommitReadCostLoop(end);
    HistoricalFits(start as int, level, r, cheaper, historical);
    ghost var total := Plus(AsCost(historical), PlanChildren(start as int, level - 1, 15, r, cheaper));
    var next := start;
    var childLevel: int := level - 1;
    FirstLevel(historical, start, level, end, total, r, cheaper);
    while childLevel >= 0
      invariant -1 <= childLevel < level && CostSoFar(historical, next, childLevel, end, total, r, cheaper)
    {
      NextLevel(historical, next, childLevel, end, total, r, cheaper);
      ghost var start := next;
      historical, next := AddChildren(next, childLevel, r, cheaper, historical, total);
      LevelAdded(historical, start, next, childLevel, end, total, r, cheaper);
      childLevel := childLevel - 1;
    }
    NothingLeft(historical, next, end, total, r, cheaper);
  }

  method RangeReadPlan(start: Int64, level: nat, r: Range, cheaper: Cheaper) returns (cost: Cost64, split: bool)
    requires level <= 15 && 1 <= start && start as int + Pow16(level) - 1 <= MAX_REVISION
    ensures (AsCost(cost), split) == Plan(start as int, level, r, cheaper)
    decreases level, 0, 1
  {
    hide PlanChildren, CommitReadCost;
    var size := Size(level);
    var end := start + (size - 1);
    if r.last < start as int || r.first > end as int {
      return Cost64(0, 0, 0), false;
    }
    if level == 0 {
      cost := CommitReadCostLoop(start);
      return cost, false;
    }
    var packed := Cost64(size, 1, 0);
    if (r.first <= start as int && r.last >= end as int) || r.last < end as int {
      return packed, false;
    }
    var historical := HistoricalCost(start, end, level, r, cheaper);
    if cheaper(AsCost(historical), AsCost(packed)) {
      return historical, true;
    }
    return packed, false;
  }
}
