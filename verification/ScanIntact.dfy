/**
 On an intact store a scan delivers exactly the requested records of the log, whichever
 representation each part is read from, at exactly the planned cost.
 */
module ScanIntact {
  import opened Wrappers
  import opened Radix
  import opened Wire
  import opened Segment
  import opened History
  import opened ReadPlan
  import opened Scan
  import Frontier

  /** A true reference whose object can be fetched. */
  predicate Good(env: Env, get: Getter, hist: seq<Commit>, x: ObjectRef) {
    IsTrue(env, hist, x) && Serves(env, get, hist, x)
  }

  ghost predicate World(env: Env, get: Getter, hist: seq<Commit>) {
    Honest(env, hist) && Intact(env, get, hist)
  }

  function Max(a: int, b: int): int {
    if a < b then b else a
  }

  /** The facts about a good reference that the proofs below use. */
  lemma GoodBounds(env: Env, get: Getter, hist: seq<Commit>, x: ObjectRef)
    requires Good(env, get, hist, x)
    ensures ValidRef(x) && x.level <= 15 && 1 <= x.start <= x.end <= |hist| && x.end == x.start + Pow16(x.level) - 1
    ensures x.firstPrevHash == HashAt(hist, x.start - 1) && x.lastRecordHash == HashAt(hist, x.end)
    ensures IsTrue(env, hist, x)
  {
    hide IsTrue, Serves, ValidRef;
    TrueBounds(env, hist, x);
  }

  lemma WorldHonest(env: Env, get: Getter, hist: seq<Commit>)
    requires World(env, get, hist)
    ensures Honest(env, hist)
  {
  }

  lemma RecsEmpty(hist: seq<Commit>, s: int)
    requires 1 <= s <= |hist| + 1
    ensures Recs(hist, s, s - 1) == []
  {
  }

  lemma FrontierGood(env: Env, get: Getter, hist: seq<Commit>, r: int)
    requires World(env, get, hist) && 1 <= r <= |hist|
    ensures forall x :: x in Refs(hist[r - 1].frontier) ==> Good(env, get, hist, x)
  {
    assert HonestAt(env, hist, r) && ServedAt(env, get, hist, r);
  }

  // ---- The historical root of a true segment ----

  lemma {:induction false} SelectSkip(a: seq<ObjectRef>, b: seq<ObjectRef>, ref: ObjectRef, next: int, chain: Bytes)
    requires forall x :: x in a ==> ValidRef(x) && x.end < ref.start
    ensures SelectChildren(a + b, ref, next, chain) == SelectChildren(b, ref, next, chain)
  {
    hide ValidRef;
    if a == [] {
      assert a + b == b;
    } else {
      assert (a + b)[1..] == a[1..] + b && a[0] in a;
      SelectSkip(a[1..], b, ref, next, chain);
    }
  }

  lemma {:induction false} SelectTake(b: seq<ObjectRef>, ref: ObjectRef, next: int, chain: Bytes)
    requires forall x :: x in b ==> ValidRef(x) && x.level < ref.level
    requires Walk(b, next, chain).Some? && ref.start <= next
    ensures SelectChildren(b, ref, next, chain)
            == Some(Selection(b, Walk(b, next, chain).value.0, Walk(b, next, chain).value.1))
  {
    if b != [] {
      assert b[0] in b && ValidRef(b[0]);
      hide ValidRef;
      SelectTake(b[1..], ref, b[0].end + 1, b[0].lastRecordHash);
      assert b == [b[0]] + b[1..];
    }
  }

  /** Walking true references from the start of the log meets the log's own hashes. */
  lemma {:induction false} WalkTrue(env: Env, hist: seq<Commit>, refs: seq<ObjectRef>, next: int, chain: Bytes)
    requires AllTrue(env, hist, refs)
    requires 1 <= next <= |hist| + 1 && chain == HashAt(hist, next - 1) && Walk(refs, next, chain).Some?
    ensures 1 <= Walk(refs, next, chain).value.0 <= |hist| + 1
    ensures Walk(refs, next, chain).value.1 == HashAt(hist, Walk(refs, next, chain).value.0 - 1)
  {
    hide *;
    if refs == [] {
      WalkOfNone(next, chain);
    } else {
      var x := refs[0];
      TrueHead(env, hist, refs);
      WalkStep(refs, next, chain);
      TrueBounds(env, hist, x);
      WalkTrue(env, hist, refs[1..], x.end + 1, x.lastRecordHash);
    }
  }

  lemma WalkOfNone(next: int, chain: Bytes)
    ensures Walk([], next, chain) == Some((next, chain))
  {
  }

  lemma TrueHead(env: Env, hist: seq<Commit>, refs: seq<ObjectRef>)
    requires AllTrue(env, hist, refs) && refs != []
    ensures IsTrue(env, hist, refs[0]) && AllTrue(env, hist, refs[1..])
  {
    hide IsTrue;
  }

  lemma WalkStep(refs: seq<ObjectRef>, next: int, chain: Bytes)
    requires refs != [] && Walk(refs, next, chain).Some?
    ensures refs[0].start == next && Walk(refs, next, chain) == Walk(refs[1..], refs[0].end + 1, refs[0].lastRecordHash)
  {
  }

  /** The children a split reads: fifteen blocks of each smaller level inside the segment. */
  function Interior(hist: seq<Commit>, x: ObjectRef): seq<ObjectRef>
    requires 1 <= x.end <= |hist| && x.level <= 16
  {
    Flat(Spread(hist[x.end - 1].frontier), x.level)
  }

  /** What honesty says of one commit's frontier. */
  lemma HonestFrontier(env: Env, hist: seq<Commit>, r: int)
    requires Honest(env, hist) && 1 <= r <= |hist|
    ensures
      var f := hist[r - 1].frontier;
      CanonicalLevels(f) && (forall i :: 0 <= i < |f| ==> f[i].level < 16) &&
      ValidRevision(r) && LevelsOK(Spread(f), r, HashAt(hist, r - 1)) &&
      (forall x :: x in Refs(f) ==> IsTrue(env, hist, x))
  {
    hide IsTrue, LevelsOK, ValidProjection, Spread;
    assert HonestAt(env, hist, r);
  }

  lemma LevelsAt(lv: Levels, revision: int, prevHash: Bytes)
    requires ValidRevision(revision) && LevelsOK(lv, revision, prevHash)
    ensures forall k :: 0 <= k < 16 ==> LevelOK(lv[k], k, revision - 1)
  {
    hide LevelOK, Walk;
  }

  /** The facts about a true reference that do not depend on a store. */
  lemma TrueBounds(env: Env, hist: seq<Commit>, x: ObjectRef)
    requires IsTrue(env, hist, x)
    ensures ValidRef(x) && x.level <= 15 && 1 <= x.start <= x.end <= |hist| && x.end == x.start + Pow16(x.level) - 1
    ensures x.firstPrevHash == HashAt(hist, x.start - 1) && x.lastRecordHash == HashAt(hist, x.end)
  {
    hide TrueBody;
  }

  lemma InteriorShape(env: Env, hist: seq<Commit>, x: ObjectRef)
    requires Honest(env, hist) && IsTrue(env, hist, x)
    ensures Walk(Interior(hist, x), x.start, x.firstPrevHash) == Some((x.end, HashAt(hist, x.end - 1)))
    ensures
      var lv := Spread(hist[x.end - 1].frontier);
      Refs(hist[x.end - 1].frontier) == Frontier.Above(lv, x.level) + Interior(hist, x) &&
      (forall y :: y in Frontier.Above(lv, x.level) ==> ValidRef(y) && y.end < x.start) &&
      (forall y :: y in Interior(hist, x) ==> ValidRef(y) && y.level < x.level) &&
      (forall k :: 0 <= k < x.level ==> LevelOK(lv[k], k, x.end - 1) && |lv[k]| == 15)
  {
    hide *;
    TrueBounds(env, hist, x);
    InteriorIs(hist, x);
    var f := hist[x.end - 1].frontier;
    var lv := Spread(f);
    HonestFrontier(env, hist, x.end);
    RefsAreFlat(f, 16);
    Frontier.FlatSplit(lv, x.level);
    var above := Frontier.Above(lv, x.level);
    SomeRefs(env, hist, above, Flat(lv, x.level));
    LevelsAt(lv, x.end, HashAt(hist, x.end - 1));
    var h := Frontier.SegmentInterior(x, lv, HashAt(hist, x.end - 1));
    FlatValid(lv, x.level, x.end - 1);
    WalkForward(above, 1, ZERO_HASH);
    WalkTrueFromStart(env, hist, above);
  }

  lemma InteriorIs(hist: seq<Commit>, x: ObjectRef)
    requires 1 <= x.end <= |hist| && x.level <= 16
    ensures Interior(hist, x) == Flat(Spread(hist[x.end - 1].frontier), x.level)
  {
    hide Flat, Spread;
  }

  lemma SomeRefs(env: Env, hist: seq<Commit>, a: seq<ObjectRef>, b: seq<ObjectRef>)
    requires forall x :: x in a + b ==> IsTrue(env, hist, x)
    ensures forall x :: x in a ==> IsTrue(env, hist, x) && ValidRef(x)
  {
    hide IsTrue;
    forall x | x in a
      ensures IsTrue(env, hist, x) && ValidRef(x)
    {
      assert x in a + b;
      hide ValidRef;
      TrueBounds(env, hist, x);
    }
  }

  lemma WalkTrueFromStart(env: Env, hist: seq<Commit>, refs: seq<ObjectRef>)
    requires (forall x :: x in refs ==> IsTrue(env, hist, x)) && Walk(refs, 1, ZERO_HASH).Some?
    ensures 1 <= Walk(refs, 1, ZERO_HASH).value.0 <= |hist| + 1
    ensures var w := Walk(refs, 1, ZERO_HASH).value; w.1 == HashAt(hist, w.0 - 1)
  {
    hide IsTrue;
    assert AllTrue(env, hist, refs);
    hide AllTrue;
    WalkTrue(env, hist, refs, 1, ZERO_HASH);
  }

  /** The historical root of a true segment passes every check and gives the interior. */
  lemma HistoricalTrue(env: Env, get: Getter, hist: seq<Commit>, x: ObjectRef)
    requires Honest(env, hist) && IsTrue(env, hist, x) && 1 <= x.end <= |hist|
    requires get(LogKey(x.end)) == Ok(EncodeCommit(hist[x.end - 1]))
    ensures LoadHistorical(env, get, x) == Ok(Historical(hist[x.end - 1], Interior(hist, x)))
    ensures forall y :: y in Interior(hist, x) ==> y in Refs(hist[x.end - 1].frontier) && y.level < x.level
  {
    hide *;
    TrueBounds(env, hist, x);
    CommitDecodes(env, hist, x.end);
    InteriorShape(env, hist, x);
    var above, interior := Frontier.Above(Spread(hist[x.end - 1].frontier), x.level), Interior(hist, x);
    SelectSkip(above, interior, x, x.start, x.firstPrevHash);
    SelectTake(interior, x, x.start, x.firstPrevHash);
    assert forall y :: y in interior ==> y in above + interior;
    HistoricalForm(env, get, hist, x);
  }

  lemma CommitDecodes(env: Env, hist: seq<Commit>, r: int)
    requires Honest(env, hist) && 1 <= r <= |hist|
    ensures DecodeCommit(env, LogKey(r), EncodeCommit(hist[r - 1])) == Ok(hist[r - 1])
    ensures PrevHash(hist[r - 1]) == HashAt(hist, r - 1) && hist[r - 1].recordHash == HashAt(hist, r)
  {
    assert HonestAt(env, hist, r);
    hide ValidCommit, AllTrue;
  }

  lemma HistoricalForm(env: Env, get: Getter, hist: seq<Commit>, x: ObjectRef)
    requires 1 <= x.end <= |hist| && x.level <= 16 && get(LogKey(x.end)) == Ok(EncodeCommit(hist[x.end - 1]))
    requires DecodeCommit(env, LogKey(x.end), EncodeCommit(hist[x.end - 1])) == Ok(hist[x.end - 1])
    requires hist[x.end - 1].recordHash == x.lastRecordHash
    requires SelectChildren(Refs(hist[x.end - 1].frontier), x, x.start, x.firstPrevHash)
             == Some(Selection(Interior(hist, x), x.end, PrevHash(hist[x.end - 1])))
    ensures LoadHistorical(env, get, x) == Ok(Historical(hist[x.end - 1], Interior(hist, x)))
  {
    hide DecodeCommit, SelectChildren, Interior, Refs;
  }

  lemma HistoricalIntact(env: Env, get: Getter, hist: seq<Commit>, x: ObjectRef)
    requires World(env, get, hist) && Good(env, get, hist, x)
    ensures LoadHistorical(env, get, x) == Ok(Historical(hist[x.end - 1], Interior(hist, x)))
    ensures forall y :: y in Interior(hist, x) ==> Good(env, get, hist, y) && y.level < x.level
  {
    hide *;
    GoodBounds(env, get, hist, x);
    WorldHonest(env, get, hist);
    CommitServed(env, get, hist, x.end);
    FrontierGood(env, get, hist, x.end);
    HistoricalTrue(env, get, hist, x);
  }

  lemma CommitServed(env: Env, get: Getter, hist: seq<Commit>, r: int)
    requires World(env, get, hist) && 1 <= r <= |hist|
    ensures get(LogKey(r)) == Ok(EncodeCommit(hist[r - 1]))
    ensures DecodeCommit(env, LogKey(r), EncodeCommit(hist[r - 1])) == Ok(hist[r - 1])
    ensures PrevHash(hist[r - 1]) == HashAt(hist, r - 1)
  {
    hide ValidCommit, AllTrue, AllServed;
    assert HonestAt(env, hist, r) && ServedAt(env, get, hist, r);
  }

  // ---- Reading a block ----

  lemma ReadRecordsGood(env: Env, get: Getter, hist: seq<Commit>, x: ObjectRef)
    requires World(env, get, hist) && Good(env, get, hist, x)
    ensures ReadRecords(env, get, x) ==
            Stream(Recs(hist, x.start, x.end), None,
                   if x.level == 0 then CommitReadCost(x.start) else ReadCost(Pow16(x.level), 1, 0))
  {
    hide *;
    GoodParts(env, get, hist, x);
    WorldHonest(env, get, hist);
    TrueBounds(env, hist, x);
    LoadTrue(env, get, None, hist, x);
    RecsCount(hist, x.start, x.end);
    if x.level == 0 {
      LoadTrueCommit(env, get, None, hist, x);
      CommitCostMatches(env, hist, x.start);
      OneRecord(hist, x.start);
    }
    ReadRecordsForm(env, get, x);
  }

  lemma GoodParts(env: Env, get: Getter, hist: seq<Commit>, x: ObjectRef)
    requires Good(env, get, hist, x)
    ensures IsTrue(env, hist, x) && InLog(hist, x.level, x.start) && Serves(env, get, hist, x) && TrueCache(hist, None)
  {
    hide ValidRef, TrueRef, TrueBody;
  }

  lemma RecsCount(hist: seq<Commit>, s: int, e: int)
    requires 1 <= s <= e + 1 <= |hist| + 1
    ensures |Recs(hist, s, e)| == e - s + 1
  {
  }

  lemma ReadRecordsForm(env: Env, get: Getter, x: ObjectRef)
    ensures x.level == 0 && LoadCommitRef(env, get, None, x).Ok? ==>
              var c := LoadCommitRef(env, get, None, x).value;
              ReadRecords(env, get, x) == Stream([Project(c)], None, CommitCost(c))
    ensures x.level != 0 && LoadRecords(env, get, None, x).Ok? ==>
              var ps := LoadRecords(env, get, None, x).value;
              ReadRecords(env, get, x) == Stream(ps, None, ReadCost(|ps|, 1, 0))
    ensures Pow16(0) == 1
  {
    hide LoadCommitRef, LoadRecords;
  }

  /** The planned cost of reading references one after another. */
  function PlanList(refs: seq<ObjectRef>, r: Range, cheaper: Cheaper): ReadCost {
    if refs == [] then FREE
    else Plus(Plan(refs[0].start, refs[0].level, r, cheaper).0, PlanList(refs[1..], r, cheaper))
  }

  /** Reading a good block gives the log's records from some point at or before the range's
      first revision through the block's end, and costs what the plan said. */
  lemma {:induction false} PartsGood(env: Env, get: Getter, hist: seq<Commit>, x: ObjectRef, r: Range, cheaper: Cheaper) returns (s0: int)
    requires World(env, get, hist) && Good(env, get, hist, x) && x.start <= r.last
    ensures 1 <= x.start <= s0 <= x.end + 1 <= |hist| + 1 && s0 <= Max(x.start, r.first)
    ensures x.end < r.first ==> s0 == x.end + 1
    ensures Parts(env, get, x, r, cheaper) == Stream(Recs(hist, s0, x.end), None, Plan(x.start, x.level, r, cheaper).0)
    decreases x.level, 2, 0
  {
    hide ValidRef, Good, Interior, CommitReadCost, World, ReadRecords, LoadHistorical, Recs;
    GoodBounds(env, get, hist, x);
    if x.end < r.first {
      s0 := x.end + 1;
      RecsEmpty(hist, s0);
    } else if !Plan(x.start, x.level, r, cheaper).1 {
      s0 := x.start;
      ReadRecordsGood(env, get, hist, x);
    } else {
      SplitIsSuffix(x.start, x.level, r, cheaper);
      s0 := PartsSplit(env, get, hist, x, r, cheaper);
    }
  }

  lemma PartsUnfold(env: Env, get: Getter, x: ObjectRef, r: Range, cheaper: Cheaper, h: Historical)
    requires ValidRef(x) && x.end >= r.first && x.start <= r.last && Plan(x.start, x.level, r, cheaper).1
    requires LoadHistorical(env, get, x) == Ok(h)
    ensures Parts(env, get, x, r, cheaper) == AddCommit(PartsAll(env, get, h.children, x.level, r, cheaper), h.commit)
  {
    hide ValidRef, LoadHistorical, Plan, PartsAll;
  }

  lemma SplitCost(x: ObjectRef, r: Range, cheaper: Cheaper)
    requires x.level > 0 && Plan(x.start, x.level, r, cheaper).1
    ensures Plan(x.start, x.level, r, cheaper).0
            == Plus(CommitReadCost(x.start + Pow16(x.level) - 1), PlanChildren(x.start, x.level - 1, 15, r, cheaper))
  {
    hide PlanChildren, CommitReadCost;
  }

  lemma {:induction false} PartsSplit(env: Env, get: Getter, hist: seq<Commit>, x: ObjectRef, r: Range, cheaper: Cheaper) returns (s0: int)
    requires World(env, get, hist) && Good(env, get, hist, x)
    requires 1 <= x.start < r.first <= x.end <= r.last && x.end <= |hist| && x.end == x.start + Pow16(x.level) - 1
    requires ValidRef(x) && x.level > 0 && Plan(x.start, x.level, r, cheaper).1
    ensures x.start <= s0 <= x.end + 1 && s0 <= Max(x.start, r.first)
    ensures Parts(env, get, x, r, cheaper) == Stream(Recs(hist, s0, x.end), None, Plan(x.start, x.level, r, cheaper).0)
    decreases x.level, 1, 0
  {
    hide *;
    WorldHonest(env, get, hist);
    GoodBounds(env, get, hist, x);
    HistoricalIntact(env, get, hist, x);
    PartsUnfold(env, get, x, r, cheaper, Historical(hist[x.end - 1], Interior(hist, x)));
    SplitCost(x, r, cheaper);
    InteriorShape(env, hist, x);
    PlanInterior(env, hist, x, r, cheaper);
    CommitCostMatches(env, hist, x.end);
    var children := Interior(hist, x);
    s0 := PartsAllGood(env, get, hist, children, x.level, r, cheaper, x.start, x.firstPrevHash);
    AddCommitRecs(hist, s0, x.end, PartsAll(env, get, children, x.level, r, cheaper));
  }

  lemma CommitCostMatches(env: Env, hist: seq<Commit>, r: int)
    requires Honest(env, hist) && 1 <= r <= |hist|
    ensures CommitCost(hist[r - 1]) == CommitReadCost(r)
  {
    assert HonestAt(env, hist, r);
    Frontier.FrontierSize(hist[r - 1].frontier, r, PrevHash(hist[r - 1]));
  }

  lemma AddCommitRecs(hist: seq<Commit>, s0: int, e: int, s: Stream)
    requires 1 <= s0 <= e <= |hist| && s.err.None? && s.items == Recs(hist, s0, e - 1)
    ensures AddCommit(s, hist[e - 1]) == Stream(Recs(hist, s0, e), None, Plus(CommitCost(hist[e - 1]), s.cost))
  {
    assert Recs(hist, e, e) == [Project(hist[e - 1])];
    RecsConcat(hist, s0, e - 1, e);
  }

  lemma {:induction false} PartsAllGood(env: Env, get: Getter, hist: seq<Commit>, refs: seq<ObjectRef>, bound: nat, r: Range, cheaper: Cheaper, next: int, chain: Bytes) returns (s0: int)
    requires World(env, get, hist)
    requires forall x :: x in refs ==> Good(env, get, hist, x) && x.level < bound
    requires 1 <= next <= |hist| + 1 && Walk(refs, next, chain).Some? && r.last >= Walk(refs, next, chain).value.0 - 1
    ensures next <= s0 <= Walk(refs, next, chain).value.0 <= |hist| + 1 && s0 <= Max(next, r.first)
    ensures PartsAll(env, get, refs, bound, r, cheaper)
            == Stream(Recs(hist, s0, Walk(refs, next, chain).value.0 - 1), None, PlanList(refs, r, cheaper))
    decreases bound, 0, |refs|
  {
    hide *;
    if refs == [] {
      s0 := next;
      NoParts(env, get, hist, bound, r, cheaper, next, chain);
    } else {
      var x, rest := refs[0], refs[1..];
      GoodBounds(env, get, hist, x);
      PartsAllHead(env, get, refs, bound, r, cheaper, next, chain);
      var e := Walk(refs, next, chain).value.0 - 1;
      GoodWalk(env, get, hist, rest, x.end + 1, x.lastRecordHash);
      var a := PartsGood(env, get, hist, x, r, cheaper);
      var b := PartsAllGood(env, get, hist, rest, bound, r, cheaper, x.end + 1, x.lastRecordHash);
      s0 := if b == x.end + 1 then a else b;
      MaxBound(x.end + 1, r.first);
      MaxBound(next, r.first);
      JoinStreams(hist, Parts(env, get, x, r, cheaper), PartsAll(env, get, rest, bound, r, cheaper), a, x.end, b, e);
    }
  }

  lemma MaxBound(a: int, b: int)
    ensures Max(a, b) >= a && Max(a, b) >= b && (Max(a, b) == a || Max(a, b) == b)
  {
  }

  lemma NoParts(env: Env, get: Getter, hist: seq<Commit>, bound: nat, r: Range, cheaper: Cheaper, next: int, chain: Bytes)
    requires 1 <= next <= |hist| + 1
    ensures Walk([], next, chain) == Some((next, chain)) && next <= Max(next, r.first)
    ensures PartsAll(env, get, [], bound, r, cheaper) == Stream(Recs(hist, next, next - 1), None, PlanList([], r, cheaper))
  {
  }

  /** The first of some references is read before the rest. */
  lemma PartsAllHead(env: Env, get: Getter, refs: seq<ObjectRef>, bound: nat, r: Range, cheaper: Cheaper, next: int, chain: Bytes)
    requires refs != [] && Walk(refs, next, chain).Some? && forall x :: x in refs ==> x.level < bound
    ensures
      var x, rest := refs[0], refs[1..];
      x.start == next && Walk(rest, x.end + 1, x.lastRecordHash) == Walk(refs, next, chain) &&
      (forall y :: y in rest ==> y in refs) &&
      PartsAll(env, get, refs, bound, r, cheaper) == Then(Parts(env, get, x, r, cheaper), PartsAll(env, get, rest, bound, r, cheaper)) &&
      PlanList(refs, r, cheaper) == Plus(Plan(x.start, x.level, r, cheaper).0, PlanList(rest, r, cheaper))
  {
    hide Parts, Plan, Then, Plus;
  }

  /** Good references move the walk forward within the log. */
  lemma GoodWalk(env: Env, get: Getter, hist: seq<Commit>, refs: seq<ObjectRef>, next: int, chain: Bytes)
    requires forall x :: x in refs ==> Good(env, get, hist, x)
    requires Walk(refs, next, chain).Some?
    ensures next <= Walk(refs, next, chain).value.0
  {
    hide ValidRef, Walk;
    assert forall x :: x in refs ==> ValidRef(x);
    WalkForward(refs, next, chain);
  }

  /** Two adjacent runs of records join, also when the first is empty. */
  lemma JoinRecs(hist: seq<Commit>, a: int, m: int, b: int, e: int)
    requires 1 <= a <= m + 1 <= |hist| + 1 && m + 1 <= b <= e + 1 <= |hist| + 1
    ensures b == m + 1 ==> Recs(hist, a, m) + Recs(hist, b, e) == Recs(hist, a, e)
    ensures a == m + 1 ==> Recs(hist, a, m) + Recs(hist, b, e) == Recs(hist, b, e)
  {
    if b == m + 1 {
      RecsConcat(hist, a, m, e);
    }
    if a == m + 1 {
      assert Recs(hist, a, m) == [];
    }
  }

  lemma JoinStreams(hist: seq<Commit>, p: Stream, q: Stream, a: int, m: int, b: int, e: int)
    requires 1 <= a <= m + 1 <= |hist| + 1 && m + 1 <= b <= e + 1 <= |hist| + 1 && (a == m + 1 || b == m + 1)
    requires p.err.None? && p.items == Recs(hist, a, m) && q.err.None? && q.items == Recs(hist, b, e)
    ensures Then(p, q) == Stream(Recs(hist, if b == m + 1 then a else b, e), None, Plus(p.cost, q.cost))
  {
    JoinRecs(hist, a, m, b, e);
    hide Recs, Plus;
  }

  // ---- The plan's loops visit the same blocks ----

  lemma RefEnd(x: ObjectRef)
    requires ValidRef(x)
    ensures 1 <= x.start && x.end + 1 == x.start + Pow16(x.level)
  {
  }

  lemma {:induction false} PlanRun(a: seq<ObjectRef>, rest: seq<ObjectRef>, level: nat, next: int, chain: Bytes, r: Range, cheaper: Cheaper)
    requires forall i :: 0 <= i < |a| ==> ValidRef(a[i]) && a[i].level == level
    requires Walk(a, next, chain).Some?
    requires PlanList(rest, r, cheaper) == PlanChildren(Walk(a, next, chain).value.0, level, 0, r, cheaper)
    ensures PlanList(a + rest, r, cheaper) == PlanChildren(next, level, |a|, r, cheaper)
  {
    hide ValidRef, Plan, Pow16;
    if a == [] {
      assert a + rest == rest;
    } else {
      RefEnd(a[0]);
      assert (a + rest)[1..] == a[1..] + rest;
      PlanRun(a[1..], rest, level, a[0].end + 1, a[0].lastRecordHash, r, cheaper);
    }
  }

  lemma {:induction false} PlanLevels(lv: Levels, k: nat, n: nat, next: int, chain: Bytes, r: Range, cheaper: Cheaper)
    requires k <= 16 && FullLevels(lv, k, n) && Walk(Flat(lv, k), next, chain).Some?
    ensures PlanList(Flat(lv, k), r, cheaper) == if k == 0 then FREE else PlanChildren(next, k - 1, 15, r, cheaper)
  {
    hide *;
    if k == 0 {
      NoPlan(lv, r, cheaper);
    } else {
      var refs, rest := lv[k - 1], Flat(lv, k - 1);
      FullDown(lv, k, n);
      FlatStep(lv, k);
      WalkConcat(refs, rest, next, chain);
      var w := Walk(refs, next, chain).value;
      LevelDone(w.0, k - 1, r, cheaper);
      PlanLevels(lv, k - 1, n, w.0, w.1, r, cheaper);
      PlanRun(refs, rest, k - 1, next, chain, r, cheaper);
    }
  }

  /** The levels below k hold fifteen blocks each. */
  ghost predicate FullLevels(lv: Levels, k: nat, n: nat) {
    forall j :: 0 <= j < k && j < 16 ==> LevelOK(lv[j], j, n) && |lv[j]| == 15
  }

  lemma FullDown(lv: Levels, k: nat, n: nat)
    requires 0 < k <= 16 && FullLevels(lv, k, n)
    ensures FullLevels(lv, k - 1, n) && |lv[k - 1]| == 15
    ensures var refs := lv[k - 1]; forall i :: 0 <= i < |refs| ==> ValidRef(refs[i]) && refs[i].level == k - 1
  {
    hide LevelOK;
    Frontier.LevelParts(lv[k - 1], k - 1, n);
  }

  lemma NoPlan(lv: Levels, r: Range, cheaper: Cheaper)
    ensures PlanList(Flat(lv, 0), r, cheaper) == FREE
  {
  }

  lemma LevelDone(next: int, level: nat, r: Range, cheaper: Cheaper)
    ensures PlanChildren(next, level, 0, r, cheaper) == if level == 0 then FREE else PlanChildren(next, level - 1, 15, r, cheaper)
  {
    hide Plan;
  }

  lemma PlanInterior(env: Env, hist: seq<Commit>, x: ObjectRef, r: Range, cheaper: Cheaper)
    requires Honest(env, hist) && IsTrue(env, hist, x) && x.level > 0
    ensures PlanList(Interior(hist, x), r, cheaper) == PlanChildren(x.start, x.level - 1, 15, r, cheaper)
  {
    hide *;
    TrueBounds(env, hist, x);
    InteriorShape(env, hist, x);
    InteriorIs(hist, x);
    assert FullLevels(Spread(hist[x.end - 1].frontier), x.level, x.end - 1) by {
      AllFifteen(Spread(hist[x.end - 1].frontier), x.level, x.end - 1);
    }
    PlanLevels(Spread(hist[x.end - 1].frontier), x.level, x.end - 1, x.start, x.firstPrevHash, r, cheaper);
  }

  lemma AllFifteen(lv: Levels, k: nat, n: nat)
    requires k <= 16 && forall j :: 0 <= j < k ==> LevelOK(lv[j], j, n) && |lv[j]| == 15
    ensures FullLevels(lv, k, n)
  {
    hide LevelOK;
  }

  // ---- The spool ----

  /** Records before the range are dropped. */
  lemma {:induction false} CollectSkips(env: Env, hist: seq<Commit>, s: int, e: int, first: int)
    requires Honest(env, hist) && 1 <= s <= first <= e + 1 <= |hist| + 1
    ensures Collect(Recs(hist, s, e), first, Spool([], first, None)) == Collect(Recs(hist, first, e), first, Spool([], first, None))
    decreases first - s
  {
    hide Honest;
    if s < first {
      RecsHead(env, hist, s, e);
      CollectSkips(env, hist, s + 1, e, first);
    }
  }

  /** The first of a run of records. */
  lemma RecsHead(env: Env, hist: seq<Commit>, s: int, e: int)
    requires Honest(env, hist) && 1 <= s <= e <= |hist|
    ensures Recs(hist, s, e) != [] && Recs(hist, s, e)[1..] == Recs(hist, s + 1, e)
    ensures
      var p := Recs(hist, s, e)[0];
      p.revision == s && ValidRevision(s) && ValidProjection(env, p) && env.decodable(p.event) &&
      p.previousRecordHash == HashAt(hist, s - 1) && p.recordHash == HashAt(hist, s)
  {
    assert HonestAt(env, hist, s);
    hide ValidProjection, FrontierOK;
  }

  /** The spool once the records from `first` up to `s` are in it. */
  ghost function Taken(hist: seq<Commit>, first: int, s: int): Spool
    requires 1 <= first <= s <= |hist| + 1
  {
    Spool(Recs(hist, first, s - 1), s, if s == first then None else Some(HashAt(hist, s - 1)))
  }

  lemma {:induction false} CollectTakes(env: Env, hist: seq<Commit>, s: int, e: int, first: int)
    requires Honest(env, hist) && 1 <= first <= s <= e + 1 <= |hist| + 1
    ensures Collect(Recs(hist, s, e), first, Taken(hist, first, s)) == Some(Taken(hist, first, e + 1))
    decreases e - s + 1
  {
    hide *;
    if s <= e {
      RecsHead(env, hist, s, e);
      RecsSnoc(hist, first, s);
      CollectTakes(env, hist, s + 1, e, first);
      RecsFirst(hist, s, e);
      CollectOne(hist, s, e, first);
    } else {
      CollectNone(hist, s, first);
    }
  }

  lemma CollectNone(hist: seq<Commit>, s: int, first: int)
    requires 1 <= first <= s <= |hist| + 1
    ensures Collect(Recs(hist, s, s - 1), first, Taken(hist, first, s)) == Some(Taken(hist, first, s))
  {
    RecsEmpty(hist, s);
  }

  lemma RecsFirst(hist: seq<Commit>, s: int, e: int)
    requires 1 <= s <= e <= |hist|
    ensures Recs(hist, s, e) != [] && Recs(hist, s, e)[0] == Project(hist[s - 1])
  {
  }

  lemma CollectOne(hist: seq<Commit>, s: int, e: int, first: int)
    requires 1 <= first <= s <= e <= |hist|
    requires Recs(hist, s, e) != [] && Recs(hist, s, e)[0] == Project(hist[s - 1]) && Recs(hist, s, e)[1..] == Recs(hist, s + 1, e)
    requires Recs(hist, first, s) == Recs(hist, first, s - 1) + [Project(hist[s - 1])]
    requires var p := Project(hist[s - 1]);
      p.revision == s && ValidRevision(s) && p.previousRecordHash == HashAt(hist, s - 1) && p.recordHash == HashAt(hist, s)
    ensures Collect(Recs(hist, s, e), first, Taken(hist, first, s)) == Collect(Recs(hist, s + 1, e), first, Taken(hist, first, s + 1))
  {
    hide Recs, HashAt, Project;
  }

  lemma RecsSnoc(hist: seq<Commit>, s: int, e: int)
    requires 1 <= s <= e <= |hist|
    ensures Recs(hist, s, e) == Recs(hist, s, e - 1) + [Project(hist[e - 1])]
  {
  }

  /** readRange on a good block that meets the range. */
  lemma ReadRangeGood(env: Env, get: Getter, hist: seq<Commit>, x: ObjectRef, r: Range, cheaper: Cheaper) returns (s0: int)
    requires World(env, get, hist) && Good(env, get, hist, x)
    requires 1 <= r.first <= r.last && x.start <= r.last && r.first <= x.end
    ensures 1 <= x.start <= s0 <= x.end + 1 <= |hist| + 1 && s0 <= Max(x.start, r.first)
    ensures ReadRange(env, get, x, r, cheaper) == Stream(Recs(hist, s0, x.end), None, Plan(x.start, x.level, r, cheaper).0)
  {
    hide Good, World, ValidRef, Parts, Plan, Spooled, Recs, IsTrue, Honest, HashAt;
    GoodBounds(env, get, hist, x);
    s0 := PartsGood(env, get, hist, x, r, cheaper);
    if Plan(x.start, x.level, r, cheaper).1 && r.first != x.end {
      WorldHonest(env, get, hist);
      SplitIsSuffix(x.start, x.level, r, cheaper);
      SpooledGood(env, hist, x, Parts(env, get, x, r, cheaper), s0, r.first);
      s0 := r.first;
    }
  }

  /** The spool cuts the records before the range off and passes the rest on. */
  lemma SpooledGood(env: Env, hist: seq<Commit>, x: ObjectRef, s: Stream, s0: int, first: int)
    requires Honest(env, hist) && 1 <= s0 <= first <= x.end <= |hist| && x.lastRecordHash == HashAt(hist, x.end)
    requires s.err.None? && s.items == Recs(hist, s0, x.end)
    ensures Spooled(s, x, first) == Stream(Recs(hist, first, x.end), None, s.cost)
  {
    hide Honest, Collect, Recs, HashAt;
    CollectSkips(env, hist, s0, x.end, first);
    RecsEmpty(hist, first);
    CollectTakes(env, hist, first, x.end, first);
  }

  // ---- Delivery ----

  /** A caller that is never cancelled and accepts everything. */
  ghost predicate Willing(ctl: Control) {
    (forall n :: !ctl.cancelled(n)) && (forall out :: ctl.accept(out))
  }

  function Clamp(r: Range, n: int): int {
    if n < r.first then r.first else if n > r.last + 1 then r.last + 1 else n
  }

  /** Scan's variables when every requested record before n has been delivered. */
  function SinkAt(hist: seq<Commit>, r: Range, n: int): Sink
    requires 1 <= r.first <= n <= r.last + 1 <= |hist| + 1
  {
    Sink(if n <= r.last then n else r.last, if n == r.first then None else Some(HashAt(hist, n - 1)),
         n > r.last, Recs(hist, r.first, n - 1))
  }

  lemma EmitNext(env: Env, hist: seq<Commit>, r: Range, ctl: Control, q: int)
    requires Honest(env, hist) && Willing(ctl) && 1 <= r.first <= r.last <= |hist| && 1 <= q <= |hist|
    ensures Emit(env, r, ctl, SinkAt(hist, r, Clamp(r, q)), Project(hist[q - 1]))
            == (SinkAt(hist, r, Clamp(r, q + 1)), None)
  {
    hide *;
    CommitRecord(env, hist, q);
    if r.first <= q {
      RecsSnoc(hist, r.first, q);
    }
    EmitAt(env, hist, r, ctl, q);
  }

  /** The facts about one record of the log that delivering it checks. */
  lemma CommitRecord(env: Env, hist: seq<Commit>, q: int)
    requires Honest(env, hist) && 1 <= q <= |hist|
    ensures
      var p := Project(hist[q - 1]);
      p.revision == q && ValidRevision(q) && ValidProjection(env, p) && env.decodable(p.event) &&
      p.previousRecordHash == HashAt(hist, q - 1) && p.recordHash == HashAt(hist, q)
  {
    assert HonestAt(env, hist, q);
    hide ValidProjection, FrontierOK, AllTrue;
  }

  lemma EmitAt(env: Env, hist: seq<Commit>, r: Range, ctl: Control, q: int)
    requires Willing(ctl) && 1 <= r.first <= r.last <= |hist| && 1 <= q <= |hist|
    requires var p := Project(hist[q - 1]);
      p.revision == q && ValidRevision(q) && ValidProjection(env, p) && env.decodable(p.event) &&
      p.previousRecordHash == HashAt(hist, q - 1) && p.recordHash == HashAt(hist, q)
    requires r.first <= q ==> Recs(hist, r.first, q) == Recs(hist, r.first, q - 1) + [Project(hist[q - 1])]
    ensures Emit(env, r, ctl, SinkAt(hist, r, Clamp(r, q)), Project(hist[q - 1]))
            == (SinkAt(hist, r, Clamp(r, q + 1)), None)
  {
    hide ValidProjection, Recs, HashAt, Project;
  }

  lemma {:induction false} EmitRecs(env: Env, hist: seq<Commit>, r: Range, ctl: Control, q: int, e: int)
    requires Honest(env, hist) && Willing(ctl) && 1 <= r.first <= r.last <= |hist| && 1 <= q <= e + 1 <= |hist| + 1
    ensures EmitAll(env, r, ctl, SinkAt(hist, r, Clamp(r, q)), Recs(hist, q, e)) == (SinkAt(hist, r, Clamp(r, e + 1)), None)
    decreases e - q + 1
  {
    hide Honest, Willing, Emit, SinkAt, ValidProjection;
    if q <= e {
      RecsHead(env, hist, q, e);
      assert Recs(hist, q, e)[0] == Project(hist[q - 1]);
      EmitNext(env, hist, r, ctl, q);
      EmitRecs(env, hist, r, ctl, q + 1, e);
    }
  }

  lemma VisitGood(env: Env, get: Getter, hist: seq<Commit>, r: Range, cheaper: Cheaper, ctl: Control, cost: ReadCost, x: ObjectRef)
    requires World(env, get, hist) && Willing(ctl) && 1 <= r.first <= r.last <= |hist| && Good(env, get, hist, x)
    ensures 1 <= x.start <= x.end <= |hist|
    ensures Visit(env, get, r, cheaper, ctl, SinkAt(hist, r, Clamp(r, x.start)), cost, x)
            == Progress(SinkAt(hist, r, Clamp(r, x.end + 1)), None, Plus(cost, Plan(x.start, x.level, r, cheaper).0))
  {
    hide Good, World, ValidRef, ReadRange, EmitAll, Recs;
    GoodBounds(env, get, hist, x);
    if !(x.end < r.first || x.start > r.last) {
      var s0 := ReadRangeGood(env, get, hist, x, r, cheaper);
      WorldHonest(env, get, hist);
      assert Clamp(r, s0) == Clamp(r, x.start);
      EmitRecs(env, hist, r, ctl, s0, x.end);
    } else {
      PlusAssociates(cost, FREE, FREE);
    }
  }

  lemma {:induction false} VisitsGood(env: Env, get: Getter, hist: seq<Commit>, r: Range, cheaper: Cheaper, ctl: Control, cost: ReadCost, refs: seq<ObjectRef>, next: int, chain: Bytes)
    requires World(env, get, hist) && Willing(ctl) && 1 <= r.first <= r.last <= |hist|
    requires forall x :: x in refs ==> Good(env, get, hist, x)
    requires 1 <= next <= |hist| + 1 && Walk(refs, next, chain).Some?
    ensures next <= Walk(refs, next, chain).value.0 <= |hist| + 1
    ensures VisitAll(env, get, r, cheaper, ctl, SinkAt(hist, r, Clamp(r, next)), cost, refs)
            == Progress(SinkAt(hist, r, Clamp(r, Walk(refs, next, chain).value.0)), None, Plus(cost, PlanList(refs, r, cheaper)))
    decreases |refs|
  {
    hide Good, World, Willing, Visit, SinkAt, Plan, Clamp;
    if refs == [] {
      PlusAssociates(cost, FREE, FREE);
    } else {
      var x := refs[0];
      VisitGood(env, get, hist, r, cheaper, ctl, cost, x);
      assert forall y :: y in refs[1..] ==> y in refs;
      VisitsGood(env, get, hist, r, cheaper, ctl, Plus(cost, Plan(x.start, x.level, r, cheaper).0), refs[1..], x.end + 1, x.lastRecordHash);
      PlusAssociates(cost, Plan(x.start, x.level, r, cheaper).0, PlanList(refs[1..], r, cheaper));
    }
  }

  /** The records a scan of r through revision head should deliver. */
  function Requested(hist: seq<Commit>, head: int, r: Range): seq<Projection>
    requires 0 <= head <= |hist| && ValidRange(r)
  {
    if r == EMPTY || r.first > head then [] else Recs(hist, r.first, Cut(r, head).last)
  }

  function SnapshotAt(hist: seq<Commit>, head: int): Option<Commit>
    requires 0 <= head <= |hist|
  {
    if head == 0 then None else Some(hist[head - 1])
  }

  /** A scan of any valid range of any root of an intact log, under any cost estimate,
      delivers exactly the requested records in order and ends without an error. */
  lemma ScanDelivers(env: Env, get: Getter, hist: seq<Commit>, head: int, r: Range, cheaper: Cheaper, ctl: Control)
    requires World(env, get, hist) && Willing(ctl) && 0 <= head <= |hist| && ValidRange(r)
    ensures
      var res := ScanLog(env, get, SnapshotAt(hist, head), r, cheaper, ctl);
      res.out == Requested(hist, head, r) && res.err == None
  {
    if head > 0 {
      RootRevision(env, get, hist, head);
    }
    hide World, ScanCut, Recs;
    if r != EMPTY && r.first <= head {
      ScanCutDelivers(env, get, hist, head, Cut(r, head), cheaper, ctl);
    }
  }

  lemma RootRevision(env: Env, get: Getter, hist: seq<Commit>, head: int)
    requires World(env, get, hist) && 1 <= head <= |hist|
    ensures hist[head - 1].revision == head && ValidRevision(head) && head <= MAX_REVISION
    ensures FrontierOK(hist[head - 1].frontier, head, PrevHash(hist[head - 1]))
  {
    assert HonestAt(env, hist, head);
    hide FrontierOK, ValidProjection, AllTrue;
  }

  lemma ScanCutDelivers(env: Env, get: Getter, hist: seq<Commit>, head: int, r: Range, cheaper: Cheaper, ctl: Control)
    requires World(env, get, hist) && Willing(ctl) && 1 <= head <= |hist| && 1 <= r.first <= r.last <= head
    ensures ScanCut(env, get, hist[head - 1], r, cheaper, ctl)
            == ScanResult(Recs(hist, r.first, r.last), None, PlanList(Refs(hist[head - 1].frontier), r, cheaper))
  {
    hide *;
    var c := hist[head - 1];
    RootRevision(env, get, hist, head);
    FrontierGood(env, get, hist, head);
    RootWalk(env, get, hist, head);
    ClampEnds(hist, r, head);
    VisitsGood(env, get, hist, r, cheaper, ctl, FREE, Refs(c.frontier), 1, ZERO_HASH);
    PlusAssociates(PlanList(Refs(c.frontier), r, cheaper), FREE, FREE);
    WorldHonest(env, get, hist);
    EmitNext(env, hist, r, ctl, head);
    ScanCutEnds(env, get, hist, head, r, cheaper, ctl);
  }

  /** Scan's variables before the first visit and after the root's own record. */
  lemma ClampEnds(hist: seq<Commit>, r: Range, head: int)
    requires 1 <= r.first <= r.last <= head <= |hist|
    ensures Clamp(r, 1) == r.first && SinkAt(hist, r, r.first) == Sink(r.first, None, false, [])
    ensures r.first <= Clamp(r, head) <= r.last + 1 == Clamp(r, head + 1)
  {
    RecsEmpty(hist, r.first);
    hide Recs;
  }

  lemma ScanCutEnds(env: Env, get: Getter, hist: seq<Commit>, head: int, r: Range, cheaper: Cheaper, ctl: Control)
    requires Willing(ctl) && 1 <= head <= |hist| && 1 <= r.first <= r.last <= head
    requires FrontierOK(hist[head - 1].frontier, hist[head - 1].revision, PrevHash(hist[head - 1]))
    requires Clamp(r, head) >= r.first && Clamp(r, head) <= r.last + 1
    requires VisitAll(env, get, r, cheaper, ctl, Sink(r.first, None, false, []), FREE, Refs(hist[head - 1].frontier))
             == Progress(SinkAt(hist, r, Clamp(r, head)), None, PlanList(Refs(hist[head - 1].frontier), r, cheaper))
    requires Emit(env, r, ctl, SinkAt(hist, r, Clamp(r, head)), Project(hist[head - 1])) == (SinkAt(hist, r, r.last + 1), None)
    ensures ScanCut(env, get, hist[head - 1], r, cheaper, ctl)
            == ScanResult(Recs(hist, r.first, r.last), None, PlanList(Refs(hist[head - 1].frontier), r, cheaper))
  {
    hide VisitAll, Emit, FrontierOK, PlanList, Recs, Refs, Clamp, HashAt;
  }

  lemma RootWalk(env: Env, get: Getter, hist: seq<Commit>, head: int)
    requires World(env, get, hist) && 1 <= head <= |hist|
    ensures Walk(Refs(hist[head - 1].frontier), 1, ZERO_HASH) == Some((head, HashAt(hist, head - 1)))
  {
    var f := hist[head - 1].frontier;
    hide World, LevelOK;
    WorldHonest(env, get, hist);
    HonestFrontier(env, hist, head);
    RefsAreFlat(f, 16);
  }

  /** The simplest reader: fetches the commit of every revision. */
  function RawWalk(env: Env, get: Getter, first: int, last: int): Option<seq<Projection>>
    decreases last - first + 1
  {
    if first > last then Some([])
    else
      match get(LogKey(first))
      case Err(_) => None
      case Ok(body) =>
        match DecodeCommit(env, LogKey(first), body)
        case Err(_) => None
        case Ok(c) =>
          match RawWalk(env, get, first + 1, last)
          case None => None
          case Some(ps) => Some([Project(c)] + ps)
  }

  lemma {:induction false} RawWalkRecs(env: Env, get: Getter, hist: seq<Commit>, first: int, last: int)
    requires World(env, get, hist) && 1 <= first <= last + 1 <= |hist| + 1
    ensures RawWalk(env, get, first, last) == Some(Recs(hist, first, last))
    decreases last - first + 1
  {
    hide World, DecodeCommit;
    if first <= last {
      CommitServed(env, get, hist, first);
      RawWalkRecs(env, get, hist, first + 1, last);
      RecsConcat(hist, first, first, last);
      OneRecord(hist, first);
    } else {
      RecsEmpty(hist, first);
    }
  }

  /** Whatever packed segments and historical roots a scan reads, it delivers what fetching
      every single commit would. */
  lemma ScanIsRawWalk(env: Env, get: Getter, hist: seq<Commit>, head: int, r: Range, cheaper: Cheaper, ctl: Control)
    requires World(env, get, hist) && Willing(ctl) && ValidRange(r) && r != EMPTY && r.first <= head <= |hist|
    ensures RawWalk(env, get, r.first, Cut(r, head).last) == Some(ScanLog(env, get, SnapshotAt(hist, head), r, cheaper, ctl).out)
  {
    assert 1 <= r.first <= Cut(r, head).last <= |hist|;
    hide World, ScanLog, RawWalk;
    ScanDelivers(env, get, hist, head, r, cheaper, ctl);
    RawWalkRecs(env, get, hist, r.first, Cut(r, head).last);
  }

  /** Scanning everything is scanning [1, k] and then resuming after k. */
  lemma ScanResumes(env: Env, get: Getter, hist: seq<Commit>, head: int, k: int, cheaper: Cheaper, ctl: Control)
    requires World(env, get, hist) && Willing(ctl) && 1 <= k <= head <= |hist|
    ensures ScanLog(env, get, SnapshotAt(hist, head), All(), cheaper, ctl).out
            == ScanLog(env, get, SnapshotAt(hist, head), Range(1, k), cheaper, ctl).out
             + ScanLog(env, get, SnapshotAt(hist, head), After(k), cheaper, ctl).out
  {
    hide *;
    RootRevision(env, get, hist, head);
    ResumeRanges(hist, head, k);
    ScanDelivers(env, get, hist, head, All(), cheaper, ctl);
    ScanDelivers(env, get, hist, head, Range(1, k), cheaper, ctl);
    ScanDelivers(env, get, hist, head, After(k), cheaper, ctl);
  }

  lemma ResumeRanges(hist: seq<Commit>, head: int, k: int)
    requires 1 <= k <= head <= |hist| && head <= MAX_REVISION
    ensures ValidRange(All()) && ValidRange(Range(1, k)) && ValidRange(After(k))
    ensures Requested(hist, head, All()) == Requested(hist, head, Range(1, k)) + Requested(hist, head, After(k))
  {
    if k < head {
      RecsConcat(hist, 1, k, head);
    }
    hide Recs;
  }

  /** A full scan makes one GET per unit of the digit sum of the preceding record count. */
  lemma FullScanGets(env: Env, get: Getter, hist: seq<Commit>, head: int, cheaper: Cheaper, ctl: Control)
    requires World(env, get, hist) && Willing(ctl) && 1 <= head <= |hist|
    ensures ScanLog(env, get, SnapshotAt(hist, head), All(), cheaper, ctl).cost.gets == DigitSum(head - 1)
  {
    hide *;
    var f, r := hist[head - 1].frontier, Range(1, head);
    RootRevision(env, get, hist, head);
    Frontier.FrontierSize(f, head, PrevHash(hist[head - 1]));
    WholeRange(env, get, hist, head, cheaper, ctl);
    ScanCutDelivers(env, get, hist, head, r, cheaper, ctl);
    RootWalk(env, get, hist, head);
    FrontierGood(env, get, hist, head);
    AllValidRefs(env, get, hist, Refs(f));
    WalkForward(Refs(f), 1, ZERO_HASH);
    PlanWhole(Refs(f), r, cheaper);
  }

  /** Blocks before the range cost nothing. */
  lemma {:induction false} PlanBefore(refs: seq<ObjectRef>, r: Range, cheaper: Cheaper)
    requires forall x :: x in refs ==> ValidRef(x) && x.end < r.first
    ensures PlanList(refs, r, cheaper) == FREE
  {
    if refs != [] {
      RefEnd(refs[0]);
      hide ValidRef;
      PlanBefore(refs[1..], r, cheaper);
    }
  }

  /** A scan of the root's own record needs no I/O. */
  lemma RootNeedsNoGet(env: Env, get: Getter, hist: seq<Commit>, head: int, cheaper: Cheaper, ctl: Control)
    requires World(env, get, hist) && Willing(ctl) && 1 <= head <= |hist|
    ensures ScanLog(env, get, SnapshotAt(hist, head), Range(head, head), cheaper, ctl)
            == ScanResult([Project(hist[head - 1])], None, FREE)
  {
    hide *;
    var f, r := hist[head - 1].frontier, Range(head, head);
    RootRevision(env, get, hist, head);
    RootRange(env, get, hist, head, cheaper, ctl);
    ScanCutDelivers(env, get, hist, head, r, cheaper, ctl);
    OneRecord(hist, head);
    RootWalk(env, get, hist, head);
    FrontierGood(env, get, hist, head);
    AllValidRefs(env, get, hist, Refs(f));
    WalkForward(Refs(f), 1, ZERO_HASH);
    PlanBefore(Refs(f), r, cheaper);
  }

  lemma RootRange(env: Env, get: Getter, hist: seq<Commit>, head: int, cheaper: Cheaper, ctl: Control)
    requires 1 <= head <= |hist| && hist[head - 1].revision == head && ValidRevision(head) && Willing(ctl)
    ensures ScanLog(env, get, SnapshotAt(hist, head), Range(head, head), cheaper, ctl)
            == ScanCut(env, get, hist[head - 1], Range(head, head), cheaper, ctl)
  {
    hide ScanCut;
  }

  /** So a full scan of up to a million records makes at most 74 GETs besides the root's. */
  lemma MillionGets(env: Env, get: Getter, hist: seq<Commit>, head: int, cheaper: Cheaper, ctl: Control)
    requires World(env, get, hist) && Willing(ctl) && 1 <= head <= |hist| && head <= 1_000_000
    ensures ScanLog(env, get, SnapshotAt(hist, head), All(), cheaper, ctl).cost.gets <= 74
  {
    hide *;
    FullScanGets(env, get, hist, head, cheaper, ctl);
    MillionDigits(head - 1);
  }

  lemma MillionDigits(n: nat)
    requires n < 1_000_000
    ensures DigitSum(n) <= 74
  {
    var top := n / 0x1_0000;
    var low := n - 0x1_0000 * top;
    assert n / 16 / 16 / 16 / 16 == top && top <= 15;
    FourDigits(n);
    if top == 15 {
      assert low < 0x4240 && n / 16 / 16 / 16 % 16 <= 4;
    }
  }

  lemma FourDigits(n: nat)
    ensures DigitSum(n) == n % 16 + n / 16 % 16 + n / 16 / 16 % 16 + n / 16 / 16 / 16 % 16 + DigitSum(n / 16 / 16 / 16 / 16)
    ensures n < 16 ==> DigitSum(n) == n
  {
    LastDigit(n);
    LastDigit(n / 16);
    LastDigit(n / 16 / 16);
    LastDigit(n / 16 / 16 / 16);
  }

  lemma LastDigit(n: nat)
    ensures DigitSum(n) == n % 16 + DigitSum(n / 16) && (n < 16 ==> DigitSum(n) == n)
  {
    assert n < 16 ==> n / 16 == 0 && DigitSum(0) == 0;
  }

  lemma WholeRange(env: Env, get: Getter, hist: seq<Commit>, head: int, cheaper: Cheaper, ctl: Control)
    requires 1 <= head <= |hist| && hist[head - 1].revision == head && ValidRevision(head) && Willing(ctl)
    ensures ScanLog(env, get, SnapshotAt(hist, head), All(), cheaper, ctl) == ScanCut(env, get, hist[head - 1], Range(1, head), cheaper, ctl)
  {
    hide ScanCut;
  }

  lemma AllValidRefs(env: Env, get: Getter, hist: seq<Commit>, refs: seq<ObjectRef>)
    requires forall x :: x in refs ==> Good(env, get, hist, x)
    ensures forall x :: x in refs ==> ValidRef(x)
  {
    hide Good, ValidRef;
    forall x | x in refs
      ensures ValidRef(x)
    {
      GoodBounds(env, get, hist, x);
    }
  }

  lemma {:induction false} PlanWhole(refs: seq<ObjectRef>, r: Range, cheaper: Cheaper)
    requires forall x :: x in refs ==> ValidRef(x) && r.first <= x.start && x.end <= r.last
    ensures PlanList(refs, r, cheaper).gets == |refs|
  {
    if refs != [] {
      RefEnd(refs[0]);
      hide ValidRef;
      PlanWhole(refs[1..], r, cheaper);
    }
  }
}
