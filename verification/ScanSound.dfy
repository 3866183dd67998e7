/**
 What a scan can deliver from a store whose objects may have been altered or removed.
 Nothing here assumes anything about the getter, the cost estimate or the caller.
 */
module ScanSound {
  import opened Wrappers
  import opened Wire
  import opened Segment
  import opened History
  import opened ReadPlan
  import opened Scan
  import opened ScanIntact

  // ---- Everything read is a valid record ----

  lemma ReadRecordsFit(env: Env, get: Getter, ref: ObjectRef)
    ensures AllValid(env, ReadRecords(env, get, ref).items)
    ensures ReadRecords(env, get, ref).err.Some? ==> ReadRecords(env, get, ref).items == []
    ensures ReadRecords(env, get, ref).err.None? ==> ValidRef(ref) && RecordsFor(env, ref, ReadRecords(env, get, ref).items)
  {
    if LoadRecords(env, get, None, ref).Ok? {
      LoadedRecords(env, get, None, ref);
    }
    hide ValidRef, Adjacent, ValidCommit, DecodeSegment;
  }

  lemma HistoricalChecked(env: Env, get: Getter, ref: ObjectRef)
    requires LoadHistorical(env, get, ref).Ok?
    ensures
      var h := LoadHistorical(env, get, ref).value;
      ValidProjection(env, Project(h.commit)) && h.commit.recordHash == ref.lastRecordHash &&
      (forall x :: x in h.children ==> ValidRef(x) && x.end < ref.end)
  {
    var h := LoadHistorical(env, get, ref).value;
    var refs := Refs(h.commit.frontier);
    SelectedLevels(refs, ref, ref.start, ref.firstPrevHash);
    hide ValidRef, ValidProjection, FrontierOK, SelectChildren;
    WalkForward(h.children, ref.start, ref.firstPrevHash);
  }

  lemma {:induction false} PartsValid(env: Env, get: Getter, ref: ObjectRef, r: Range, cheaper: Cheaper)
    ensures AllValid(env, Parts(env, get, ref, r, cheaper).items)
    decreases ref.level, 1, 0
  {
    hide ValidRef, ReadRecords, Plan, PartsAll, LoadHistorical, ValidProjection;
    ReadRecordsFit(env, get, ref);
    if LoadHistorical(env, get, ref).Ok? {
      var h := LoadHistorical(env, get, ref).value;
      HistoricalChecked(env, get, ref);
      PartsAllValid(env, get, h.children, ref.level, r, cheaper);
    }
  }

  lemma {:induction false} PartsAllValid(env: Env, get: Getter, refs: seq<ObjectRef>, bound: nat, r: Range, cheaper: Cheaper)
    requires forall x :: x in refs ==> x.level < bound
    ensures AllValid(env, PartsAll(env, get, refs, bound, r, cheaper).items)
    decreases bound, 0, |refs|
  {
    hide Parts, ValidProjection;
    if refs != [] {
      PartsValid(env, get, refs[0], r, cheaper);
      PartsAllValid(env, get, refs[1..], bound, r, cheaper);
    }
  }

  /** Blocks wholly before the range are not read at all. */
  lemma {:induction false} PartsAllBefore(env: Env, get: Getter, refs: seq<ObjectRef>, bound: nat, r: Range, cheaper: Cheaper)
    requires forall x :: x in refs ==> x.level < bound && ValidRef(x) && x.end < r.first
    ensures PartsAll(env, get, refs, bound, r, cheaper) == Stream([], None, FREE)
    decreases |refs|
  {
    hide Parts, ValidRef, Then;
    if refs != [] {
      PartsBefore(env, get, refs[0], r, cheaper);
      PartsAllBefore(env, get, refs[1..], bound, r, cheaper);
      ThenUnit(Stream([], None, FREE));
    }
  }

  lemma PartsBefore(env: Env, get: Getter, x: ObjectRef, r: Range, cheaper: Cheaper)
    requires ValidRef(x) && x.end < r.first
    ensures Parts(env, get, x, r, cheaper) == Stream([], None, FREE)
  {
    hide ValidRef, Plan, ReadRecords, LoadHistorical;
  }

  // ---- Below a true reference only true records come out ----

  /** p is the log's record of its revision. */
  predicate TrueItem(hist: seq<Commit>, p: Projection) {
    1 <= p.revision <= |hist| && p == History.Records(hist)[p.revision - 1]
  }

  predicate TrueItems(hist: seq<Commit>, items: seq<Projection>) {
    forall i :: 0 <= i < |items| ==> TrueItem(hist, items[i])
  }

  /** An honest log whose record hashes have no second preimage. */
  ghost predicate Anchored(env: Env, hist: seq<Commit>) {
    Honest(env, hist) && Collisionless(env, History.Records(hist))
  }

  /** A chain of valid records ending in the hash of revision e is the log's own. */
  lemma ChainIsTrue(env: Env, hist: seq<Commit>, items: seq<Projection>, next: int, chain: Bytes, e: int)
    requires Anchored(env, hist) && Chained(env, items, next, chain) && items != []
    requires 1 <= next && 1 <= e <= |hist| && LastHash(items, chain) == HashAt(hist, e)
    ensures next + |items| == e + 1 && items == Recs(hist, next, e) && TrueItems(hist, items)
  {
    hide *;
    LogChain(env, hist, e);
    ChainEndsDetermine(env, History.Records(hist), 1, ZERO_HASH, items, next, chain, e - 1);
    RecsSlice(hist, next, e);
    RecsTrue(env, hist, next, e);
  }

  lemma LogChain(env: Env, hist: seq<Commit>, e: int)
    requires Anchored(env, hist) && 1 <= e <= |hist|
    ensures Chained(env, History.Records(hist), 1, ZERO_HASH) && Collisionless(env, History.Records(hist)) && Honest(env, hist)
    ensures History.Records(hist)[e - 1].recordHash == HashAt(hist, e)
  {
    RecsChained(env, hist, 1, |hist|);
    assert Recs(hist, 1, |hist|) == History.Records(hist);
    hide Honest, Chained, Collisionless;
  }

  lemma RecsSlice(hist: seq<Commit>, s: int, e: int)
    requires 1 <= s <= e + 1 <= |hist| + 1
    ensures Recs(hist, s, e) == History.Records(hist)[s - 1..e]
  {
  }

  lemma RecsTrue(env: Env, hist: seq<Commit>, s: int, e: int)
    requires Honest(env, hist) && 1 <= s <= e + 1 <= |hist| + 1
    ensures TrueItems(hist, Recs(hist, s, e))
  {
    forall i | 0 <= i < |Recs(hist, s, e)|
      ensures TrueItem(hist, Recs(hist, s, e)[i])
    {
      assert HonestAt(env, hist, s + i);
      hide ValidProjection, FrontierOK, AllTrue;
    }
  }

  lemma ReadRecordsSound(env: Env, get: Getter, hist: seq<Commit>, x: ObjectRef)
    requires Anchored(env, hist) && IsTrue(env, hist, x)
    ensures TrueItems(hist, ReadRecords(env, get, x).items)
  {
    hide IsTrue, ValidRef, ReadRecords, Anchored, Adjacent, AllValid;
    ReadRecordsFit(env, get, x);
    TrueBounds(env, hist, x);
    var s := ReadRecords(env, get, x);
    if s.err.None? {
      ChainIsTrue(env, hist, s.items, x.start, x.firstPrevHash, x.end);
    }
  }

  lemma {:induction false} CollectChains(env: Env, items: seq<Projection>, first: int, k: Spool, prev: Bytes)
    requires AllValid(env, items) && Chained(env, k.items, first, prev)
    requires k.next == first + |k.items| && k.chain == if k.items == [] then None else Some(LastHash(k.items, prev))
    ensures Collect(items, first, k).Some? ==>
              var s := Collect(items, first, k).value;
              var p := if k.items == [] && s.items != [] then s.items[0].previousRecordHash else prev;
              Chained(env, s.items, first, p) && s.next == first + |s.items| &&
              s.chain == if s.items == [] then None else Some(LastHash(s.items, p))
    decreases |items|
  {
    if items != [] {
      var p := items[0];
      ItemsTail(env, items);
      CollectStep(items, first, k);
      hide *;
      if p.revision < first {
        CollectChains(env, items[1..], first, k, prev);
      } else if p.revision == k.next && (k.chain.Some? ==> p.previousRecordHash == k.chain.value) {
        var k2, prev2 := Spool(k.items + [p], p.revision + 1, Some(p.recordHash)), if k.items == [] then p.previousRecordHash else prev;
        SpoolStep(env, k, p, first, prev);
        CollectChains(env, items[1..], first, k2, prev2);
        CollectKeeps(items[1..], first, k2);
        SameFirst(k.items, p, Collect(items[1..], first, k2));
      }
    }
  }

  lemma ItemsTail(env: Env, items: seq<Projection>)
    requires AllValid(env, items) && items != []
    ensures AllValid(env, items[1..]) && ValidProjection(env, items[0])
  {
    hide ValidProjection;
  }

  lemma CollectStep(items: seq<Projection>, first: int, k: Spool)
    requires items != []
    ensures var p := items[0];
      Collect(items, first, k) ==
      if !ValidRevision(p.revision) then None
      else if p.revision < first then Collect(items[1..], first, k)
      else if p.revision != k.next || (k.chain.Some? && p.previousRecordHash != k.chain.value) then None
      else Collect(items[1..], first, Spool(k.items + [p], p.revision + 1, Some(p.recordHash)))
  {
  }

  /** One more record of the spool's chain. */
  lemma SpoolStep(env: Env, k: Spool, p: Projection, first: int, prev: Bytes)
    requires Chained(env, k.items, first, prev) && ValidProjection(env, p) && p.revision == k.next == first + |k.items|
    requires k.chain == if k.items == [] then None else Some(LastHash(k.items, prev))
    requires k.chain.Some? ==> p.previousRecordHash == k.chain.value
    ensures
      var prev2, items := if k.items == [] then p.previousRecordHash else prev, k.items + [p];
      Chained(env, items, first, prev2) && LastHash(items, prev2) == p.recordHash
  {
    SingleChain(env, p);
    ChainedConcat(env, k.items, [p], first, prev);
    hide ValidProjection, Adjacent, AllValid;
    assert k.items == [] ==> k.items + [p] == [p];
  }

  lemma SameFirst(before: seq<Projection>, p: Projection, s: Option<Spool>)
    requires s.Some? ==> before + [p] <= s.value.items
    ensures s.Some? ==> s.value.items != [] && s.value.items[0] == (before + [p])[0]
    ensures before == [] ==> (before + [p])[0] == p
  {
  }

  lemma SingleChain(env: Env, p: Projection)
    requires ValidProjection(env, p)
    ensures Chained(env, [p], p.revision, p.previousRecordHash)
  {
    hide ValidProjection;
    assert Adjacent([], p.revision + 1, p.recordHash) && [p][1..] == [];
    assert Adjacent([p], p.revision, p.previousRecordHash);
    assert AllValid(env, [p]);
  }

  /** Collecting only adds at the end. */
  lemma {:induction false} CollectKeeps(items: seq<Projection>, first: int, k: Spool)
    ensures Collect(items, first, k).Some? ==> k.items <= Collect(items, first, k).value.items
    decreases |items|
  {
    if items != [] {
      var p := items[0];
      CollectKeeps(items[1..], first, k);
      CollectKeeps(items[1..], first, Spool(k.items + [p], p.revision + 1, Some(p.recordHash)));
    }
  }

  /** A spool that is passed on chains up to the reference's last hash. */
  lemma SpooledSound(env: Env, hist: seq<Commit>, s: Stream, x: ObjectRef, first: int)
    requires Anchored(env, hist) && IsTrue(env, hist, x) && AllValid(env, s.items) && 1 <= first
    ensures TrueItems(hist, Spooled(s, x, first).items)
  {
    hide Anchored, IsTrue, AllValid, ValidRef, Collect, Adjacent;
    var k0 := Spool([], first, None);
    EmptyChain(env, first, ZERO_HASH);
    CollectChains(env, s.items, first, k0, ZERO_HASH);
    TrueBounds(env, hist, x);
    if Spooled(s, x, first).items != [] {
      var k := Collect(s.items, first, k0).value;
      ChainIsTrue(env, hist, k.items, first, k.items[0].previousRecordHash, x.end);
    }
  }

  lemma EmptyChain(env: Env, start: int, prev: Bytes)
    ensures Chained(env, [], start, prev)
  {
  }

  lemma AnchoredSound(env: Env, get: Getter, hist: seq<Commit>, x: ObjectRef, r: Range, cheaper: Cheaper)
    requires Anchored(env, hist) && IsTrue(env, hist, x) && 1 <= r.first
    ensures TrueItems(hist, ReadRange(env, get, x, r, cheaper).items)
  {
    hide Anchored, IsTrue, ValidRef, AllValid, Parts, Plan, Spooled, TrueItems;
    PartsValid(env, get, x, r, cheaper);
    var s := Parts(env, get, x, r, cheaper);
    NoItems(hist);
    if !Plan(x.start, x.level, r, cheaper).1 {
      WholeSound(env, get, hist, x, r, cheaper);
    } else if r.first == x.end {
      LastSound(env, get, hist, x, r, cheaper);
    } else {
      SpooledSound(env, hist, s, x, r.first);
    }
  }

  lemma NoItems(hist: seq<Commit>)
    ensures TrueItems(hist, [])
  {
  }

  lemma WholeSound(env: Env, get: Getter, hist: seq<Commit>, x: ObjectRef, r: Range, cheaper: Cheaper)
    requires Anchored(env, hist) && IsTrue(env, hist, x)
    requires !Plan(x.start, x.level, r, cheaper).1
    ensures TrueItems(hist, Parts(env, get, x, r, cheaper).items)
  {
    hide Anchored, IsTrue, ValidRef, Plan, ReadRecords, TrueItem;
    ReadRecordsSound(env, get, hist, x);
  }

  /** When only the last record of a block is wanted, its hash is already known. */
  lemma LastSound(env: Env, get: Getter, hist: seq<Commit>, x: ObjectRef, r: Range, cheaper: Cheaper)
    requires Anchored(env, hist) && IsTrue(env, hist, x)
    requires Plan(x.start, x.level, r, cheaper).1 && r.first == x.end
    ensures TrueItems(hist, Parts(env, get, x, r, cheaper).items)
  {
    hide Anchored, IsTrue, ValidRef, Plan, LoadHistorical, PartsAll, ReadRecords, History.Records, ValidProjection;
    TrueBounds(env, hist, x);
    SplitIsSuffix(x.start, x.level, r, cheaper);
    if LoadHistorical(env, get, x).Ok? {
      var h := LoadHistorical(env, get, x).value;
      HistoricalChecked(env, get, x);
      PartsAllBefore(env, get, h.children, x.level, r, cheaper);
      RecordIsTrue(env, hist, Project(h.commit), x.end);
      assert [] + [Project(h.commit)] == [Project(h.commit)];
    }
  }

  lemma RecordIsTrue(env: Env, hist: seq<Commit>, p: Projection, e: int)
    requires Anchored(env, hist) && ValidProjection(env, p)
    requires 1 <= e <= |hist| && p.recordHash == HashAt(hist, e)
    ensures TrueItem(hist, p)
  {
    hide *;
    LogChain(env, hist, e);
    ChainedValid(env, History.Records(hist), 1, ZERO_HASH);
    HashDeterminesRecord(env, History.Records(hist), e - 1, p);
    RecsTrue(env, hist, e, e);
    OneRecord(hist, e);
    RecordOf(hist, e);
  }

  lemma ChainedValid(env: Env, ps: seq<Projection>, start: int, prev: Bytes)
    requires Chained(env, ps, start, prev)
    ensures AllValid(env, ps)
  {
    hide AllValid, Adjacent;
  }

  lemma RecordOf(hist: seq<Commit>, e: int)
    requires 1 <= e <= |hist| && TrueItems(hist, [Project(hist[e - 1])])
    ensures TrueItem(hist, History.Records(hist)[e - 1])
  {
    assert TrueItem(hist, [Project(hist[e - 1])][0]);
  }

  // ---- Stores whose objects are undamaged, though reads may fail ----

  /** The true object of a reference, or an error. */
  predicate TrueOrError(env: Env, get: Getter, hist: seq<Commit>, x: ObjectRef) {
    get(x.key).Ok? ==> InLog(hist, x.level, x.start) && Serves(env, get, hist, x)
  }

  predicate UndamagedAt(env: Env, get: Getter, hist: seq<Commit>, r: int)
    requires 1 <= r <= |hist|
  {
    && (get(LogKey(r)).Ok? ==> get(LogKey(r)) == Ok(EncodeCommit(hist[r - 1])))
    && (forall x :: x in Refs(hist[r - 1].frontier) ==> TrueOrError(env, get, hist, x))
  }

  /** Every commit, and every object some frontier refers to, is as written or not to be had. */
  ghost predicate Undamaged(env: Env, get: Getter, hist: seq<Commit>) {
    forall r :: 1 <= r <= |hist| ==> UndamagedAt(env, get, hist, r)
  }

  /** Every reference of a commit leads to a true object or an error. */
  lemma UndamagedRefs(env: Env, get: Getter, hist: seq<Commit>, r: int)
    requires Undamaged(env, get, hist) && 1 <= r <= |hist|
    ensures get(LogKey(r)).Ok? ==> get(LogKey(r)) == Ok(EncodeCommit(hist[r - 1]))
    ensures forall x :: x in Refs(hist[r - 1].frontier) ==> TrueOrError(env, get, hist, x)
  {
    assert UndamagedAt(env, get, hist, r);
    hide TrueOrError, Refs;
  }

  /** An object read as one piece is the true one. */
  lemma ObjectTrue(env: Env, get: Getter, hist: seq<Commit>, x: ObjectRef)
    requires Honest(env, hist) && IsTrue(env, hist, x) && TrueOrError(env, get, hist, x)
    ensures TrueItems(hist, ReadRecords(env, get, x).items)
  {
    hide *;
    TrueBounds(env, hist, x);
    NoItems(hist);
    if get(x.key).Ok? {
      Answered(env, get, hist, x);
      LoadTrue(env, get, None, hist, x);
      RecsTrue(env, hist, x.start, x.end);
      if x.level == 0 {
        LoadTrueCommit(env, get, None, hist, x);
        RecsTrue(env, hist, x.start, x.start);
        OneRecord(hist, x.start);
      }
    }
    ReadForm(env, get, x);
  }

  lemma Answered(env: Env, get: Getter, hist: seq<Commit>, x: ObjectRef)
    requires TrueOrError(env, get, hist, x) && get(x.key).Ok?
    ensures InLog(hist, x.level, x.start) && Serves(env, get, hist, x) && TrueCache(hist, None)
  {
    hide TrueBody;
  }

  lemma ReadForm(env: Env, get: Getter, x: ObjectRef)
    ensures get(x.key).Err? ==> ReadRecords(env, get, x).items == []
    ensures x.level == 0 && LoadCommitRef(env, get, None, x).Ok? ==>
              ReadRecords(env, get, x).items == [Project(LoadCommitRef(env, get, None, x).value)]
    ensures x.level != 0 && LoadRecords(env, get, None, x).Ok? ==>
              ReadRecords(env, get, x).items == LoadRecords(env, get, None, x).value
  {
    hide ValidRef, DecodeCommit, DecodeSegment;
  }

  lemma {:induction false} PartsTrue(env: Env, get: Getter, hist: seq<Commit>, x: ObjectRef, r: Range, cheaper: Cheaper)
    requires Honest(env, hist) && Undamaged(env, get, hist) && IsTrue(env, hist, x) && TrueOrError(env, get, hist, x)
    ensures TrueItems(hist, Parts(env, get, x, r, cheaper).items)
    decreases x.level, 2, 0
  {
    hide ValidRef, Honest, Undamaged, IsTrue, TrueOrError, Plan, ReadRecords, LoadHistorical, PartsAll, TrueItems;
    NoItems(hist);
    ObjectTrue(env, get, hist, x);
    if ValidRef(x) && x.end >= r.first && x.start <= r.last && Plan(x.start, x.level, r, cheaper).1 {
      PartsSplitTrue(env, get, hist, x, r, cheaper);
    }
  }

  lemma {:induction false} PartsSplitTrue(env: Env, get: Getter, hist: seq<Commit>, x: ObjectRef, r: Range, cheaper: Cheaper)
    requires Honest(env, hist) && Undamaged(env, get, hist) && IsTrue(env, hist, x) && ValidRef(x)
    requires x.end >= r.first && x.start <= r.last && Plan(x.start, x.level, r, cheaper).1
    ensures TrueItems(hist, Parts(env, get, x, r, cheaper).items)
    decreases x.level, 1, 0
  {
    hide *;
    TrueBounds(env, hist, x);
    NoItems(hist);
    UndamagedRefs(env, get, hist, x.end);
    if get(LogKey(x.end)).Ok? {
      HistoricalTrue(env, get, hist, x);
      HonestFrontier(env, hist, x.end);
      PartsAllTrue(env, get, hist, Interior(hist, x), x.level, r, cheaper);
      RecsTrue(env, hist, x.end, x.end);
      OneRecord(hist, x.end);
      PartsUnfold(env, get, x, r, cheaper, Historical(hist[x.end - 1], Interior(hist, x)));
      TrueItemsConcat(hist, PartsAll(env, get, Interior(hist, x), x.level, r, cheaper).items, [Project(hist[x.end - 1])]);
      CommitAdded(PartsAll(env, get, Interior(hist, x), x.level, r, cheaper), hist[x.end - 1]);
    } else {
      NoRoot(env, get, x, r, cheaper);
    }
  }

  lemma NoRoot(env: Env, get: Getter, x: ObjectRef, r: Range, cheaper: Cheaper)
    requires get(LogKey(x.end)).Err? && Plan(x.start, x.level, r, cheaper).1
    ensures Parts(env, get, x, r, cheaper).items == []
  {
    hide ValidRef, Plan;
  }

  lemma CommitAdded(s: Stream, c: Commit)
    ensures AddCommit(s, c).items == s.items || AddCommit(s, c).items == s.items + [Project(c)]
  {
  }

  lemma TrueItemsConcat(hist: seq<Commit>, a: seq<Projection>, b: seq<Projection>)
    requires TrueItems(hist, a) && TrueItems(hist, b)
    ensures TrueItems(hist, a + b)
  {
    hide TrueItem;
  }

  lemma {:induction false} PartsAllTrue(env: Env, get: Getter, hist: seq<Commit>, refs: seq<ObjectRef>, bound: nat, r: Range, cheaper: Cheaper)
    requires Honest(env, hist) && Undamaged(env, get, hist)
    requires forall x :: x in refs ==> x.level < bound && IsTrue(env, hist, x) && TrueOrError(env, get, hist, x)
    ensures TrueItems(hist, PartsAll(env, get, refs, bound, r, cheaper).items)
    decreases bound, 0, |refs|
  {
    hide Honest, Undamaged, IsTrue, TrueOrError, Parts, TrueItems;
    NoItems(hist);
    if refs != [] {
      PartsTrue(env, get, hist, refs[0], r, cheaper);
      PartsAllTrue(env, get, hist, refs[1..], bound, r, cheaper);
      TrueItemsConcat(hist, Parts(env, get, refs[0], r, cheaper).items, PartsAll(env, get, refs[1..], bound, r, cheaper).items);
    }
  }

  /** The spool holds nothing but what was read. */
  lemma {:induction false} CollectTrue(hist: seq<Commit>, items: seq<Projection>, first: int, k: Spool)
    requires TrueItems(hist, items) && TrueItems(hist, k.items)
    ensures Collect(items, first, k).Some? ==> TrueItems(hist, Collect(items, first, k).value.items)
    decreases |items|
  {
    if items != [] {
      var p := items[0];
      assert TrueItem(hist, p) && TrueItems(hist, items[1..]) && TrueItems(hist, [p]);
      hide TrueItem, TrueItems;
      TrueItemsConcat(hist, k.items, [p]);
      CollectTrue(hist, items[1..], first, k);
      CollectTrue(hist, items[1..], first, Spool(k.items + [p], p.revision + 1, Some(p.recordHash)));
    }
  }

  lemma UndamagedSound(env: Env, get: Getter, hist: seq<Commit>, x: ObjectRef, r: Range, cheaper: Cheaper)
    requires Honest(env, hist) && Undamaged(env, get, hist) && IsTrue(env, hist, x) && TrueOrError(env, get, hist, x)
    ensures TrueItems(hist, ReadRange(env, get, x, r, cheaper).items)
  {
    hide Honest, Undamaged, IsTrue, TrueOrError, ValidRef, Plan, Parts, TrueItems, Collect;
    NoItems(hist);
    PartsTrue(env, get, hist, x, r, cheaper);
    CollectTrue(hist, Parts(env, get, x, r, cheaper).items, r.first, Spool([], r.first, None));
  }

  // ---- Either way ----

  /** An honest log read from a store that cannot mislead: its objects are undamaged, or no
      other record has the hash of one of the log's. */
  ghost predicate Reliable(env: Env, get: Getter, hist: seq<Commit>) {
    Honest(env, hist) && (Undamaged(env, get, hist) || Collisionless(env, History.Records(hist)))
  }

  lemma ReliableHonest(env: Env, get: Getter, hist: seq<Commit>)
    requires Reliable(env, get, hist)
    ensures Honest(env, hist)
  {
  }

  /** A reference of the log. */
  ghost predicate Referred(env: Env, get: Getter, hist: seq<Commit>, x: ObjectRef) {
    IsTrue(env, hist, x) && (Undamaged(env, get, hist) ==> TrueOrError(env, get, hist, x))
  }

  /** Reading a range below a reference of the log never exposes a record that is not its. */
  lemma ReadRangeSound(env: Env, get: Getter, hist: seq<Commit>, x: ObjectRef, r: Range, cheaper: Cheaper)
    requires Reliable(env, get, hist) && Referred(env, get, hist, x) && 1 <= r.first
    ensures TrueItems(hist, ReadRange(env, get, x, r, cheaper).items)
  {
    hide Honest, Undamaged, Collisionless, IsTrue, TrueOrError, ReadRange, TrueItems;
    if Undamaged(env, get, hist) {
      UndamagedSound(env, get, hist, x, r, cheaper);
    } else {
      AnchoredSound(env, get, hist, x, r, cheaper);
    }
  }

  // ---- Only a prefix of the requested records is delivered ----

  /** Scan's variables after some prefix of the requested records. */
  predicate SinkOK(hist: seq<Commit>, r: Range, k: Sink)
    requires 1 <= r.first <= r.last <= |hist|
  {
    var n := r.first + |k.out|;
    n <= r.last + 1 && k == SinkAt(hist, r, n)
  }

  lemma EmitSound(env: Env, hist: seq<Commit>, r: Range, ctl: Control, k: Sink, p: Projection)
    requires Honest(env, hist) && 1 <= r.first <= r.last <= |hist| && SinkOK(hist, r, k) && TrueItem(hist, p)
    ensures var e := Emit(env, r, ctl, k, p);
      e.0.out <= Recs(hist, r.first, r.last) && (e.1.None? ==> SinkOK(hist, r, e.0))
  {
    hide *;
    EmitForm(env, r, ctl, k, p);
    SinkStep(env, hist, r, k, p);
  }

  /** Emit either changes nothing or delivers the record it expects next. */
  lemma EmitForm(env: Env, r: Range, ctl: Control, k: Sink, p: Projection)
    ensures
      var e := Emit(env, r, ctl, k, p);
      || (e.0 == k && (e.1.None? ==> !Requests(r, p.revision)))
      || (!k.done && p.revision == k.next && Requests(r, p.revision) && ValidProjection(env, p) &&
          (k.chain.Some? ==> p.previousRecordHash == k.chain.value) &&
          e.0.out == k.out + [p] && (e.1.None? ==> e.0 == Delivered(r, k, p)))
  {
    hide ValidProjection;
  }

  /** Scan's variables once its callback has accepted p. */
  function Delivered(r: Range, k: Sink, p: Projection): Sink {
    if p.revision == r.last then Sink(k.next, Some(p.recordHash), true, k.out + [p])
    else Sink(k.next + 1, Some(p.recordHash), k.done, k.out + [p])
  }

  lemma SinkStep(env: Env, hist: seq<Commit>, r: Range, k: Sink, p: Projection)
    requires Honest(env, hist) && 1 <= r.first <= r.last <= |hist| && SinkOK(hist, r, k) && TrueItem(hist, p)
    ensures k.out <= Recs(hist, r.first, r.last)
    ensures !k.done && p.revision == k.next ==>
              k.out + [p] <= Recs(hist, r.first, r.last) && SinkOK(hist, r, Delivered(r, k, p))
  {
    var n := r.first + |k.out|;
    RecsPart(hist, r.first, n - 1, r.last);
    hide Honest;
    if n <= r.last {
      RecsSnoc(hist, r.first, n);
      RecsPart(hist, r.first, n, r.last);
    }
  }

  lemma RecsPart(hist: seq<Commit>, s: int, m: int, e: int)
    requires 1 <= s <= m + 1 <= e + 1 <= |hist| + 1
    ensures Recs(hist, s, m) <= Recs(hist, s, e) && |Recs(hist, s, m)| == m - s + 1
  {
    RecsConcat(hist, s, m, e);
  }

  lemma {:induction false} EmitAllSound(env: Env, hist: seq<Commit>, r: Range, ctl: Control, k: Sink, items: seq<Projection>)
    requires Honest(env, hist) && 1 <= r.first <= r.last <= |hist| && SinkOK(hist, r, k) && TrueItems(hist, items)
    ensures var e := EmitAll(env, r, ctl, k, items);
      e.0.out <= Recs(hist, r.first, r.last) && (e.1.None? ==> SinkOK(hist, r, e.0))
    decreases |items|
  {
    if items == [] {
      RecsPart(hist, r.first, r.first + |k.out| - 1, r.last);
    } else {
      assert TrueItem(hist, items[0]) && TrueItems(hist, items[1..]);
      hide TrueItem, TrueItems, Emit, Honest, SinkOK, History.Records;
      EmitSound(env, hist, r, ctl, k, items[0]);
      var e := Emit(env, r, ctl, k, items[0]);
      if e.1.None? {
        EmitAllSound(env, hist, r, ctl, e.0, items[1..]);
      }
    }
  }

  lemma {:induction false} VisitsSound(env: Env, get: Getter, hist: seq<Commit>, r: Range, cheaper: Cheaper, ctl: Control, k: Sink, cost: ReadCost, refs: seq<ObjectRef>)
    requires Reliable(env, get, hist) && 1 <= r.first <= r.last <= |hist| && SinkOK(hist, r, k)
    requires forall x :: x in refs ==> Referred(env, get, hist, x)
    ensures var v := VisitAll(env, get, r, cheaper, ctl, k, cost, refs);
      v.sink.out <= Recs(hist, r.first, r.last) && (v.err.None? ==> SinkOK(hist, r, v.sink))
    decreases |refs|
  {
    assert Honest(env, hist);
    RecsPart(hist, r.first, r.first + |k.out| - 1, r.last);
    hide Reliable, Referred, Visit, Honest, SinkOK, Recs;
    if refs != [] {
      VisitSound(env, get, hist, r, cheaper, ctl, k, cost, refs[0]);
      var v := Visit(env, get, r, cheaper, ctl, k, cost, refs[0]);
      if v.err.None? {
        VisitsSound(env, get, hist, r, cheaper, ctl, v.sink, v.cost, refs[1..]);
      }
    }
  }

  lemma VisitSound(env: Env, get: Getter, hist: seq<Commit>, r: Range, cheaper: Cheaper, ctl: Control, k: Sink, cost: ReadCost, x: ObjectRef)
    requires Reliable(env, get, hist) && 1 <= r.first <= r.last <= |hist| && SinkOK(hist, r, k) && Referred(env, get, hist, x)
    ensures var v := Visit(env, get, r, cheaper, ctl, k, cost, x);
      v.sink.out <= Recs(hist, r.first, r.last) && (v.err.None? ==> SinkOK(hist, r, v.sink))
  {
    assert Honest(env, hist);
    RecsPart(hist, r.first, r.first + |k.out| - 1, r.last);
    hide Reliable, Referred, ReadRange, EmitAll, Honest, SinkOK, Recs, ValidRef, TrueItems;
    ReadRangeSound(env, get, hist, x, r, cheaper);
    EmitAllSound(env, hist, r, ctl, k, ReadRange(env, get, x, r, cheaper).items);
  }

  lemma ScanCutSound(env: Env, get: Getter, hist: seq<Commit>, head: int, r: Range, cheaper: Cheaper, ctl: Control)
    requires Reliable(env, get, hist) && 1 <= head <= |hist| && 1 <= r.first <= r.last <= head
    ensures var res := ScanCut(env, get, hist[head - 1], r, cheaper, ctl);
      res.out <= Recs(hist, r.first, r.last) &&
      (res.err.None? ==> res.out == Recs(hist, r.first, r.last))
  {
    hide *;
    var c, k0 := hist[head - 1], Sink(r.first, None, false, []);
    RootFacts(env, get, hist, head, r);
    VisitsSound(env, get, hist, r, cheaper, ctl, k0, FREE, Refs(c.frontier));
    var v := VisitAll(env, get, r, cheaper, ctl, k0, FREE, Refs(c.frontier));
    if v.err.None? {
      EmitSound(env, hist, r, ctl, v.sink, Project(c));
      var e := Emit(env, r, ctl, v.sink, Project(c));
      if e.1.None? {
        SinkDone(hist, r, e.0);
      }
    }
    ScanCutForm(env, get, c, r, cheaper, ctl);
  }

  lemma RootFacts(env: Env, get: Getter, hist: seq<Commit>, head: int, r: Range)
    requires Reliable(env, get, hist) && 1 <= head <= |hist| && 1 <= r.first <= r.last <= head
    ensures Honest(env, hist) && SinkOK(hist, r, Sink(r.first, None, false, []))
    ensures forall x :: x in Refs(hist[head - 1].frontier) ==> Referred(env, get, hist, x)
    ensures TrueItem(hist, Project(hist[head - 1]))
  {
    HonestFrontier(env, hist, head);
    RecsEmpty(hist, r.first);
    RecsTrue(env, hist, head, head);
    assert Recs(hist, head, head)[0] == Project(hist[head - 1]);
    if Undamaged(env, get, hist) {
      UndamagedRefs(env, get, hist, head);
    }
    hide IsTrue, FrontierOK, ValidProjection, TrueOrError, Undamaged, Collisionless, Honest;
  }

  /** How a scan of a cut range ends. */
  lemma ScanCutForm(env: Env, get: Getter, c: Commit, r: Range, cheaper: Cheaper, ctl: Control)
    ensures
      var res := ScanCut(env, get, c, r, cheaper, ctl);
      var v := VisitAll(env, get, r, cheaper, ctl, Sink(r.first, None, false, []), FREE, Refs(c.frontier));
      var e := Emit(env, r, ctl, v.sink, Project(c));
      || (res.out == [] && res.err.Some?)
      || (v.err.Some? && res.out == v.sink.out && res.err == v.err)
      || (v.err.None? && res.out == e.0.out && (res.err.None? ==> e.1.None? && e.0.done))
  {
    hide VisitAll, Emit, FrontierOK, Refs;
  }

  lemma SinkDone(hist: seq<Commit>, r: Range, k: Sink)
    requires 1 <= r.first <= r.last <= |hist| && SinkOK(hist, r, k)
    ensures k.done ==> k.out == Recs(hist, r.first, r.last)
  {
    hide HashAt;
  }

  /** With an honest root, whatever the store holds or fails to return, every record a scan
      delivers is the log's record of the next requested revision, and a scan that ends
      without an error has delivered all of them. */
  lemma ScanNeverLies(env: Env, get: Getter, hist: seq<Commit>, head: int, r: Range, cheaper: Cheaper, ctl: Control)
    requires Reliable(env, get, hist) && 0 <= head <= |hist| && ValidRange(r)
    ensures
      var res := ScanLog(env, get, SnapshotAt(hist, head), r, cheaper, ctl);
      res.out <= Requested(hist, head, r) && (res.err.None? ==> res.out == Requested(hist, head, r))
  {
    if head > 0 {
      assert HonestAt(env, hist, head);
    }
    hide Reliable, ScanCut, Recs, ValidCommit, AllTrue;
    if head > 0 && r != EMPTY && r.first <= head {
      ScanCutSound(env, get, hist, head, Cut(r, head), cheaper, ctl);
    }
  }

  // ---- With a root that is only well formed ----

  function FirstPrev(out: seq<Projection>): Bytes {
    if out == [] then ZERO_HASH else out[0].previousRecordHash
  }

  /** What has been delivered is one chain of valid records from the range's start. */
  predicate SinkChain(env: Env, r: Range, k: Sink) {
    && Chained(env, k.out, r.first, FirstPrev(k.out))
    && k.chain == (if k.out == [] then None else Some(LastHash(k.out, ZERO_HASH)))
    && (if k.done then r.first + |k.out| == r.last + 1 else k.next == r.first + |k.out|)
  }

  lemma EmitChains(env: Env, r: Range, ctl: Control, k: Sink, p: Projection)
    requires SinkChain(env, r, k)
    ensures Emit(env, r, ctl, k, p).1.None? ==> SinkChain(env, r, Emit(env, r, ctl, k, p).0)
  {
    hide *;
    EmitForm(env, r, ctl, k, p);
    if !k.done && p.revision == k.next && ValidProjection(env, p) && (k.chain.Some? ==> p.previousRecordHash == k.chain.value) {
      ChainGrows(env, r, k, p);
    }
  }

  lemma ChainGrows(env: Env, r: Range, k: Sink, p: Projection)
    requires SinkChain(env, r, k) && !k.done && p.revision == k.next && ValidProjection(env, p)
    requires k.chain.Some? ==> p.previousRecordHash == k.chain.value
    ensures SinkChain(env, r, Delivered(r, k, p))
  {
    SinkParts(env, r, k);
    hide *;
    SingleChain(env, p);
    if k.out == [] {
      assert k.out + [p] == [p];
    } else {
      ChainedConcat(env, k.out, [p], r.first, FirstPrev(k.out));
      LastIs(k.out, FirstPrev(k.out));
    }
    FirstPrevStep(k.out, p);
    ChainStep(env, r, k, p);
  }

  lemma LastIs(out: seq<Projection>, prev: Bytes)
    requires out != []
    ensures LastHash(out, prev) == LastHash(out, ZERO_HASH)
  {
  }

  lemma FirstPrevStep(out: seq<Projection>, p: Projection)
    ensures FirstPrev(out + [p]) == if out == [] then p.previousRecordHash else FirstPrev(out)
  {
  }

  lemma SinkParts(env: Env, r: Range, k: Sink)
    requires SinkChain(env, r, k)
    ensures Chained(env, k.out, r.first, FirstPrev(k.out))
    ensures k.chain == (if k.out == [] then None else Some(LastHash(k.out, ZERO_HASH)))
    ensures if k.done then r.first + |k.out| == r.last + 1 else k.next == r.first + |k.out|
  {
    hide Chained;
  }

  lemma ChainStep(env: Env, r: Range, k: Sink, p: Projection)
    requires !k.done && p.revision == k.next == r.first + |k.out|
    requires Chained(env, k.out + [p], r.first, FirstPrev(k.out + [p]))
    ensures SinkChain(env, r, Delivered(r, k, p))
  {
    hide Chained, FirstPrev;
  }

  lemma {:induction false} EmitAllChains(env: Env, r: Range, ctl: Control, k: Sink, items: seq<Projection>)
    requires SinkChain(env, r, k)
    ensures EmitAll(env, r, ctl, k, items).1.None? ==> SinkChain(env, r, EmitAll(env, r, ctl, k, items).0)
    decreases |items|
  {
    hide SinkChain, Emit;
    if items != [] {
      EmitChains(env, r, ctl, k, items[0]);
      var e := Emit(env, r, ctl, k, items[0]);
      if e.1.None? {
        EmitAllChains(env, r, ctl, e.0, items[1..]);
      }
    }
  }

  lemma {:induction false} VisitsChain(env: Env, get: Getter, r: Range, cheaper: Cheaper, ctl: Control, k: Sink, cost: ReadCost, refs: seq<ObjectRef>)
    requires SinkChain(env, r, k)
    ensures VisitAll(env, get, r, cheaper, ctl, k, cost, refs).err.None? ==>
              SinkChain(env, r, VisitAll(env, get, r, cheaper, ctl, k, cost, refs).sink)
    decreases |refs|
  {
    hide SinkChain, EmitAll, ReadRange, ValidRef;
    if refs != [] {
      EmitAllChains(env, r, ctl, k, ReadRange(env, get, refs[0], r, cheaper).items);
      var v := Visit(env, get, r, cheaper, ctl, k, cost, refs[0]);
      if v.err.None? {
        VisitsChain(env, get, r, cheaper, ctl, v.sink, v.cost, refs[1..]);
      }
    }
  }

  lemma RootChain(env: Env, get: Getter, c: Commit, r: Range, cheaper: Cheaper, ctl: Control)
    requires 1 <= r.first <= r.last == c.revision && ScanCut(env, get, c, r, cheaper, ctl).err.None?
    ensures
      var out := ScanCut(env, get, c, r, cheaper, ctl).out;
      Chained(env, out, r.first, FirstPrev(out)) && |out| == r.last - r.first + 1 && out[|out| - 1] == Project(c)
  {
    hide *;
    var k0 := Sink(r.first, None, false, []);
    ScanCutForm(env, get, c, r, cheaper, ctl);
    StartChain(env, r);
    VisitsChain(env, get, r, cheaper, ctl, k0, FREE, Refs(c.frontier));
    var v := VisitAll(env, get, r, cheaper, ctl, k0, FREE, Refs(c.frontier));
    EmitForm(env, r, ctl, v.sink, Project(c));
    EmitChains(env, r, ctl, v.sink, Project(c));
    ProjectRevision(c, r);
    SinkEnds(env, r, Emit(env, r, ctl, v.sink, Project(c)).0);
  }

  lemma StartChain(env: Env, r: Range)
    ensures SinkChain(env, r, Sink(r.first, None, false, []))
  {
  }

  lemma ProjectRevision(c: Commit, r: Range)
    requires r.first <= r.last == c.revision
    ensures Requests(r, Project(c).revision)
  {
  }

  lemma SinkEnds(env: Env, r: Range, k: Sink)
    ensures SinkChain(env, r, k) && k.done ==> Chained(env, k.out, r.first, FirstPrev(k.out)) && r.first + |k.out| == r.last + 1
  {
  }

  /** A scan through the head of a well-formed root that ends without an error has delivered
      one hash chain from the first requested revision to the root's own record, starting
      from the zero hash when it begins at revision 1. */
  lemma ScanReachesRoot(env: Env, get: Getter, c: Commit, r: Range, cheaper: Cheaper, ctl: Control)
    requires ValidRange(r) && r != EMPTY && r.first <= c.revision <= r.last
    requires ScanLog(env, get, Some(c), r, cheaper, ctl).err.None?
    ensures
      var out := ScanLog(env, get, Some(c), r, cheaper, ctl).out;
      Chained(env, out, r.first, FirstPrev(out)) && |out| == c.revision - r.first + 1 &&
      out[|out| - 1] == Project(c) && (r.first == 1 ==> FirstPrev(out) == ZERO_HASH)
  {
    hide ScanCut, Chained, ValidProjection;
    RootChain(env, get, c, Cut(r, c.revision), cheaper, ctl);
    ChainStartsAtZero(env, ScanLog(env, get, Some(c), r, cheaper, ctl).out);
  }

  lemma ChainStartsAtZero(env: Env, out: seq<Projection>)
    ensures Chained(env, out, 1, FirstPrev(out)) ==> FirstPrev(out) == ZERO_HASH
  {
    if out != [] && AllValid(env, out) {
      assert ValidProjection(env, out[0]);
    }
  }

  /** So a root's record hash fixes what complete scans deliver: two of them, from any two
      stores and by any plans, agree wherever their ranges overlap. */
  lemma ScansAgree(env: Env, c: Commit, get1: Getter, r1: Range, cheaper1: Cheaper, ctl1: Control,
                   get2: Getter, r2: Range, cheaper2: Cheaper, ctl2: Control)
    requires ValidRange(r1) && r1 != EMPTY && r1.first <= c.revision <= r1.last
    requires ValidRange(r2) && r2 != EMPTY && r1.first <= r2.first <= c.revision <= r2.last
    requires ScanLog(env, get1, Some(c), r1, cheaper1, ctl1).err.None?
    requires ScanLog(env, get2, Some(c), r2, cheaper2, ctl2).err.None?
    requires Collisionless(env, ScanLog(env, get1, Some(c), r1, cheaper1, ctl1).out)
    ensures
      var a, b := ScanLog(env, get1, Some(c), r1, cheaper1, ctl1).out, ScanLog(env, get2, Some(c), r2, cheaper2, ctl2).out;
      |a| == c.revision - r1.first + 1 && b == a[r2.first - r1.first..]
  {
    hide *;
    NotEmpty(r1);
    NotEmpty(r2);
    ScanReachesRoot(env, get1, c, r1, cheaper1, ctl1);
    ScanReachesRoot(env, get2, c, r2, cheaper2, ctl2);
    ChainsAgree(env, c, ScanLog(env, get1, Some(c), r1, cheaper1, ctl1).out, r1.first,
                ScanLog(env, get2, Some(c), r2, cheaper2, ctl2).out, r2.first);
  }

  lemma NotEmpty(r: Range)
    ensures ValidRange(r) && r != EMPTY ==> 1 <= r.first
  {
  }

  lemma ChainsAgree(env: Env, c: Commit, a: seq<Projection>, s: int, b: seq<Projection>, t: int)
    requires Chained(env, a, s, FirstPrev(a)) && Chained(env, b, t, FirstPrev(b)) && s <= t <= c.revision
    requires |a| == c.revision - s + 1 && |b| == c.revision - t + 1
    requires a[|a| - 1] == Project(c) == b[|b| - 1] && Collisionless(env, a)
    ensures b == a[t - s..]
  {
    assert LastHash(b, FirstPrev(b)) == a[|a| - 1].recordHash;
    hide Chained, Collisionless;
    ChainEndsDetermine(env, a, s, FirstPrev(a), b, t, FirstPrev(b), |a| - 1);
    assert a[..|a|] == a;
  }
}
