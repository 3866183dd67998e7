/**
 Which keys a scan fetches: no key twice, and nothing else matters to it. So a getter, one
 answer per key, describes a scan of a store that changes meanwhile.
 */
module ScanReads {
  import opened Wrappers
  import opened Wire
  import opened Segment
  import opened ReadPlan
  import opened Scan

  /** The keys readRangeParts fetches for a block when no fetch before them fails. */
  function BlockReads(env: Env, get: Getter, ref: ObjectRef, r: Range, cheaper: Cheaper): seq<Key>
    decreases ref.level, 1, 0
  {
    if !ValidRef(ref) || ref.end < r.first || ref.start > r.last then []
    else if !Plan(ref.start, ref.level, r, cheaper).1 then [ref.key]
    else
      match LoadHistorical(env, get, ref)
      case Err(_) => [LogKey(ref.end)]
      case Ok(h) => [LogKey(ref.end)] + BlocksReads(env, get, h.children, ref.level, r, cheaper)
  }

  function BlocksReads(env: Env, get: Getter, refs: seq<ObjectRef>, bound: nat, r: Range, cheaper: Cheaper): seq<Key>
    requires forall x :: x in refs ==> x.level < bound
    decreases bound, 0, |refs|
  {
    if refs == [] then []
    else BlockReads(env, get, refs[0], r, cheaper) + BlocksReads(env, get, refs[1..], bound, r, cheaper)
  }

  // ---- No key twice ----

  ghost predicate Distinct(keys: seq<Key>) {
    forall i, j :: 0 <= i < j < |keys| ==> keys[i] != keys[j]
  }

  /** The key names a commit or segment of revisions s..e. */
  predicate Inside(k: Key, s: int, e: int) {
    match k
    case LogKey(r) => s <= r <= e
    case TreeKey(_, first, last, _) => s <= first <= last <= e
    case OtherKey(_) => false
  }

  ghost predicate AllInside(keys: seq<Key>, s: int, e: int) {
    forall k :: k in keys ==> Inside(k, s, e)
  }

  /** Keys of separate stretches of revisions differ. */
  lemma DistinctConcat(a: seq<Key>, b: seq<Key>, s: int, m: int, e: int)
    requires Distinct(a) && Distinct(b) && AllInside(a, s, m) && AllInside(b, m + 1, e) && s <= m + 1 <= e + 1
    ensures Distinct(a + b) && AllInside(a + b, s, e)
  {
    var c := a + b;
    forall i, j | 0 <= i < j < |c|
      ensures c[i] != c[j]
    {
      if i < |a| <= j {
        assert a[i] in a && b[j - |a|] in b;
      }
    }
    forall k | k in c
      ensures Inside(k, s, e)
    {
      assert k in a || k in b;
    }
  }

  lemma OneKey(k: Key, s: int, e: int)
    requires Inside(k, s, e)
    ensures Distinct([k]) && AllInside([k], s, e)
  {
  }

  lemma NoKey(s: int, e: int)
    ensures Distinct([]) && AllInside([], s, e)
  {
  }

  lemma HistoricalWalk(env: Env, get: Getter, ref: ObjectRef)
    requires LoadHistorical(env, get, ref).Ok?
    ensures
      var h := LoadHistorical(env, get, ref).value;
      (forall x :: x in h.children ==> ValidRef(x)) && Walk(h.children, ref.start, ref.firstPrevHash).Some? &&
      Walk(h.children, ref.start, ref.firstPrevHash).value.0 == ref.end
  {
    var h := LoadHistorical(env, get, ref).value;
    SelectedLevels(Refs(h.commit.frontier), ref, ref.start, ref.firstPrevHash);
    hide ValidRef, DecodeCommit, SelectChildren, Walk;
  }

  lemma RefPlace(ref: ObjectRef)
    requires ValidRef(ref)
    ensures ref.start <= ref.end && Inside(ref.key, ref.start, ref.end) && Inside(LogKey(ref.end), ref.end, ref.end)
  {
  }

  /** Reading a block fetches distinct keys of its own revisions. */
  lemma {:induction false} BlockReadsDistinct(env: Env, get: Getter, ref: ObjectRef, r: Range, cheaper: Cheaper)
    ensures Distinct(BlockReads(env, get, ref, r, cheaper)) && AllInside(BlockReads(env, get, ref, r, cheaper), ref.start, ref.end)
    decreases ref.level, 1, 0
  {
    hide ValidRef, Plan, LoadHistorical, Distinct, AllInside, Inside, BlocksReads;
    NoKey(ref.start, ref.end);
    if ValidRef(ref) {
      RefPlace(ref);
      OneKey(ref.key, ref.start, ref.end);
      OneKey(LogKey(ref.end), ref.end, ref.end);
      DistinctConcat([], [LogKey(ref.end)], ref.start, ref.end - 1, ref.end);
      NoKey(ref.start, ref.end - 1);
      assert [] + [LogKey(ref.end)] == [LogKey(ref.end)];
      if LoadHistorical(env, get, ref).Ok? {
        var h := LoadHistorical(env, get, ref).value;
        HistoricalWalk(env, get, ref);
        BlocksReadsDistinct(env, get, h.children, ref.level, r, cheaper, ref.start, ref.firstPrevHash);
        LastFirst(BlocksReads(env, get, h.children, ref.level, r, cheaper), ref.start, ref.end);
      }
    }
  }

  /** The commit at a block's end, fetched before the keys of the revisions before it. */
  lemma LastFirst(keys: seq<Key>, s: int, e: int)
    requires Distinct(keys) && AllInside(keys, s, e - 1) && s <= e
    ensures Distinct([LogKey(e)] + keys) && AllInside([LogKey(e)] + keys, s, e)
  {
    var c := [LogKey(e)] + keys;
    forall i, j | 0 <= i < j < |c|
      ensures c[i] != c[j]
    {
      assert c[j] == keys[j - 1] && keys[j - 1] in keys;
    }
  }

  lemma {:induction false} BlocksReadsDistinct(env: Env, get: Getter, refs: seq<ObjectRef>, bound: nat, r: Range, cheaper: Cheaper, next: int, chain: Bytes)
    requires forall x :: x in refs ==> x.level < bound && ValidRef(x)
    requires Walk(refs, next, chain).Some?
    ensures next <= Walk(refs, next, chain).value.0
    ensures Distinct(BlocksReads(env, get, refs, bound, r, cheaper))
    ensures AllInside(BlocksReads(env, get, refs, bound, r, cheaper), next, Walk(refs, next, chain).value.0 - 1)
    decreases bound, 0, |refs|
  {
    hide ValidRef, BlockReads, Distinct, AllInside;
    if refs == [] {
      NoKey(next, next - 1);
    } else {
      var x := refs[0];
      RefPlace(x);
      BlockReadsDistinct(env, get, x, r, cheaper);
      BlocksReadsDistinct(env, get, refs[1..], bound, r, cheaper, x.end + 1, x.lastRecordHash);
      DistinctConcat(BlockReads(env, get, x, r, cheaper), BlocksReads(env, get, refs[1..], bound, r, cheaper),
                     next, x.end, Walk(refs, next, chain).value.0 - 1);
    }
  }

  // ---- Nothing else matters ----

  ghost predicate Agree(get: Getter, other: Getter, keys: seq<Key>) {
    forall k :: k in keys ==> get(k) == other(k)
  }

  lemma AgreeConcat(get: Getter, other: Getter, a: seq<Key>, b: seq<Key>)
    requires Agree(get, other, a + b)
    ensures Agree(get, other, a) && Agree(get, other, b)
  {
  }

  lemma AgreeOne(get: Getter, other: Getter, k: Key)
    requires Agree(get, other, [k])
    ensures get(k) == other(k)
  {
    assert k in [k];
  }

  lemma SameObject(env: Env, get: Getter, other: Getter, ref: ObjectRef)
    requires get(ref.key) == other(ref.key)
    ensures ReadRecords(env, get, ref) == ReadRecords(env, other, ref)
  {
    hide ValidRef, DecodeCommit, DecodeSegment;
  }

  lemma SameRoot(env: Env, get: Getter, other: Getter, ref: ObjectRef)
    requires get(LogKey(ref.end)) == other(LogKey(ref.end))
    ensures LoadHistorical(env, get, ref) == LoadHistorical(env, other, ref)
  {
    hide DecodeCommit, SelectChildren;
  }

  /** Two getters that answer alike for the keys fetched read alike. */
  lemma {:induction false} BlockDepends(env: Env, get: Getter, other: Getter, ref: ObjectRef, r: Range, cheaper: Cheaper)
    requires Agree(get, other, BlockReads(env, get, ref, r, cheaper))
    ensures Parts(env, get, ref, r, cheaper) == Parts(env, other, ref, r, cheaper)
    decreases ref.level, 1, 0
  {
    hide ValidRef, Plan, LoadHistorical, Agree, ReadRecords, PartsAll, BlocksReads;
    if ValidRef(ref) && ref.end >= r.first && ref.start <= r.last {
      if !Plan(ref.start, ref.level, r, cheaper).1 {
        AgreeOne(get, other, ref.key);
        SameObject(env, get, other, ref);
      } else {
        var rest := if LoadHistorical(env, get, ref).Ok? then
                      BlocksReads(env, get, LoadHistorical(env, get, ref).value.children, ref.level, r, cheaper) else [];
        assert [LogKey(ref.end)] + [] == [LogKey(ref.end)];
        AgreeConcat(get, other, [LogKey(ref.end)], rest);
        AgreeOne(get, other, LogKey(ref.end));
        SameRoot(env, get, other, ref);
        if LoadHistorical(env, get, ref).Ok? {
          BlocksDepend(env, get, other, LoadHistorical(env, get, ref).value.children, ref.level, r, cheaper);
        }
      }
    }
  }

  lemma {:induction false} BlocksDepend(env: Env, get: Getter, other: Getter, refs: seq<ObjectRef>, bound: nat, r: Range, cheaper: Cheaper)
    requires forall x :: x in refs ==> x.level < bound
    requires Agree(get, other, BlocksReads(env, get, refs, bound, r, cheaper))
    ensures PartsAll(env, get, refs, bound, r, cheaper) == PartsAll(env, other, refs, bound, r, cheaper)
    decreases bound, 0, |refs|
  {
    hide Parts, BlockReads, Agree;
    if refs != [] {
      AgreeConcat(get, other, BlockReads(env, get, refs[0], r, cheaper), BlocksReads(env, get, refs[1..], bound, r, cheaper));
      BlockDepends(env, get, other, refs[0], r, cheaper);
      BlocksDepend(env, get, other, refs[1..], bound, r, cheaper);
    }
  }

  lemma VisitDepends(env: Env, get: Getter, other: Getter, r: Range, cheaper: Cheaper, ctl: Control, k: Sink, cost: ReadCost, ref: ObjectRef)
    requires Agree(get, other, BlockReads(env, get, ref, r, cheaper))
    ensures Visit(env, get, r, cheaper, ctl, k, cost, ref) == Visit(env, other, r, cheaper, ctl, k, cost, ref)
  {
    hide Agree, BlockReads, Parts, Plan, ValidRef, EmitAll, Spooled;
    BlockDepends(env, get, other, ref, r, cheaper);
  }

  lemma {:induction false} VisitsDepend(env: Env, get: Getter, other: Getter, r: Range, cheaper: Cheaper, ctl: Control, k: Sink, cost: ReadCost, refs: seq<ObjectRef>, bound: nat)
    requires forall x :: x in refs ==> x.level < bound
    requires Agree(get, other, BlocksReads(env, get, refs, bound, r, cheaper))
    ensures VisitAll(env, get, r, cheaper, ctl, k, cost, refs) == VisitAll(env, other, r, cheaper, ctl, k, cost, refs)
    decreases |refs|
  {
    hide Visit, BlockReads, Agree;
    if refs != [] {
      AgreeConcat(get, other, BlockReads(env, get, refs[0], r, cheaper), BlocksReads(env, get, refs[1..], bound, r, cheaper));
      VisitDepends(env, get, other, r, cheaper, ctl, k, cost, refs[0]);
      var v := Visit(env, get, r, cheaper, ctl, k, cost, refs[0]);
      VisitsDepend(env, get, other, r, cheaper, ctl, v.sink, v.cost, refs[1..], bound);
    }
  }

  // ---- A whole scan ----

  /** The keys a scan of a root fetches; none when the root's frontier is refused. */
  function RootReads(env: Env, get: Getter, c: Commit, r: Range, cheaper: Cheaper): seq<Key> {
    if FrontierOK(c.frontier, c.revision, PrevHash(c)) then
      AcceptedLevels(c.frontier, c.revision, PrevHash(c));
      BlocksReads(env, get, Refs(c.frontier), 16, Cut(r, c.revision), cheaper)
    else []
  }

  lemma AcceptedLevels(f: seq<FrontierLevel>, revision: int, prevHash: Bytes)
    requires FrontierOK(f, revision, prevHash)
    ensures forall x :: x in Refs(f) ==> x.level < 16 && ValidRef(x)
    ensures Walk(Refs(f), 1, ZERO_HASH).Some?
  {
    RefsAreFlat(f, 16);
    FlatValid(Spread(f), 16, revision - 1);
  }

  /** A scan fetches no key twice. */
  lemma FetchesOnce(env: Env, get: Getter, c: Commit, r: Range, cheaper: Cheaper)
    ensures Distinct(RootReads(env, get, c, r, cheaper))
  {
    hide FrontierOK, BlocksReads, Distinct;
    NoKey(1, 1);
    if FrontierOK(c.frontier, c.revision, PrevHash(c)) {
      AcceptedLevels(c.frontier, c.revision, PrevHash(c));
      BlocksReadsDistinct(env, get, Refs(c.frontier), 16, Cut(r, c.revision), cheaper, 1, ZERO_HASH);
    }
  }

  /** What a scan does depends on the store through the answers for those keys alone. */
  lemma ScanDepends(env: Env, get: Getter, other: Getter, c: Commit, r: Range, cheaper: Cheaper, ctl: Control)
    requires Agree(get, other, RootReads(env, get, c, r, cheaper))
    ensures ScanLog(env, get, Some(c), r, cheaper, ctl) == ScanLog(env, other, Some(c), r, cheaper, ctl)
  {
    hide FrontierOK, BlocksReads, Agree, VisitAll, Emit;
    if FrontierOK(c.frontier, c.revision, PrevHash(c)) {
      var cut := Cut(r, c.revision);
      AcceptedLevels(c.frontier, c.revision, PrevHash(c));
      VisitsDepend(env, get, other, cut, cheaper, ctl, Sink(cut.first, None, false, []), FREE, Refs(c.frontier), 16);
    }
  }
}
