/**
 What every interleaving of the append protocol keeps: an honest gap-free log whose
 references can all be followed, and at most one commit per invocation.
 */
module ProtocolSafe {
  import opened Wrappers
  import opened Wire
  import opened Carry
  import opened Segment
  import opened History
  import opened ScanIntact
  import opened Protocol

  // ---- The invariant ----

  /** A stored tree object is the true segment its key names. */
  predicate TrueObject(env: Env, hist: seq<Commit>, k: Key, b: Body) {
    && k.TreeKey? && k.level >= 1 && InLog(hist, k.level, k.first)
    && ValidRef(TrueRef(env, hist, k.level, k.first))
    && k == TrueRef(env, hist, k.level, k.first).key
    && b == TrueBody(hist, k.level, k.first)
  }

  /** The keys are those of commits 1..|hist| and of true segments. */
  ghost predicate KeysOK(env: Env, store: Store, hist: seq<Commit>) {
    forall k :: k in store ==> (k.LogKey? && 1 <= k.revision <= |hist|) || TrueObject(env, hist, k, store[k])
  }

  ghost predicate StoreOK(env: Env, store: Store, hist: seq<Commit>) {
    && Honest(env, hist)
    && Intact(env, Reader(store), hist)
    && KeysOK(env, store, hist)
  }

  ghost predicate Held(env: Env, store: Store, hist: seq<Commit>, refs: seq<ObjectRef>) {
    forall x :: x in refs ==> Good(env, Reader(store), hist, x)
  }

  /** A commit that may be published as soon as its predecessor is the head. */
  ghost predicate Publishable(env: Env, store: Store, hist: seq<Commit>, c: Commit) {
    var n := c.revision - 1;
    0 <= n <= |hist| && HonestAt(env, hist[..n] + [c], n + 1) && Held(env, store, hist[..n], Refs(c.frontier))
  }

  /** The carry in progress is over the log up to the base and all it refers to is stored. */
  ghost predicate Carries(env: Env, store: Store, hist: seq<Commit>, base: Snapshot, lv: Levels, ref: ObjectRef, level: nat) {
    var h := base.commit.revision;
    && 1 <= h <= |hist| && base == Snapshot(hist[h - 1], EncodeCommit(hist[h - 1]))
    && CarryInv(lv, ref, level, h, HashAt(hist, h))
    && Held(env, store, hist[..h], Flat(lv, 16) + [ref])
  }

  /** The level is full, so the carry needs a segment. */
  ghost predicate Packs16(env: Env, store: Store, hist: seq<Commit>, base: Snapshot, lv: Levels, ref: ObjectRef, level: nat) {
    Carries(env, store, hist, base, lv, ref, level) && level < 16 && |lv[level]| == 15
  }

  /** The records of the first n children. */
  function LoadedTo(hist: seq<Commit>, children: seq<ObjectRef>, n: nat): Option<seq<Projection>>
    requires n <= |children| && children != []
  {
    var s, e := children[0].start, if n == 0 then children[0].start - 1 else children[n - 1].end;
    if 1 <= s <= e + 1 <= |hist| + 1 then Some(Recs(hist, s, e)) else None
  }

  /** The segment being created is the true one over its children. */
  predicate Segmented(env: Env, hist: seq<Commit>, children: seq<ObjectRef>, level: nat, segment: ObjectRef)
    requires children != []
  {
    && segment.level == level + 1
    && IsTrue(env, hist, segment) && Aggregates(segment, children)
  }

  ghost predicate PcOK(env: Env, store: Store, hist: seq<Commit>, id: Bytes, pc: Pc) {
    match pc
    case Listing => true
    case Listed(head) => 1 <= head <= |hist|
    case Carrying(base, lv, ref, level) => Carries(env, store, hist, base, lv, ref, level)
    case Packing(base, lv, ref, level, loaded, n) =>
      Packs16(env, store, hist, base, lv, ref, level) && n <= 16 &&
      LoadedTo(hist[..base.commit.revision], Children(lv, ref, level), n) == Some(loaded)
    case SegmentCreate(base, lv, ref, level, segment, body) =>
      Packs16(env, store, hist, base, lv, ref, level) &&
      Segmented(env, hist[..base.commit.revision], Children(lv, ref, level), level, segment) &&
      body == TrueBody(hist[..base.commit.revision], segment.level, segment.start)
    case SegmentCheck(base, lv, ref, level, segment, existed) =>
      Packs16(env, store, hist, base, lv, ref, level) &&
      Segmented(env, hist[..base.commit.revision], Children(lv, ref, level), level, segment) &&
      (existed ==> segment.key in store)
    case Publish(c) => Publishable(env, store, hist, c) && c.commitId == id
    case Check(c, existed) =>
      Publishable(env, store, hist, c) && c.commitId == id && (existed ==> LogKey(c.revision) in store)
    case Done(_) => true
    case Conflicted => true
    case Failed(e) => e == Io || e == Exhausted || e == Callback
  }

  /** A create that may still land would leave the store in order. */
  ghost predicate FlyingOK(env: Env, store: Store, hist: seq<Commit>, writers: map<Bytes, Writer>, k: Key, b: Body) {
    if k.LogKey? then
      b.CommitBody? && k.revision == b.commit.revision && b == EncodeCommit(b.commit) &&
      Publishable(env, store, hist, b.commit) && b.commit.commitId in writers
    else TrueObject(env, hist, k, b)
  }

  // ---- One commit per invocation ----

  /** A create of this invocation's commit is in flight and its revision still free. */
  predicate Pending(inflight: set<(Key, Body)>, hist: seq<Commit>, id: Bytes, k: Key, b: Body) {
    (k, b) in inflight && b.CommitBody? && b.commit.commitId == id && b.commit.revision > |hist|
  }

  predicate At(hist: seq<Commit>, id: Bytes, r: int) {
    1 <= r <= |hist| && hist[r - 1].commitId == id
  }

  ghost predicate Once(inflight: set<(Key, Body)>, hist: seq<Commit>, id: Bytes) {
    && (forall q, r :: At(hist, id, q) && At(hist, id, r) ==> q == r)
    && (forall k, b, r :: Pending(inflight, hist, id, k, b) ==> !At(hist, id, r))
  }

  ghost predicate Never(inflight: set<(Key, Body)>, hist: seq<Commit>, id: Bytes) {
    && (forall r :: !At(hist, id, r))
    && (forall k, b :: !Pending(inflight, hist, id, k, b))
  }

  ghost predicate OnlyAt(inflight: set<(Key, Body)>, hist: seq<Commit>, id: Bytes, c: Commit) {
    && (forall r :: At(hist, id, r) ==> hist[r - 1] == c)
    && (forall k, b :: Pending(inflight, hist, id, k, b) ==> b.commit == c)
  }

  /** Where commits of an invocation can be, by what its writer knows. */
  ghost predicate Placed(inflight: set<(Key, Body)>, hist: seq<Commit>, id: Bytes, pc: Pc) {
    && Once(inflight, hist, id)
    && match pc
       case Check(c, _) => OnlyAt(inflight, hist, id, c)
       case Done(r) => At(hist, id, r)
       case Failed(_) => true
       case _ => Never(inflight, hist, id)
  }

  ghost predicate WriterOK(env: Env, s: State, hist: seq<Commit>, id: Bytes, w: Writer) {
    && Prepared(env, id, w.event)
    && PcOK(env, s.store, hist, id, w.pc)
    && Placed(s.inflight, hist, id, w.pc)
  }

  ghost predicate WritersOK(env: Env, s: State, hist: seq<Commit>) {
    forall id :: id in s.writers ==> WriterOK(env, s, hist, id, s.writers[id])
  }

  ghost predicate InflightOK(env: Env, s: State, hist: seq<Commit>) {
    forall k, b :: (k, b) in s.inflight ==> FlyingOK(env, s.store, hist, s.writers, k, b)
  }

  ghost predicate KnownIds(s: State, hist: seq<Commit>) {
    forall i :: 0 <= i < |hist| ==> hist[i].commitId in s.writers
  }

  ghost predicate Inv(env: Env, s: State, hist: seq<Commit>) {
    && StoreOK(env, s.store, hist)
    && WritersOK(env, s, hist)
    && InflightOK(env, s, hist)
    && KnownIds(s, hist)
  }

  // ---- Growth keeps what was known ----

  ghost predicate Grows(store: Store, more: Store) {
    forall k :: k in store ==> k in more && more[k] == store[k]
  }

  lemma HeldGrows(env: Env, store: Store, more: Store, hist: seq<Commit>, refs: seq<ObjectRef>)
    requires Held(env, store, hist, refs) && Grows(store, more)
    ensures Held(env, more, hist, refs)
  {
    hide IsTrue, TrueBody;
    forall x | x in refs
      ensures Good(env, Reader(more), hist, x)
    {
      assert Good(env, Reader(store), hist, x);
    }
  }

  lemma PrefixPart(hist: seq<Commit>, more: seq<Commit>, n: nat)
    requires hist <= more && n <= |hist|
    ensures more[..n] == hist[..n]
  {
  }

  lemma PublishableGrows(env: Env, store: Store, more: Store, hist: seq<Commit>, longer: seq<Commit>, c: Commit)
    requires Publishable(env, store, hist, c) && Grows(store, more) && hist <= longer
    ensures Publishable(env, more, longer, c)
  {
    hide HonestAt, Held, Grows, Refs;
    PrefixPart(hist, longer, c.revision - 1);
    HeldGrows(env, store, more, hist[..c.revision - 1], Refs(c.frontier));
  }

  lemma CarriesGrows(env: Env, store: Store, more: Store, hist: seq<Commit>, longer: seq<Commit>, base: Snapshot, lv: Levels, ref: ObjectRef, level: nat)
    requires Carries(env, store, hist, base, lv, ref, level) && Grows(store, more) && hist <= longer
    ensures Carries(env, more, longer, base, lv, ref, level)
    ensures longer[..base.commit.revision] == hist[..base.commit.revision]
  {
    hide CarryInv, Held, Grows, Flat;
    PrefixPart(hist, longer, base.commit.revision);
    HeldGrows(env, store, more, hist[..base.commit.revision], Flat(lv, 16) + [ref]);
  }

  lemma PcGrows(env: Env, store: Store, more: Store, hist: seq<Commit>, longer: seq<Commit>, id: Bytes, pc: Pc)
    requires PcOK(env, store, hist, id, pc) && Grows(store, more) && hist <= longer
    ensures PcOK(env, more, longer, id, pc)
  {
    hide Carries, Publishable, Segmented, LoadedTo, TrueBody;
    match pc
    case Carrying(base, lv, ref, level) => CarriesGrows(env, store, more, hist, longer, base, lv, ref, level);
    case Packing(base, lv, ref, level, _, _) => CarriesGrows(env, store, more, hist, longer, base, lv, ref, level);
    case SegmentCreate(base, lv, ref, level, _, _) => CarriesGrows(env, store, more, hist, longer, base, lv, ref, level);
    case SegmentCheck(base, lv, ref, level, _, _) => CarriesGrows(env, store, more, hist, longer, base, lv, ref, level);
    case Publish(c) => PublishableGrows(env, store, more, hist, longer, c);
    case Check(c, _) => PublishableGrows(env, store, more, hist, longer, c);
    case _ =>
  }

  lemma TrueObjectGrows(env: Env, hist: seq<Commit>, longer: seq<Commit>, k: Key, b: Body)
    requires TrueObject(env, hist, k, b) && hist <= longer
    ensures TrueObject(env, longer, k, b)
  {
    hide ValidRef, TrueRef, TrueBody;
    TruePrefix(env, hist, longer, k.level, k.first);
  }

  lemma FlyingGrows(env: Env, store: Store, more: Store, hist: seq<Commit>, longer: seq<Commit>,
                    writers: map<Bytes, Writer>, after: map<Bytes, Writer>, k: Key, b: Body)
    requires FlyingOK(env, store, hist, writers, k, b) && Grows(store, more) && hist <= longer
    requires writers.Keys <= after.Keys
    ensures FlyingOK(env, more, longer, after, k, b)
  {
    hide Publishable, TrueObject;
    if k.LogKey? {
      PublishableGrows(env, store, more, hist, longer, b.commit);
    } else {
      TrueObjectGrows(env, hist, longer, k, b);
    }
  }

  // ---- Objects appearing in the store ----

  lemma GrowsByOne(store: Store, k: Key, b: Body)
    requires k !in store
    ensures Grows(store, store[k := b])
  {
  }

  lemma IntactGrows(env: Env, store: Store, more: Store, hist: seq<Commit>)
    requires Intact(env, Reader(store), hist) && Grows(store, more)
    ensures Intact(env, Reader(more), hist)
  {
    hide TrueBody, Refs;
    forall r | 1 <= r <= |hist|
      ensures ServedAt(env, Reader(more), hist, r)
    {
      assert ServedAt(env, Reader(store), hist, r);
    }
  }

  lemma SegmentLands(env: Env, store: Store, hist: seq<Commit>, k: Key, b: Body)
    requires StoreOK(env, store, hist) && TrueObject(env, hist, k, b) && k !in store
    ensures StoreOK(env, store[k := b], hist)
  {
    GrowsByOne(store, k, b);
    IntactGrows(env, store, store[k := b], hist);
    hide Honest, Intact, TrueObject, Grows;
  }

  lemma CommitLands(env: Env, store: Store, hist: seq<Commit>, c: Commit)
    requires StoreOK(env, store, hist) && Publishable(env, store, hist, c) && c.revision == |hist| + 1
    requires LogKey(c.revision) !in store
    ensures StoreOK(env, store[LogKey(c.revision) := EncodeCommit(c)], hist + [c])
  {
    hide *;
    var longer, more := hist + [c], store[LogKey(c.revision) := EncodeCommit(c)];
    StoreParts(env, store, hist);
    NextPublishable(env, store, hist, c);
    HonestExtend(env, hist, c);
    GrowsByOne(store, LogKey(c.revision), EncodeCommit(c));
    IntactGrows(env, store, more, hist);
    HeldGrows(env, store, more, hist, Refs(c.frontier));
    IntactExtends(env, more, hist, c);
    KeysExtend(env, store, hist, c);
    MakeStore(env, more, longer);
  }

  lemma StoreParts(env: Env, store: Store, hist: seq<Commit>)
    requires StoreOK(env, store, hist)
    ensures Honest(env, hist) && Intact(env, Reader(store), hist) && KeysOK(env, store, hist)
  {
    hide Honest, Intact, KeysOK;
  }

  lemma MakeStore(env: Env, store: Store, hist: seq<Commit>)
    requires Honest(env, hist) && Intact(env, Reader(store), hist) && KeysOK(env, store, hist)
    ensures StoreOK(env, store, hist)
  {
    hide Honest, Intact, KeysOK;
  }

  lemma NextPublishable(env: Env, store: Store, hist: seq<Commit>, c: Commit)
    requires Publishable(env, store, hist, c) && c.revision == |hist| + 1
    ensures HonestAt(env, hist + [c], |hist| + 1) && Held(env, store, hist, Refs(c.frontier))
  {
    WholePrefix(hist);
    hide HonestAt, Held, Refs;
    assert c.revision - 1 == |hist|;
  }

  lemma WholePrefix(hist: seq<Commit>)
    ensures hist[..|hist|] == hist
  {
  }

  lemma IntactExtends(env: Env, store: Store, hist: seq<Commit>, c: Commit)
    requires Intact(env, Reader(store), hist) && Held(env, store, hist, Refs(c.frontier))
    requires LogKey(|hist| + 1) in store && store[LogKey(|hist| + 1)] == EncodeCommit(c)
    ensures Intact(env, Reader(store), hist + [c])
  {
    var longer := hist + [c];
    hide IsTrue, TrueBody, Refs;
    forall r | 1 <= r <= |longer|
      ensures ServedAt(env, Reader(store), longer, r)
    {
      if r <= |hist| {
        assert ServedAt(env, Reader(store), hist, r);
        ServedGrows(env, Reader(store), hist, longer, Refs(hist[r - 1].frontier));
      } else {
        HeldServed(env, store, hist, Refs(c.frontier));
        ServedGrows(env, Reader(store), hist, longer, Refs(c.frontier));
      }
    }
  }

  lemma HeldServed(env: Env, store: Store, hist: seq<Commit>, refs: seq<ObjectRef>)
    requires Held(env, store, hist, refs)
    ensures AllServed(env, Reader(store), hist, refs)
    ensures AllTrue(env, hist, refs)
  {
    hide TrueRef, TrueBody, ValidRef;
    forall i | 0 <= i < |refs|
      ensures InLog(hist, refs[i].level, refs[i].start) && Serves(env, Reader(store), hist, refs[i])
      ensures IsTrue(env, hist, refs[i])
    {
      assert refs[i] in refs;
      assert Good(env, Reader(store), hist, refs[i]);
    }
  }

  lemma ServedGrows(env: Env, get: Getter, hist: seq<Commit>, longer: seq<Commit>, refs: seq<ObjectRef>)
    requires AllServed(env, get, hist, refs) && hist <= longer
    ensures AllServed(env, get, longer, refs)
  {
    hide TrueBody, TrueRef;
    forall i | 0 <= i < |refs|
      ensures InLog(longer, refs[i].level, refs[i].start) && Serves(env, get, longer, refs[i])
    {
      TruePrefix(env, hist, longer, refs[i].level, refs[i].start);
    }
  }

  lemma KeysExtend(env: Env, store: Store, hist: seq<Commit>, c: Commit)
    requires KeysOK(env, store, hist)
    ensures KeysOK(env, store[LogKey(|hist| + 1) := EncodeCommit(c)], hist + [c])
  {
    hide TrueObject;
    forall k | k in store && TrueObject(env, hist, k, store[k])
      ensures TrueObject(env, hist + [c], k, store[k])
    {
      TrueObjectGrows(env, hist, hist + [c], k, store[k]);
    }
    assert forall k :: k in store && k.LogKey? ==> !TrueObject(env, hist, k, store[k]) by {
      forall k | k in store && k.LogKey? ensures !TrueObject(env, hist, k, store[k]) { LogKeyIsNoSegment(env, hist, k, store[k]); }
    }
  }

  lemma LogKeyIsNoSegment(env: Env, hist: seq<Commit>, k: Key, b: Body)
    ensures k.LogKey? ==> !TrueObject(env, hist, k, b)
  {
  }

  // ---- The log below a base ----

  lemma TrueRestrict(env: Env, hist: seq<Commit>, n: nat, x: ObjectRef)
    requires IsTrue(env, hist, x) && x.end <= n <= |hist|
    ensures IsTrue(env, hist[..n], x)
    ensures TrueBody(hist[..n], x.level, x.start) == TrueBody(hist, x.level, x.start)
  {
    TrueBounds(env, hist, x);
    hide ValidRef, TrueRef, TrueBody;
    TruePrefix(env, hist[..n], hist, x.level, x.start);
  }

  lemma HeldRestrict(env: Env, store: Store, hist: seq<Commit>, n: nat, refs: seq<ObjectRef>)
    requires n <= |hist|
    requires forall x :: x in refs ==> Good(env, Reader(store), hist, x) && x.end <= n
    ensures Held(env, store, hist[..n], refs)
  {
    forall x | x in refs
      ensures Good(env, Reader(store), hist[..n], x)
    {
      TrueRestrict(env, hist, n, x);
      hide IsTrue, TrueBody;
    }
  }

  /** References of a commit are to the log before it. */
  lemma RootRefs(env: Env, store: Store, hist: seq<Commit>, r: int)
    requires World(env, Reader(store), hist) && 1 <= r <= |hist|
    ensures Held(env, store, hist[..r - 1], Refs(hist[r - 1].frontier))
    ensures Held(env, store, hist[..r], Refs(hist[r - 1].frontier))
  {
    hide *;
    var refs := Refs(hist[r - 1].frontier);
    FrontierGood(env, Reader(store), hist, r);
    RootWalk(env, Reader(store), hist, r);
    GoodValid(env, Reader(store), hist, refs);
    WalkForward(refs, 1, ZERO_HASH);
    HeldRestrict(env, store, hist, r - 1, refs);
    HeldRestrict(env, store, hist, r, refs);
  }

  lemma GoodValid(env: Env, get: Getter, hist: seq<Commit>, refs: seq<ObjectRef>)
    requires forall x :: x in refs ==> Good(env, get, hist, x)
    ensures forall x :: x in refs ==> ValidRef(x)
  {
    hide ValidRef, TrueRef, Serves;
  }

  lemma WorldPrefix(env: Env, store: Store, hist: seq<Commit>, n: nat)
    requires World(env, Reader(store), hist) && n <= |hist|
    ensures World(env, Reader(store), hist[..n])
  {
    var part := hist[..n];
    forall r | 1 <= r <= n
      ensures HonestAt(env, part, r) && ServedAt(env, Reader(store), part, r)
    {
      RootRefs(env, store, hist, r);
      assert HonestAt(env, hist, r) && ServedAt(env, Reader(store), hist, r);
      hide ValidCommit, Refs, TrueBody, IsTrue;
      HeldServed(env, store, hist[..r - 1], Refs(hist[r - 1].frontier));
      AllTruePrefix(env, hist[..r - 1], part, Refs(hist[r - 1].frontier));
      ServedGrows(env, Reader(store), hist[..r - 1], part, Refs(hist[r - 1].frontier));
    }
  }
}
