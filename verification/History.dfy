/**
 The log as the sequence of its commits, and what it means for references and stored
 objects to be true to it. hist[r - 1] is the commit of revision r.
 */
module History {
  import opened Wrappers
  import opened Radix
  import opened Wire
  import opened Segment

  function Records(hist: seq<Commit>): (ps: seq<Projection>)
    ensures |ps| == |hist|
    ensures forall i :: 0 <= i < |hist| ==> ps[i] == Project(hist[i])
  {
    seq(|hist|, i requires 0 <= i < |hist| => Project(hist[i]))
  }

  /** The records of revisions s..e. */
  function Recs(hist: seq<Commit>, s: int, e: int): seq<Projection>
    requires 1 <= s <= e + 1 <= |hist| + 1
  {
    Records(hist)[s - 1..e]
  }

  /** The record hash at a revision; the zero hash before the first. */
  function HashAt(hist: seq<Commit>, r: int): Bytes
    requires 0 <= r <= |hist|
  {
    if r == 0 then ZERO_HASH else hist[r - 1].recordHash
  }

  predicate InLog(hist: seq<Commit>, level: nat, start: int) {
    1 <= start && start + Pow16(level) - 1 <= |hist|
  }

  /** The object a protocol-conforming writer stores for a block of the log. */
  function TrueBody(hist: seq<Commit>, level: nat, start: int): Body
    requires InLog(hist, level, start)
  {
    var end := start + Pow16(level) - 1;
    if level == 0 then EncodeCommit(hist[start - 1]) else EncodeSegment(level, start, end, Recs(hist, start, end))
  }

  /** The one true reference to a block of the log. */
  function TrueRef(env: Env, hist: seq<Commit>, level: nat, start: int): ObjectRef
    requires InLog(hist, level, start)
  {
    var end := start + Pow16(level) - 1;
    var sha := env.digest(TrueBody(hist, level, start));
    ObjectRef(level, start, end, if level == 0 then LogKey(start) else TreeKey(level, start, end, sha), sha,
              HashAt(hist, start - 1), HashAt(hist, end))
  }

  predicate IsTrue(env: Env, hist: seq<Commit>, x: ObjectRef) {
    && ValidRef(x)
    && InLog(hist, x.level, x.start)
    && x == TrueRef(env, hist, x.level, x.start)
  }

  predicate AllTrue(env: Env, hist: seq<Commit>, refs: seq<ObjectRef>) {
    forall i :: 0 <= i < |refs| ==> IsTrue(env, hist, refs[i])
  }

  /** The commit of one revision is valid, names its predecessor's hash and refers to the
      true blocks before it. */
  predicate HonestAt(env: Env, hist: seq<Commit>, r: int)
    requires 1 <= r <= |hist|
  {
    var c := hist[r - 1];
    && ValidCommit(env, r, c)
    && PrevHash(c) == HashAt(hist, r - 1)
    && env.decodable(c.event)
    && AllTrue(env, hist, Refs(c.frontier))
  }

  ghost predicate Honest(env: Env, hist: seq<Commit>) {
    forall r :: 1 <= r <= |hist| ==> HonestAt(env, hist, r)
  }

  /** A getter that serves the true object of x. */
  predicate Serves(env: Env, get: Getter, hist: seq<Commit>, x: ObjectRef)
    requires InLog(hist, x.level, x.start)
  {
    get(x.key) == Ok(TrueBody(hist, x.level, x.start))
  }

  /** Every commit, and every object some commit's frontier refers to, can be fetched. */
  ghost predicate Intact(env: Env, get: Getter, hist: seq<Commit>) {
    forall r :: 1 <= r <= |hist| ==> ServedAt(env, get, hist, r)
  }

  predicate ServedAt(env: Env, get: Getter, hist: seq<Commit>, r: int)
    requires 1 <= r <= |hist|
  {
    get(LogKey(r)) == Ok(EncodeCommit(hist[r - 1])) && AllServed(env, get, hist, Refs(hist[r - 1].frontier))
  }

  predicate AllServed(env: Env, get: Getter, hist: seq<Commit>, refs: seq<ObjectRef>) {
    forall i :: 0 <= i < |refs| ==> InLog(hist, refs[i].level, refs[i].start) && Serves(env, get, hist, refs[i])
  }

  // ---- The record chain of an honest log ----

  lemma {:induction false} RecsChained(env: Env, hist: seq<Commit>, s: int, e: int)
    requires Honest(env, hist) && 1 <= s <= e + 1 <= |hist| + 1
    ensures Chained(env, Recs(hist, s, e), s, HashAt(hist, s - 1))
    ensures LastHash(Recs(hist, s, e), HashAt(hist, s - 1)) == HashAt(hist, e)
    decreases e - s + 1
  {
    hide *;
    if s <= e {
      RecsChained(env, hist, s + 1, e);
      FirstContinues(env, hist, s, e);
      ConsChain(env, Recs(hist, s, e), s, HashAt(hist, s - 1));
    } else {
      NoChain(env, hist, s);
    }
  }

  lemma NoChain(env: Env, hist: seq<Commit>, s: int)
    requires 1 <= s <= |hist| + 1
    ensures Chained(env, Recs(hist, s, s - 1), s, HashAt(hist, s - 1))
    ensures LastHash(Recs(hist, s, s - 1), HashAt(hist, s - 1)) == HashAt(hist, s - 1)
  {
  }

  /** The first record of a part of the log, and the part after it. */
  lemma FirstContinues(env: Env, hist: seq<Commit>, s: int, e: int)
    requires Honest(env, hist) && 1 <= s <= e <= |hist|
    ensures
      var ps := Recs(hist, s, e);
      ps != [] && ps[1..] == Recs(hist, s + 1, e) && ps[0].recordHash == HashAt(hist, s) && Continues(env, ps[0], s, HashAt(hist, s - 1))
  {
    assert HonestAt(env, hist, s);
    hide ValidProjection, FrontierOK, AllTrue;
  }

  lemma ConsChain(env: Env, ps: seq<Projection>, start: int, prev: Bytes)
    requires ps != [] && Continues(env, ps[0], start, prev)
    requires Chained(env, ps[1..], start + 1, ps[0].recordHash)
    ensures Chained(env, ps, start, prev)
    ensures LastHash(ps, prev) == LastHash(ps[1..], ps[0].recordHash)
  {
    forall i | 0 <= i < |ps|
      ensures ValidProjection(env, ps[i])
    {
      if i > 0 {
        assert ps[i] == ps[1..][i - 1];
      }
    }
  }

  lemma RecsConcat(hist: seq<Commit>, s: int, m: int, e: int)
    requires 1 <= s <= m + 1 <= e + 1 <= |hist| + 1
    ensures Recs(hist, s, m) + Recs(hist, m + 1, e) == Recs(hist, s, e)
  {
  }

  /** The records of a true block are what its reference claims. */
  lemma TrueRecords(env: Env, hist: seq<Commit>, x: ObjectRef)
    requires Honest(env, hist) && IsTrue(env, hist, x)
    ensures RecordsFor(env, x, Recs(hist, x.start, x.end))
  {
    hide ValidRef, Adjacent, AllValid, HonestAt, TrueBody;
    RecsChained(env, hist, x.start, x.end);
  }

  // ---- Extending the log ----

  lemma RecsPrefix(hist: seq<Commit>, more: seq<Commit>, s: int, e: int)
    requires 1 <= s <= e + 1 <= |hist| + 1 && hist <= more
    ensures Recs(more, s, e) == Recs(hist, s, e)
  {
  }

  /** Later commits do not change what is true of earlier blocks. */
  lemma TruePrefix(env: Env, hist: seq<Commit>, more: seq<Commit>, level: nat, start: int)
    requires InLog(hist, level, start) && hist <= more
    ensures InLog(more, level, start)
    ensures TrueBody(more, level, start) == TrueBody(hist, level, start)
    ensures TrueRef(env, more, level, start) == TrueRef(env, hist, level, start)
  {
    RecsPrefix(hist, more, start, start + Pow16(level) - 1);
  }

  lemma AllTruePrefix(env: Env, hist: seq<Commit>, more: seq<Commit>, refs: seq<ObjectRef>)
    requires AllTrue(env, hist, refs) && hist <= more
    ensures AllTrue(env, more, refs)
  {
    hide TrueRef, TrueBody, ValidRef;
    forall i | 0 <= i < |refs|
      ensures IsTrue(env, more, refs[i])
    {
      assert IsTrue(env, hist, refs[i]);
      TruePrefix(env, hist, more, refs[i].level, refs[i].start);
    }
  }

  lemma HonestExtend(env: Env, hist: seq<Commit>, c: Commit)
    requires Honest(env, hist) && HonestAt(env, hist + [c], |hist| + 1)
    ensures Honest(env, hist + [c])
  {
    hide ValidCommit, AllTrue;
    var more := hist + [c];
    forall r | 1 <= r <= |more|
      ensures HonestAt(env, more, r)
    {
      if r <= |hist| {
        assert HonestAt(env, hist, r);
        AllTruePrefix(env, hist, more, Refs(hist[r - 1].frontier));
      }
    }
  }

  // ---- Loading true references ----

  /** A cached root is one the log contains. */
  predicate TrueCache(hist: seq<Commit>, cached: Option<Snapshot>) {
    cached.Some? ==>
      var r := cached.value.commit.revision;
      1 <= r <= |hist| && cached.value == Snapshot(hist[r - 1], EncodeCommit(hist[r - 1]))
  }

  lemma LoadTrueCommit(env: Env, get: Getter, cached: Option<Snapshot>, hist: seq<Commit>, x: ObjectRef)
    requires Honest(env, hist) && IsTrue(env, hist, x) && x.level == 0 && TrueCache(hist, cached)
    requires Serves(env, get, hist, x)
    ensures LoadCommitRef(env, get, cached, x) == Ok(hist[x.start - 1])
    ensures LoadRecords(env, get, cached, x) == Ok(Recs(hist, x.start, x.end))
  {
    hide *;
    TrueCommit(env, get, cached, hist, x);
    CommitLoads(env, get, cached, x, hist[x.start - 1]);
    OneRecord(hist, x.start);
  }

  /** What a served true reference of level 0 leads to. */
  lemma TrueCommit(env: Env, get: Getter, cached: Option<Snapshot>, hist: seq<Commit>, x: ObjectRef)
    requires Honest(env, hist) && IsTrue(env, hist, x) && x.level == 0 && TrueCache(hist, cached) && Serves(env, get, hist, x)
    ensures 1 <= x.start == x.end <= |hist| && ValidRef(x) && x.key == LogKey(x.start)
    ensures
      var c := hist[x.start - 1];
      env.digest(EncodeCommit(c)) == x.sha256 && PrevHash(c) == x.firstPrevHash && c.recordHash == x.lastRecordHash &&
      DecodeCommit(env, x.key, EncodeCommit(c)) == Ok(c) &&
      (if cached.Some? && x.key == LogKey(cached.value.commit.revision) then cached.value.body == EncodeCommit(c)
       else get(x.key) == Ok(EncodeCommit(c)))
  {
    assert HonestAt(env, hist, x.start);
    hide ValidRef, AllTrue, ValidProjection, FrontierOK;
  }

  lemma CommitLoads(env: Env, get: Getter, cached: Option<Snapshot>, x: ObjectRef, c: Commit)
    requires ValidRef(x) && x.level == 0 && env.digest(EncodeCommit(c)) == x.sha256
    requires PrevHash(c) == x.firstPrevHash && c.recordHash == x.lastRecordHash && DecodeCommit(env, x.key, EncodeCommit(c)) == Ok(c)
    requires if cached.Some? && x.key == LogKey(cached.value.commit.revision) then cached.value.body == EncodeCommit(c)
             else get(x.key) == Ok(EncodeCommit(c))
    ensures LoadCommitRef(env, get, cached, x) == Ok(c) && LoadRecords(env, get, cached, x) == Ok([Project(c)])
  {
    hide ValidRef, DecodeCommit;
  }

  lemma OneRecord(hist: seq<Commit>, r: int)
    requires 1 <= r <= |hist|
    ensures Recs(hist, r, r) == [Project(hist[r - 1])]
  {
  }

  /** Loading a true reference from an intact store gives the log's own records. */
  lemma LoadTrue(env: Env, get: Getter, cached: Option<Snapshot>, hist: seq<Commit>, x: ObjectRef)
    requires Honest(env, hist) && IsTrue(env, hist, x) && TrueCache(hist, cached)
    requires Serves(env, get, hist, x)
    ensures LoadRecords(env, get, cached, x) == Ok(Recs(hist, x.start, x.end))
  {
    if x.level == 0 {
      hide *;
      LoadTrueCommit(env, get, cached, hist, x);
    } else {
      hide Honest, TrueCache, Recs, RecordsFor, DecodeSegment, EncodeSegment;
      TrueRecords(env, hist, x);
      EncodedSegmentDecodes(env, x, Recs(hist, x.start, x.end));
      hide ValidRef;
    }
  }

  // ---- Packing true references ----

  /** Packing sixteen true adjacent blocks yields the true reference to their union, so
      any two writers that pack them obtain the same reference and the same object. */
  lemma PackTrue(env: Env, hist: seq<Commit>, children: seq<ObjectRef>)
    requires Honest(env, hist) && |children| == 16 && AllTrue(env, hist, children)
    requires children[15].end == children[0].start + Pow16(children[0].level + 1) - 1
    ensures
      var level, s, e := children[0].level + 1, children[0].start, children[15].end;
      InLog(hist, level, s) &&
      SegmentRef(env, children, Recs(hist, s, e)) == TrueRef(env, hist, level, s) &&
      EncodeSegment(level, s, e, Recs(hist, s, e)) == TrueBody(hist, level, s)
  {
    hide *;
    FirstTrue(env, hist, children, 0);
    FirstTrue(env, hist, children, 15);
    EndHashes(env, hist, children[0]);
    EndHashes(env, hist, children[15]);
    PackForm(env, hist, children);
  }

  lemma FirstTrue(env: Env, hist: seq<Commit>, refs: seq<ObjectRef>, i: nat)
    requires AllTrue(env, hist, refs) && i < |refs|
    ensures IsTrue(env, hist, refs[i])
  {
    hide IsTrue;
  }

  lemma PackForm(env: Env, hist: seq<Commit>, children: seq<ObjectRef>)
    requires |children| == 16 && children[15].end == children[0].start + Pow16(children[0].level + 1) - 1
    requires 1 <= children[0].start <= children[15].end <= |hist|
    requires children[0].firstPrevHash == HashAt(hist, children[0].start - 1)
    requires children[15].lastRecordHash == HashAt(hist, children[15].end)
    ensures
      var level, s, e := children[0].level + 1, children[0].start, children[15].end;
      InLog(hist, level, s) &&
      SegmentRef(env, children, Recs(hist, s, e)) == TrueRef(env, hist, level, s) &&
      EncodeSegment(level, s, e, Recs(hist, s, e)) == TrueBody(hist, level, s)
  {
    hide HashAt, Recs, EncodeSegment, Pow16;
  }

  /** The boundary hashes of a true reference are the log's. */
  lemma EndHashes(env: Env, hist: seq<Commit>, x: ObjectRef)
    requires IsTrue(env, hist, x)
    ensures 1 <= x.start <= x.end <= |hist| && x.firstPrevHash == HashAt(hist, x.start - 1) && x.lastRecordHash == HashAt(hist, x.end)
  {
    hide TrueBody;
  }

  predicate LoadsTrue(load: ObjectRef -> Result<seq<Projection>>, hist: seq<Commit>, x: ObjectRef) {
    1 <= x.start <= x.end <= |hist| && load(x) == Ok(Recs(hist, x.start, x.end))
  }

  /** The records loaded from adjacent true blocks, concatenated. */
  lemma {:induction false} LoadAllTrue(load: ObjectRef -> Result<seq<Projection>>, hist: seq<Commit>, refs: seq<ObjectRef>, next: int, chain: Bytes)
    requires Walk(refs, next, chain).Some? && 1 <= next <= |hist| + 1
    requires forall x :: x in refs ==> LoadsTrue(load, hist, x)
    ensures next <= Walk(refs, next, chain).value.0 <= |hist| + 1
    ensures LoadAll(load, refs) == Some(Recs(hist, next, Walk(refs, next, chain).value.0 - 1))
  {
    if refs != [] {
      var front, last := refs[..|refs| - 1], refs[|refs| - 1];
      assert LoadsTrue(load, hist, last);
      assert refs == front + [last];
      WalkConcat(front, [last], next, chain);
      LoadAllTrue(load, hist, front, next, chain);
      WalkOne(last, Walk(front, next, chain).value);
      hide Walk, Records;
      RecsConcat(hist, next, last.start - 1, last.end);
    } else {
      assert Recs(hist, next, next - 1) == [];
    }
  }

  lemma WalkOne(x: ObjectRef, w: (int, Bytes))
    requires Walk([x], w.0, w.1).Some?
    ensures w == (x.start, x.firstPrevHash) && Walk([x], w.0, w.1) == Some((x.end + 1, x.lastRecordHash))
  {
    assert [x][1..] == [];
  }

  // ---- What a record hash determines ----

  /** A record hash fixes a commit: two objects that decode as commits with this hash are at
      the same key and agree in all but the references of their frontiers, and these have
      the same blocks. */
  lemma CommitsAgree(env: Env, k: Key, a: Body, l: Key, b: Body)
    requires DecodeCommit(env, k, a).Ok? && DecodeCommit(env, l, b).Ok?
    requires
      var c, d := DecodeCommit(env, k, a).value, DecodeCommit(env, l, b).value;
      c.recordHash == d.recordHash && Collisionless(env, [Project(c)])
    ensures
      var c, d := DecodeCommit(env, k, a).value, DecodeCommit(env, l, b).value;
      k == l == LogKey(c.revision) && d == c.(frontier := d.frontier) && c.format == "lokv/commit/v3" &&
      |Refs(c.frontier)| == |Refs(d.frontier)| &&
      forall i :: 0 <= i < |Refs(c.frontier)| ==>
        (Refs(c.frontier)[i].level, Refs(c.frontier)[i].start) == (Refs(d.frontier)[i].level, Refs(d.frontier)[i].start)
  {
    var c, d := DecodeCommit(env, k, a).value, DecodeCommit(env, l, b).value;
    var ps := [Project(c)];
    DecodedParts(env, k, a);
    DecodedParts(env, l, b);
    assert ps[0] == Project(c);
    hide FrontierOK, ValidProjection, DecodeCommit, Collisionless, Refs;
    HashDeterminesRecord(env, ps, 0, Project(d));
    Frontier.ShapeIsCanonical(c.frontier, d.frontier, c.revision, PrevHash(c), PrevHash(d));
  }

  lemma DecodedParts(env: Env, k: Key, a: Body)
    requires DecodeCommit(env, k, a).Ok?
    ensures
      var c := DecodeCommit(env, k, a).value;
      k == LogKey(c.revision) && c.format == "lokv/commit/v3" && ValidProjection(env, Project(c)) && AllValid(env, [Project(c)]) &&
      FrontierOK(c.frontier, c.revision, PrevHash(c)) &&
      if c.revision == 1 then c.previous.None? else c.previous.Some? && c.previous.value.key == LogKey(c.revision - 1)
  {
    hide FrontierOK, ValidProjection;
  }

  /** No bytes other than a record's own preimage have its hash. */
  ghost predicate Collisionless(env: Env, ps: seq<Projection>) {
    forall i, b :: 0 <= i < |ps| && ps[i].revision > 0 && env.sha(b) == ps[i].recordHash ==>
                     b == Preimage(ps[i].revision, ps[i].commitId, ps[i].previousRecordHash, ps[i].event)
  }

  /** Injective hashing implies the hypothesis for every valid record sequence. */
  lemma InjectiveIsCollisionless(env: Env, ps: seq<Projection>)
    requires forall a, b :: env.sha(a) == env.sha(b) ==> a == b
    requires AllValid(env, ps)
    ensures Collisionless(env, ps)
  {
    forall i, b | 0 <= i < |ps| && ps[i].revision > 0 && env.sha(b) == ps[i].recordHash
      ensures b == Preimage(ps[i].revision, ps[i].commitId, ps[i].previousRecordHash, ps[i].event)
    {
      assert ValidProjection(env, ps[i]);
    }
  }

  lemma HashDeterminesRecord(env: Env, ps: seq<Projection>, i: nat, q: Projection)
    requires Collisionless(env, ps) && AllValid(env, ps) && i < |ps|
    requires ValidProjection(env, q) && q.recordHash == ps[i].recordHash
    ensures q == ps[i]
  {
    var p := ps[i];
    assert ValidProjection(env, p);
    assert env.sha(Preimage(q.revision, q.commitId, q.previousRecordHash, q.event)) == p.recordHash;
    PreimageInjective(p.revision, p.commitId, p.previousRecordHash, p.event,
                      q.revision, q.commitId, q.previousRecordHash, q.event);
  }

  lemma {:induction false} ChainIndex(env: Env, ps: seq<Projection>, start: int, prev: Bytes, i: nat)
    requires Chained(env, ps, start, prev) && i < |ps|
    ensures ps[i].revision == start + i
    ensures ps[i].previousRecordHash == if i == 0 then prev else ps[i - 1].recordHash
  {
    if i > 0 {
      assert Chained(env, ps[1..], start + 1, ps[0].recordHash) by {
        assert ps == [ps[0]] + ps[1..];
        AllValidConcat(env, [ps[0]], ps[1..]);
      }
      ChainIndex(env, ps[1..], start + 1, ps[0].recordHash, i - 1);
    }
  }

  /** A chain of valid records that ends in the hash of ps[k] is the part of ps ending
      there: the last hash fixes every record back to the beginning of the chain. */
  lemma {:induction false} ChainEndsDetermine(env: Env, ps: seq<Projection>, start: int, prev: Bytes, qs: seq<Projection>, next: int, chain: Bytes, k: nat)
    requires Chained(env, ps, start, prev) && Collisionless(env, ps)
    requires Chained(env, qs, next, chain) && qs != [] && k < |ps|
    requires LastHash(qs, chain) == ps[k].recordHash && start <= next
    ensures next + |qs| - 1 == start + k
    ensures qs == ps[next - start..k + 1]
    ensures chain == if next == start then prev else ps[next - start - 1].recordHash
    decreases |qs|
  {
    var n := |qs| - 1;
    var front, q := qs[..n], qs[n];
    hide *;
    ChainParts(env, ps, start, prev, k);
    ChainParts(env, qs, next, chain, n);
    LastOf(qs, chain);
    HashDeterminesRecord(env, ps, k, q);
    SliceSnoc(qs, 0, n);
    SliceSnoc(ps, next - start, k);
    if n > 0 {
      LastOf(front, chain);
      ChainEndsDetermine(env, ps, start, prev, front, next, chain, k - 1);
    }
  }

  lemma SliceSnoc(ps: seq<Projection>, a: nat, k: nat)
    requires a <= k < |ps|
    ensures ps[a..k + 1] == ps[a..k] + [ps[k]]
    ensures a == 0 && k + 1 == |ps| ==> ps == ps[..k] + [ps[k]]
    ensures a == k ==> ps[a..k + 1] == [ps[k]]
    ensures a == 0 ==> ps[..k] == ps[a..k]
  {
  }

  lemma LastOf(ps: seq<Projection>, prev: Bytes)
    requires ps != []
    ensures LastHash(ps, prev) == ps[|ps| - 1].recordHash
  {
  }

  /** The k-th record of a chain, and the chain before it. */
  lemma ChainParts(env: Env, ps: seq<Projection>, start: int, prev: Bytes, k: nat)
    requires Chained(env, ps, start, prev) && k < |ps|
    ensures AllValid(env, ps) && ValidProjection(env, ps[k]) && ps[k].revision == start + k
    ensures ps[k].previousRecordHash == if k == 0 then prev else ps[k - 1].recordHash
    ensures Chained(env, ps[..k], start, prev)
  {
    ChainIndex(env, ps, start, prev, k);
    hide ValidProjection, Adjacent;
    assert ps == ps[..k] + ps[k..];
    ChainedConcat(env, ps[..k], ps[k..], start, prev);
  }
}
