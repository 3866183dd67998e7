/**
 One writer's own steps: what each makes true of what it holds, creates and publishes.
 In particular no check a writer makes on objects of the protocol ever fails.
 */
module ProtocolSteps {
  import opened Wrappers
  import opened Radix
  import opened Wire
  import opened Carry
  import opened Segment
  import opened History
  import opened ScanIntact
  import opened Protocol
  import opened ProtocolSafe
  import Frontier

  /** Carries, seen from the log up to the base alone. */
  ghost predicate CarryIn(env: Env, store: Store, log: seq<Commit>, base: Snapshot, lv: Levels, ref: ObjectRef, level: nat) {
    var h := base.commit.revision;
    && World(env, Reader(store), log)
    && 1 <= h == |log| && base == Snapshot(log[h - 1], EncodeCommit(log[h - 1]))
    && CarryInv(lv, ref, level, h, HashAt(log, h))
    && Held(env, store, log, Flat(lv, 16) + [ref])
  }

  lemma CarriesLog(env: Env, store: Store, hist: seq<Commit>, base: Snapshot, lv: Levels, ref: ObjectRef, level: nat)
    requires StoreOK(env, store, hist) && Carries(env, store, hist, base, lv, ref, level)
    ensures CarryIn(env, store, hist[..base.commit.revision], base, lv, ref, level)
  {
    hide CarryInv, Held, KeysOK;
    WorldPrefix(env, store, hist, base.commit.revision);
    hide Honest, Intact;
  }

  lemma LogCarries(env: Env, store: Store, hist: seq<Commit>, base: Snapshot, lv: Levels, ref: ObjectRef, level: nat)
    requires base.commit.revision >= 0 && base.commit.revision <= |hist|
    requires CarryIn(env, store, hist[..base.commit.revision], base, lv, ref, level)
    ensures Carries(env, store, hist, base, lv, ref, level)
  {
    hide CarryInv, Held, World;
  }

  // ---- Building the commit ----

  lemma HashLength(env: Env, hist: seq<Commit>, h: int)
    requires Honest(env, hist) && 0 <= h <= |hist|
    ensures |HashAt(hist, h)| == 32
  {
    if h > 0 {
      assert HonestAt(env, hist, h);
    }
  }

  /** The commit of this revision is ready to be published, unless the caller's codec refuses
      the batch. */
  predicate Built(env: Env, pc: Pc, event: Bytes, revision: int) {
    if env.decodable(event) then pc.Publish? && pc.commit.revision == revision && pc.commit.event == event
    else pc == Failed(Callback)
  }

  /** An accepted frontier of held references makes a publishable commit. */
  lemma BuildOK(env: Env, store: Store, hist: seq<Commit>, h: nat, id: Bytes, event: Bytes, frontier: seq<FrontierLevel>)
    requires ValidEnv(env) && Prepared(env, id, event)
    requires h <= |hist| && h < MAX_REVISION && World(env, Reader(store), hist[..h])
    requires FrontierOK(frontier, h + 1, HashAt(hist[..h], h)) && Held(env, store, hist[..h], Refs(frontier))
    ensures PcOK(env, store, hist, id, Build(env, id, event, if h == 0 then None else Some(hist[h - 1]), frontier))
    ensures
      var pc := Build(env, id, event, if h == 0 then None else Some(hist[h - 1]), frontier);
      Built(env, pc, event, h + 1) && (pc.Publish? || pc.Failed?)
  {
    hide *;
    var log := hist[..h];
    var c := NewCommit(env, hist, h, id, event, frontier);
    BuildForm(env, store, hist, h, id, event, frontier);
    NewCommitFields(env, hist, h, id, event, frontier);
    if env.decodable(event) {
      HeldServed(env, store, log, Refs(frontier));
      AllTruePrefix(env, log, log + [c], Refs(frontier));
      NewCommitHonest(env, log, c);
    }
    PublishOK(env, store, hist, c, id, event);
    BuiltForm(env, c, event);
  }

  lemma BuiltForm(env: Env, c: Commit, event: Bytes)
    requires c.event == event
    ensures Built(env, if env.decodable(event) then Publish(c) else Failed(Callback), event, c.revision)
  {
  }

  /** The commit appendPrepared encodes on top of revision h. */
  function NewCommit(env: Env, hist: seq<Commit>, h: nat, id: Bytes, event: Bytes, frontier: seq<FrontierLevel>): Commit
    requires h <= |hist|
  {
    var prev := HashAt(hist[..h], h);
    Commit(COMMIT_FORMAT, h + 1, id, if h == 0 then None else Some(Previous(LogKey(h), prev)), event,
           RecordHash(env, h + 1, id, prev, event), frontier)
  }

  lemma NewCommitFields(env: Env, hist: seq<Commit>, h: nat, id: Bytes, event: Bytes, frontier: seq<FrontierLevel>)
    requires h <= |hist|
    ensures
      var c := NewCommit(env, hist, h, id, event, frontier);
      c.revision == h + 1 && c.commitId == id && c.event == event && c.frontier == frontier &&
      PrevHash(c) == HashAt(hist[..h], h) && |hist[..h]| == h
  {
  }

  lemma BuildForm(env: Env, store: Store, hist: seq<Commit>, h: nat, id: Bytes, event: Bytes, frontier: seq<FrontierLevel>)
    requires ValidEnv(env) && Prepared(env, id, event)
    requires h <= |hist| && h < MAX_REVISION && World(env, Reader(store), hist[..h])
    requires FrontierOK(frontier, h + 1, HashAt(hist[..h], h))
    ensures
      var c := NewCommit(env, hist, h, id, event, frontier);
      ValidCommit(env, h + 1, c) &&
      Build(env, id, event, if h == 0 then None else Some(hist[h - 1]), frontier)
      == if env.decodable(event) then Publish(c) else Failed(Callback)
  {
    hide World, FrontierOK;
    WorldHonest(env, Reader(store), hist[..h]);
    HashLength(env, hist[..h], h);
    if h > 0 {
      RootRevision(env, Reader(store), hist[..h], h);
    }
    var prev := HashAt(hist[..h], h);
    CommitValid(env, id, event, h + 1, if h == 0 then None else Some(Previous(LogKey(h), prev)), frontier);
    hide ValidCommit;
  }

  lemma PublishOK(env: Env, store: Store, hist: seq<Commit>, c: Commit, id: Bytes, event: Bytes)
    requires c.commitId == id && c.event == event && 1 <= c.revision <= |hist| + 1
    requires env.decodable(event) ==> HonestAt(env, hist[..c.revision - 1] + [c], c.revision)
    requires Held(env, store, hist[..c.revision - 1], Refs(c.frontier))
    ensures PcOK(env, store, hist, id, if env.decodable(event) then Publish(c) else Failed(Callback))
  {
    hide HonestAt, Held, Refs;
  }

  lemma CommitValid(env: Env, id: Bytes, event: Bytes, revision: int, previous: Option<Previous>, frontier: seq<FrontierLevel>)
    requires ValidEnv(env) && Prepared(env, id, event) && ValidRevision(revision)
    requires if revision == 1 then previous.None? else previous.Some? && previous.value.key == LogKey(revision - 1)
    requires previous.Some? ==> |previous.value.recordHash| == 32
    requires FrontierOK(frontier, revision, if previous.Some? then previous.value.recordHash else ZERO_HASH)
    ensures
      var prev := if previous.Some? then previous.value.recordHash else ZERO_HASH;
      ValidCommit(env, revision, Commit(COMMIT_FORMAT, revision, id, previous, event, RecordHash(env, revision, id, prev, event), frontier))
  {
    hide FrontierOK, Preimage;
  }

  lemma NewCommitHonest(env: Env, log: seq<Commit>, c: Commit)
    requires ValidCommit(env, |log| + 1, c) && PrevHash(c) == HashAt(log, |log|) && env.decodable(c.event)
    requires AllTrue(env, log + [c], Refs(c.frontier))
    ensures HonestAt(env, log + [c], |log| + 1)
  {
    hide ValidCommit, AllTrue, Refs;
  }

  lemma FirstOK(env: Env, store: Store, hist: seq<Commit>, id: Bytes, event: Bytes)
    requires ValidEnv(env) && Prepared(env, id, event) && World(env, Reader(store), hist)
    ensures PcOK(env, store, hist, id, Enter(env, id, event, None))
    ensures var pc := Enter(env, id, event, None); Built(env, pc, event, 1) && (pc.Publish? || pc.Failed?)
  {
    hide *;
    EmptyFrontier();
    EmptyHeld(env, store, hist[..0]);
    WorldPrefix(env, store, hist, 0);
    EnterNone(env, id, event);
    ZeroBelow(hist[..0]);
    BuildOK(env, store, hist, 0, id, event, []);
  }

  lemma EnterNone(env: Env, id: Bytes, event: Bytes)
    ensures Enter(env, id, event, None) == Build(env, id, event, None, [])
  {
  }

  lemma ZeroBelow(hist: seq<Commit>)
    ensures HashAt(hist, 0) == ZERO_HASH && 0 < MAX_REVISION
  {
  }

  lemma EmptyHeld(env: Env, store: Store, hist: seq<Commit>)
    ensures Held(env, store, hist, [])
  {
  }

  // ---- Starting from a root ----

  /** Every root of the log can be loaded. */
  lemma RootLoads(env: Env, store: Store, hist: seq<Commit>, h: int, missing: Error)
    requires World(env, Reader(store), hist) && 1 <= h <= |hist|
    ensures LoadRoot(env, store, h, missing) == Ok(Snapshot(hist[h - 1], EncodeCommit(hist[h - 1])))
  {
    CommitServed(env, Reader(store), hist, h);
    assert HonestAt(env, hist, h);
    hide World, ValidCommit, AllTrue, DecodeCommit;
  }

  lemma EnterOK(env: Env, store: Store, hist: seq<Commit>, h: int, id: Bytes, event: Bytes)
    requires ValidEnv(env) && World(env, Reader(store), hist) && 1 <= h <= |hist|
    ensures PcOK(env, store, hist, id, Enter(env, id, event, Some(Snapshot(hist[h - 1], EncodeCommit(hist[h - 1])))))
    ensures
      var pc := Enter(env, id, event, Some(Snapshot(hist[h - 1], EncodeCommit(hist[h - 1]))));
      if h == MAX_REVISION then pc == Failed(Exhausted) else pc.Carrying? && pc.base.commit.revision == h && pc.level == 0
  {
    hide *;
    var c, log := hist[h - 1], hist[..h];
    var base := Snapshot(c, EncodeCommit(c));
    var ref, lv := CommitRef(env, c, EncodeCommit(c)), Spread(c.frontier);
    EnterForm(env, store, hist, id, event, base);
    RootFacts(env, store, hist, h);
    if h != MAX_REVISION {
      WorldPrefix(env, store, hist, h);
      HeadRefGood(env, store, hist, h);
      RootRefs(env, store, hist, h);
      RefsAreFlat(c.frontier, 16);
      CarryStart(c.frontier, ref);
      HeldAppend(env, store, log, Flat(lv, 16), ref);
      CarryBegins(env, store, hist, id, h, lv, ref);
    }
  }

  lemma EnterForm(env: Env, store: Store, hist: seq<Commit>, id: Bytes, event: Bytes, base: Snapshot)
    ensures Enter(env, id, event, Some(base)) ==
            if base.commit.revision == MAX_REVISION then Failed(Exhausted)
            else Carrying(base, Spread(base.commit.frontier), CommitRef(env, base.commit, base.body), 0)
    ensures PcOK(env, store, hist, id, Failed(Exhausted))
  {
    hide Spread;
  }

  lemma CarryBegins(env: Env, store: Store, hist: seq<Commit>, id: Bytes, h: int, lv: Levels, ref: ObjectRef)
    requires 1 <= h <= |hist| && hist[h - 1].revision == h
    requires CarryInv(lv, ref, 0, h, HashAt(hist, h)) && Held(env, store, hist[..h], Flat(lv, 16) + [ref])
    ensures PcOK(env, store, hist, id, Carrying(Snapshot(hist[h - 1], EncodeCommit(hist[h - 1])), lv, ref, 0))
  {
    hide CarryInv, Held;
  }

  /** What carry needs to know of the root it starts from. */
  lemma RootFacts(env: Env, store: Store, hist: seq<Commit>, h: int)
    requires ValidEnv(env) && World(env, Reader(store), hist) && 1 <= h <= |hist|
    ensures
      var c := hist[h - 1];
      var ref := CommitRef(env, c, EncodeCommit(c));
      c.revision == h <= MAX_REVISION && ValidRef(ref) && ref.level == 0 && ref.start == h &&
      FrontierOK(c.frontier, h, ref.firstPrevHash) && ref.lastRecordHash == HashAt(hist, h) &&
      CanonicalLevels(c.frontier) && (forall i :: 0 <= i < |c.frontier| ==> c.frontier[i].level < 16)
  {
    hide *;
    RootRevision(env, Reader(store), hist, h);
    RootCommit(env, store, hist, h);
    CommitRefOK(env, hist[h - 1], h);
    RefFields(env, hist[h - 1], h);
  }

  lemma RootCommit(env: Env, store: Store, hist: seq<Commit>, h: int)
    requires World(env, Reader(store), hist) && 1 <= h <= |hist|
    ensures ValidCommit(env, h, hist[h - 1]) && hist[h - 1].recordHash == HashAt(hist, h)
  {
    assert HonestAt(env, hist, h);
    hide ValidCommit, AllTrue;
  }

  lemma RefFields(env: Env, c: Commit, h: int)
    requires FrontierOK(c.frontier, h, PrevHash(c)) && c.revision == h
    ensures
      var ref := CommitRef(env, c, EncodeCommit(c));
      ref.level == 0 && ref.start == h <= MAX_REVISION && ref.firstPrevHash == PrevHash(c) && ref.lastRecordHash == c.recordHash
    ensures CanonicalLevels(c.frontier) && (forall i :: 0 <= i < |c.frontier| ==> c.frontier[i].level < 16)
  {
    hide LevelsOK;
  }

  lemma HeldAppend(env: Env, store: Store, hist: seq<Commit>, refs: seq<ObjectRef>, x: ObjectRef)
    requires Held(env, store, hist, refs) && Good(env, Reader(store), hist, x)
    ensures Held(env, store, hist, refs + [x])
  {
    hide Good;
  }

  /** The level-0 reference carry starts from is true of the log up to its commit. */
  lemma HeadRefGood(env: Env, store: Store, hist: seq<Commit>, h: int)
    requires ValidEnv(env) && World(env, Reader(store), hist) && 1 <= h <= |hist|
    ensures Good(env, Reader(store), hist[..h], CommitRef(env, hist[h - 1], EncodeCommit(hist[h - 1])))
  {
    var c := hist[h - 1];
    assert HonestAt(env, hist, h) && ServedAt(env, Reader(store), hist, h);
    hide FrontierOK, ValidProjection, AllTrue, AllServed, World;
    CommitRefOK(env, c, h);
    assert hist[..h][h - 1] == c;
    assert HashAt(hist[..h], h - 1) == HashAt(hist, h - 1);
  }

  lemma CommitRefOK(env: Env, c: Commit, h: int)
    requires ValidEnv(env) && ValidCommit(env, h, c)
    ensures ValidRef(CommitRef(env, c, EncodeCommit(c))) && c.revision == h
  {
    CommitRefValid(env, c, EncodeCommit(c));
  }

  // ---- The carry loop ----

  lemma CarryInLevel(env: Env, store: Store, log: seq<Commit>, base: Snapshot, lv: Levels, ref: ObjectRef, level: nat)
    requires CarryIn(env, store, log, base, lv, ref, level)
    ensures level <= 13 && |lv[level]| <= 15 && |log| < MAX_REVISION
    ensures CarryInv(lv, ref, level, |log|, HashAt(log, |log|)) && World(env, Reader(store), log)
    ensures Held(env, store, log, Flat(lv, 16) + [ref]) && |log| >= 1
    ensures Full(|log| - 1, level) && Digit(|log| - 1, level) == |lv[level]|
  {
    hide World, Held, CarryInv;
    CarryLevelBound(lv, ref, level, |log|, HashAt(log, |log|));
    CarriedLevel(lv, ref, level, |log|, HashAt(log, |log|));
  }

  lemma CarriedLevel(lv: Levels, ref: ObjectRef, level: nat, revision: int, recordHash: Bytes)
    requires CarryInv(lv, ref, level, revision, recordHash) && level <= 13
    ensures 1 <= revision < MAX_REVISION && Full(revision - 1, level) && Digit(revision - 1, level) == |lv[level]| <= 15
  {
    assert LevelOK(lv[level], level, revision - 1);
    hide Full, Walk, ValidRef;
  }

  /** A carry that finds room builds the commit; otherwise it starts to pack. */
  lemma CarryStepOK(env: Env, store: Store, hist: seq<Commit>, id: Bytes, event: Bytes, base: Snapshot, lv: Levels, ref: ObjectRef, level: nat)
    requires ValidEnv(env) && Prepared(env, id, event)
    requires StoreOK(env, store, hist) && Carries(env, store, hist, base, lv, ref, level)
    ensures PcOK(env, store, hist, id, NextCarry(env, id, event, base, lv, ref, level))
    ensures
      var pc := NextCarry(env, id, event, base, lv, ref, level);
      level <= 13 &&
      if |lv[level]| < 15 then Built(env, pc, event, base.commit.revision + 1) && (pc.Publish? || pc.Failed?)
      else pc == Packing(base, lv, ref, level, [], 0)
  {
    hide *;
    BaseFacts(env, store, hist, base, lv, ref, level);
    var h := base.commit.revision;
    var log := hist[..h];
    CarriesLog(env, store, hist, base, lv, ref, level);
    CarryInLevel(env, store, log, base, lv, ref, level);
    CarriedForm(env, id, event, base, lv, ref, level);
    if |lv[level]| < 15 {
      CarryStop(lv, ref, level, h, HashAt(log, h));
      ValidSuccessor(h);
      GatherFrontier(Push(lv, level, ref), h + 1, HashAt(log, h));
      PushFlat(lv, ref, level, h, HashAt(log, h));
      BuildOK(env, store, hist, h, id, event, Frontier.Gather(Push(lv, level, ref), 16));
    } else {
      NeedsSegment(env, store, hist, base, lv, ref, level);
      PackingStarts(env, store, hist, id, base, lv, ref, level);
    }
  }

  lemma NeedsSegment(env: Env, store: Store, hist: seq<Commit>, base: Snapshot, lv: Levels, ref: ObjectRef, level: nat)
    requires Carries(env, store, hist, base, lv, ref, level) && level < 16 && |lv[level]| == 15
    ensures Packs16(env, store, hist, base, lv, ref, level)
  {
  }

  lemma BaseFacts(env: Env, store: Store, hist: seq<Commit>, base: Snapshot, lv: Levels, ref: ObjectRef, level: nat)
    requires Carries(env, store, hist, base, lv, ref, level)
    ensures 1 <= base.commit.revision <= |hist| && base.commit == hist[base.commit.revision - 1]
    ensures |hist[..base.commit.revision]| == base.commit.revision
  {
    hide CarryInv, Held;
  }

  lemma CarriedForm(env: Env, id: Bytes, event: Bytes, base: Snapshot, lv: Levels, ref: ObjectRef, level: nat)
    requires level <= 13 && |lv[level]| <= 15
    ensures NextCarry(env, id, event, base, lv, ref, level) ==
            if |lv[level]| < 15 then Build(env, id, event, Some(base.commit), Frontier.Gather(Push(lv, level, ref), 16))
            else Packing(base, lv, ref, level, [], 0)
  {
    hide Build, Frontier.Gather;
  }

  lemma PushFlat(lv: Levels, ref: ObjectRef, level: nat, revision: int, recordHash: Bytes)
    requires CarryInv(lv, ref, level, revision, recordHash) && level < 16
    ensures Flat(Push(lv, level, ref), 16) == Flat(lv, 16) + [ref]
  {
    hide ValidRef, Walk, Flat, LevelOK;
    FlatAppend(lv, level, lv[level], [ref], 16);
    assert lv[level := lv[level]] == lv;
  }

  /** The sixteen children are held, valid, of one level, and adjacent up to the base. */
  lemma ChildrenOK(env: Env, store: Store, log: seq<Commit>, base: Snapshot, lv: Levels, ref: ObjectRef, level: nat) returns (next: int, chain: Bytes)
    requires CarryIn(env, store, log, base, lv, ref, level) && level < 16 && |lv[level]| == 15
    ensures
      var children := Children(lv, ref, level);
      |children| == 16 && Walk(children, next, chain) == Some((|log| + 1, HashAt(log, |log|))) &&
      (forall i :: 0 <= i < 16 ==> ValidRef(children[i]) && children[i].level == level) &&
      Held(env, store, log, children)
    ensures Held(env, store, log, Flat(lv[level := []], 16))
  {
    hide *;
    CarryInLevel(env, store, log, base, lv, ref, level);
    var rest, children := Flat(lv[level := []], 16), Children(lv, ref, level);
    ChildrenSplit(lv, ref, level, |log|, HashAt(log, |log|));
    WalkConcat(rest, children, 1, ZERO_HASH);
    HeldSplit(env, store, log, rest, children);
    next, chain := Walk(rest, 1, ZERO_HASH).value.0, Walk(rest, 1, ZERO_HASH).value.1;
  }

  lemma ChildrenSplit(lv: Levels, ref: ObjectRef, level: nat, revision: int, recordHash: Bytes)
    requires CarryInv(lv, ref, level, revision, recordHash) && level < 16 && |lv[level]| == 15
    ensures Flat(lv, 16) + [ref] == Flat(lv[level := []], 16) + Children(lv, ref, level)
    ensures Walk(Flat(lv[level := []], 16) + Children(lv, ref, level), 1, ZERO_HASH) == Some((revision + 1, recordHash))
    ensures |Children(lv, ref, level)| == 16
    ensures forall i :: 0 <= i < 16 ==> ValidRef(Children(lv, ref, level)[i]) && Children(lv, ref, level)[i].level == level
  {
    hide ValidRef, Walk, Flat;
    assert LevelOK(lv[level], level, revision - 1);
    FlatAppend(lv, level, [], lv[level], 16);
    assert [] + lv[level] == lv[level] && lv[level := lv[level]] == lv;
    assert Flat(lv, 16) + [ref] == Flat(lv[level := []], 16) + Children(lv, ref, level);
  }

  lemma HeldSplit(env: Env, store: Store, hist: seq<Commit>, a: seq<ObjectRef>, b: seq<ObjectRef>)
    requires Held(env, store, hist, a + b)
    ensures Held(env, store, hist, a) && Held(env, store, hist, b)
  {
    hide Good;
  }

  /** Where the children's block lies. */
  lemma ChildrenBlock(env: Env, store: Store, log: seq<Commit>, base: Snapshot, lv: Levels, ref: ObjectRef, level: nat) returns (next: int, chain: Bytes)
    requires CarryIn(env, store, log, base, lv, ref, level) && level < 16 && |lv[level]| == 15
    ensures
      var children := Children(lv, ref, level);
      |children| == 16 && level <= 13 && Walk(children, next, chain) == Some((|log| + 1, HashAt(log, |log|))) &&
      (forall i :: 0 <= i < 16 ==> ValidRef(children[i]) && children[i].level == level) &&
      Held(env, store, log, children) && World(env, Reader(store), log) &&
      1 <= next == children[0].start <= |log| && chain == children[0].firstPrevHash && children[15].end == |log| &&
      children[15].end == next + Pow16(level + 1) - 1 && Aligned(next - 1, level + 1)
  {
    hide *;
    next, chain := ChildrenOK(env, store, log, base, lv, ref, level);
    CarryInLevel(env, store, log, base, lv, ref, level);
    var children := Children(lv, ref, level);
    SixteenBlocks(children, next, chain);
    HeldBounds(env, store, log, children, 0);
    HeldBounds(env, store, log, children, 15);
    FullExtend(|log| - 1, level);
    BlockStart(|log| - 1, level + 1, next - 1);
  }

  lemma HeldBounds(env: Env, store: Store, log: seq<Commit>, refs: seq<ObjectRef>, i: nat)
    requires Held(env, store, log, refs) && i < |refs|
    ensures 1 <= refs[i].start <= refs[i].end <= |log| && IsTrue(env, log, refs[i])
    ensures Serves(env, Reader(store), log, refs[i])
  {
    assert refs[i] in refs && Good(env, Reader(store), log, refs[i]);
    hide IsTrue, Serves;
    GoodBounds(env, Reader(store), log, refs[i]);
  }

  lemma BlockStart(n: nat, k: nat, s: nat)
    requires Full(n, k) && n + 1 == s + Pow16(k)
    ensures Aligned(s, k)
  {
    FullSuccessor(n, k);
    assert s == Top(n, k);
    TopAligned(n, k);
  }

  lemma PackingStarts(env: Env, store: Store, hist: seq<Commit>, id: Bytes, base: Snapshot, lv: Levels, ref: ObjectRef, level: nat)
    requires StoreOK(env, store, hist) && Packs16(env, store, hist, base, lv, ref, level)
    ensures PcOK(env, store, hist, id, Packing(base, lv, ref, level, [], 0))
  {
    hide *;
    PackBase(env, store, hist, base, lv, ref, level);
    var log := hist[..base.commit.revision];
    CarriesLog(env, store, hist, base, lv, ref, level);
    var next, chain := ChildrenBlock(env, store, log, base, lv, ref, level);
    StartLoaded(log, Children(lv, ref, level));
    PackingForm(env, store, hist, id, base, lv, ref, level, [], 0);
  }

  lemma PackBase(env: Env, store: Store, hist: seq<Commit>, base: Snapshot, lv: Levels, ref: ObjectRef, level: nat)
    requires Packs16(env, store, hist, base, lv, ref, level)
    ensures 1 <= base.commit.revision <= |hist| && |hist[..base.commit.revision]| == base.commit.revision
    ensures Carries(env, store, hist, base, lv, ref, level) && level < 16 && |lv[level]| == 15
    ensures |Children(lv, ref, level)| == 16
    ensures base == Snapshot(hist[..base.commit.revision][base.commit.revision - 1], EncodeCommit(hist[..base.commit.revision][base.commit.revision - 1]))
  {
    hide CarryInv, Held;
  }

  lemma StartLoaded(log: seq<Commit>, children: seq<ObjectRef>)
    requires children != [] && 1 <= children[0].start <= |log|
    ensures LoadedTo(log, children, 0) == Some([])
  {
    RecsEmpty(log, children[0].start);
  }

  lemma PackingForm(env: Env, store: Store, hist: seq<Commit>, id: Bytes, base: Snapshot, lv: Levels, ref: ObjectRef, level: nat, loaded: seq<Projection>, n: nat)
    requires Packs16(env, store, hist, base, lv, ref, level) && n <= 16
    requires 0 <= base.commit.revision <= |hist|
    requires LoadedTo(hist[..base.commit.revision], Children(lv, ref, level), n) == Some(loaded)
    ensures PcOK(env, store, hist, id, Packing(base, lv, ref, level, loaded, n))
  {
    hide Carries, LoadedTo;
  }

  // ---- Packing ----

  lemma {:induction false} WalkAdjacent(refs: seq<ObjectRef>, next: int, chain: Bytes, i: nat)
    requires Walk(refs, next, chain).Some? && i + 1 < |refs|
    ensures refs[i + 1].start == refs[i].end + 1
  {
    if i > 0 {
      WalkAdjacent(refs[1..], refs[0].end + 1, refs[0].lastRecordHash, i - 1);
    }
  }

  /** Any reader that serves a true reference makes it load. */
  lemma ChildLoads(env: Env, store: Store, log: seq<Commit>, base: Snapshot, refs: seq<ObjectRef>, i: nat)
    requires World(env, Reader(store), log) && Held(env, store, log, refs) && i < |refs|
    requires 1 <= base.commit.revision == |log| && base == Snapshot(log[|log| - 1], EncodeCommit(log[|log| - 1]))
    ensures 1 <= refs[i].start <= refs[i].end <= |log|
    ensures LoadRecords(env, Reader(store), Some(base), refs[i]) == Ok(Recs(log, refs[i].start, refs[i].end))
  {
    assert TrueCache(log, Some(base));
    hide *;
    WorldHonest(env, Reader(store), log);
    HeldBounds(env, store, log, refs, i);
    LoadTrue(env, Reader(store), Some(base), log, refs[i]);
  }

  /** The records of child n continue those loaded before it. */
  lemma NextChild(env: Env, store: Store, log: seq<Commit>, base: Snapshot, children: seq<ObjectRef>, loaded: seq<Projection>, n: nat) returns (part: seq<Projection>)
    requires n < |children| && World(env, Reader(store), log) && Held(env, store, log, children)
    requires 1 <= base.commit.revision == |log| && base == Snapshot(log[|log| - 1], EncodeCommit(log[|log| - 1]))
    requires 1 <= children[0].start <= children[n].start <= children[n].end <= |log|
    requires n > 0 ==> children[n].start == children[n - 1].end + 1
    requires children[0].firstPrevHash == HashAt(log, children[0].start - 1)
    requires LoadedTo(log, children, n) == Some(loaded)
    ensures LoadRecords(env, Reader(store), Some(base), children[n]) == Ok(part)
    ensures Adjacent(part, children[0].start + |loaded|, LastHash(loaded, children[0].firstPrevHash))
    ensures LoadedTo(log, children, n + 1) == Some(loaded + part)
  {
    hide *;
    ChildLoads(env, store, log, base, children, n);
    LoadedSplit(log, children, loaded, n);
    WorldHonest(env, Reader(store), log);
    RecsContinue(env, log, children[0].start, children[n].start, children[n].end);
    part := Recs(log, children[n].start, children[n].end);
  }

  lemma CarryInBase(env: Env, store: Store, log: seq<Commit>, base: Snapshot, lv: Levels, ref: ObjectRef, level: nat)
    requires CarryIn(env, store, log, base, lv, ref, level)
    ensures 1 <= base.commit.revision == |log| && base == Snapshot(log[|log| - 1], EncodeCommit(log[|log| - 1]))
  {
    hide CarryInv, Held, World;
  }

  /** Child n lies after the first and starts where child n - 1 ends. */
  lemma ChildPlace(env: Env, store: Store, log: seq<Commit>, base: Snapshot, lv: Levels, ref: ObjectRef, level: nat, n: nat)
    requires CarryIn(env, store, log, base, lv, ref, level) && level < 16 && |lv[level]| == 15 && n < 16
    ensures
      var children := Children(lv, ref, level);
      |children| == 16 && Held(env, store, log, children) && World(env, Reader(store), log) && Honest(env, log) &&
      1 <= children[0].start <= children[n].start <= children[n].end <= |log| &&
      (n > 0 ==> children[n].start == children[n - 1].end + 1) &&
      children[0].firstPrevHash == HashAt(log, children[0].start - 1)
  {
    hide *;
    var children := Children(lv, ref, level);
    var next, chain := ChildrenBlock(env, store, log, base, lv, ref, level);
    WorldHonest(env, Reader(store), log);
    if n > 0 {
      WalkAdjacent(children, next, chain, n - 1);
    }
    StartsBefore(children, next, chain, n);
    HeldBounds(env, store, log, children, 0);
    HeldBounds(env, store, log, children, n);
    TrueBounds(env, log, children[0]);
  }

  lemma StartsBefore(children: seq<ObjectRef>, next: int, chain: Bytes, n: nat)
    requires Walk(children, next, chain).Some? && n < |children| && children[0].start == next
    requires forall i :: 0 <= i < |children| ==> ValidRef(children[i])
    ensures children[0].start <= children[n].start
  {
    assert forall r :: r in children ==> ValidRef(r);
    hide ValidRef;
    WalkForward(children, next, chain);
  }

  lemma LoadedSplit(log: seq<Commit>, children: seq<ObjectRef>, loaded: seq<Projection>, n: nat)
    requires n < |children| && LoadedTo(log, children, n) == Some(loaded)
    requires 1 <= children[0].start <= children[n].start <= children[n].end <= |log|
    requires n > 0 ==> children[n].start == children[n - 1].end + 1
    ensures loaded == Recs(log, children[0].start, children[n].start - 1)
    ensures LoadedTo(log, children, n + 1) == Some(Recs(log, children[0].start, children[n].end))
  {
    hide Recs;
  }

  lemma RecsContinue(env: Env, log: seq<Commit>, s: int, m: int, e: int)
    requires Honest(env, log) && 1 <= s <= m <= e <= |log|
    ensures |Recs(log, s, m - 1)| == m - s
    ensures Adjacent(Recs(log, m, e), m, LastHash(Recs(log, s, m - 1), HashAt(log, s - 1)))
    ensures Recs(log, s, m - 1) + Recs(log, m, e) == Recs(log, s, e)
  {
    hide *;
    RecsLength(log, s, m - 1);
    RecsLinked(env, log, s, m - 1);
    RecsLinked(env, log, m, e);
    RecsConcat(log, s, m - 1, e);
  }

  lemma RecsLinked(env: Env, log: seq<Commit>, s: int, e: int)
    requires Honest(env, log) && 1 <= s <= e + 1 <= |log| + 1
    ensures Adjacent(Recs(log, s, e), s, HashAt(log, s - 1))
    ensures LastHash(Recs(log, s, e), HashAt(log, s - 1)) == HashAt(log, e)
  {
    hide Honest, Recs, AllValid, Adjacent, LastHash;
    RecsChained(env, log, s, e);
  }

  lemma RecsLength(log: seq<Commit>, s: int, e: int)
    requires 1 <= s <= e + 1 <= |log| + 1
    ensures |Recs(log, s, e)| == e - s + 1
  {
  }

  /** After the last child the segment is the true one. */
  lemma SegmentMade(env: Env, store: Store, log: seq<Commit>, base: Snapshot, lv: Levels, ref: ObjectRef, level: nat, loaded: seq<Projection>)
    requires ValidEnv(env)
    requires CarryIn(env, store, log, base, lv, ref, level) && level < 16 && |lv[level]| == 15
    requires LoadedTo(log, Children(lv, ref, level), 16) == Some(loaded)
    ensures
      var children := Children(lv, ref, level);
      children[0].start >= 0 && children[15].end >= 0 && Packable(env, children, loaded) &&
      var segment := SegmentRef(env, children, loaded);
      Segmented(env, log, children, level, segment) && InLog(log, segment.level, segment.start) &&
      EncodeSegment(segment.level, segment.start, segment.end, loaded) == TrueBody(log, segment.level, segment.start)
  {
    CarryInBase(env, store, log, base, lv, ref, level);
    hide *;
    var children := Children(lv, ref, level);
    var next, chain := ChildrenBlock(env, store, log, base, lv, ref, level);
    var load: ObjectRef -> Result<seq<Projection>> := x => LoadRecords(env, Reader(store), Some(base), x);
    ChildrenLoad(env, store, log, base, children, load, next, chain);
    AllLoaded(log, children, loaded);
    PackedSegment(env, load, children, next, chain);
    WorldHonest(env, Reader(store), log);
    HeldServed(env, store, log, children);
    PackTrue(env, log, children);
    SegmentTrue(env, log, children, loaded);
  }

  lemma AllLoaded(log: seq<Commit>, children: seq<ObjectRef>, loaded: seq<Projection>)
    requires |children| == 16 && LoadedTo(log, children, 16) == Some(loaded)
    requires 1 <= children[0].start && children[15].end == |log|
    ensures children[0].start <= |log| + 1 && loaded == Recs(log, children[0].start, |log|)
  {
  }

  lemma ChildrenLoad(env: Env, store: Store, log: seq<Commit>, base: Snapshot, children: seq<ObjectRef>, load: ObjectRef -> Result<seq<Projection>>, next: int, chain: Bytes)
    requires World(env, Reader(store), log) && Held(env, store, log, children)
    requires 1 <= base.commit.revision == |log| && base == Snapshot(log[|log| - 1], EncodeCommit(log[|log| - 1]))
    requires forall x :: load(x) == LoadRecords(env, Reader(store), Some(base), x)
    requires Walk(children, next, chain) == Some((|log| + 1, HashAt(log, |log|))) && 1 <= next <= |log|
    ensures LoadAll(load, children) == Some(Recs(log, next, |log|)) && LoadsRecords(env, load, children)
  {
    hide Walk, World, Held, LoadRecords, Recs, RecordsFor, ValidRef;
    forall i | 0 <= i < |children|
      ensures LoadsTrue(load, log, children[i])
    {
      ChildLoads(env, store, log, base, children, i);
    }
    forall x | x in children && load(x).Ok?
      ensures RecordsFor(env, x, load(x).value)
    {
      LoadedRecords(env, Reader(store), Some(base), x);
    }
    hide LoadsTrue, LoadAll;
    LoadAllTrue(load, log, children, next, chain);
  }

  lemma SegmentTrue(env: Env, log: seq<Commit>, children: seq<ObjectRef>, ps: seq<Projection>)
    requires |children| == 16 && children[0].start > 0 && children[15].end > 0
    requires Packable(env, children, ps) && Aggregates(SegmentRef(env, children, ps), children)
    requires InLog(log, children[0].level + 1, children[0].start)
    requires SegmentRef(env, children, ps) == TrueRef(env, log, children[0].level + 1, children[0].start)
    ensures Segmented(env, log, children, children[0].level, SegmentRef(env, children, ps))
  {
    hide ValidRef, Adjacent, TrueBody;
  }

  /** One child more, or after the sixteenth the finished segment; the carry stays where it was. */
  predicate PacksOn(pc: Pc, next: Pc)
    requires pc.Packing?
  {
    if pc.n < 16 then next.Packing? && next == pc.(loaded := next.loaded, n := pc.n + 1)
    else next.SegmentCreate? && (next.base, next.lv, next.ref, next.level) == (pc.base, pc.lv, pc.ref, pc.level)
  }

  lemma PackStepOK(env: Env, store: Store, hist: seq<Commit>, id: Bytes, pc: Pc)
    requires ValidEnv(env) && StoreOK(env, store, hist) && pc.Packing? && PcOK(env, store, hist, id, pc)
    ensures pc.level < 16 && |Children(pc.lv, pc.ref, pc.level)| == 16
    ensures PcOK(env, store, hist, id, NextPack(env, store, pc))
    ensures
      var next := NextPack(env, store, pc);
      PacksOn(pc, next) && (next.Packing? || next.SegmentCreate?)
  {
    hide *;
    PackingFacts(env, store, hist, id, pc);
    if pc.n < 16 {
      PackNextOK(env, store, hist, id, pc);
    } else {
      PackBase(env, store, hist, pc.base, pc.lv, pc.ref, pc.level);
      CarriesLog(env, store, hist, pc.base, pc.lv, pc.ref, pc.level);
      SegmentMade(env, store, hist[..pc.base.commit.revision], pc.base, pc.lv, pc.ref, pc.level, pc.loaded);
      SegmentForm(env, store, hist, id, pc);
    }
  }

  /** Packing does not read the root it builds on back from the store. */
  lemma PackNeedsNoBase(env: Env, store: Store, other: Store, pc: Pc)
    requires pc.Packing? && pc.level < 16 && |Children(pc.lv, pc.ref, pc.level)| == 16
    requires forall k :: k != LogKey(pc.base.commit.revision) ==> Reader(store)(k) == Reader(other)(k)
    ensures NextPack(env, store, pc) == NextPack(env, other, pc)
  {
    if pc.n < 16 {
      SameChild(env, store, other, pc.base, Children(pc.lv, pc.ref, pc.level)[pc.n]);
    }
    hide LoadRecords, Packable, Adjacent, SegmentRef;
  }

  lemma SameChild(env: Env, store: Store, other: Store, base: Snapshot, child: ObjectRef)
    requires forall k :: k != LogKey(base.commit.revision) ==> Reader(store)(k) == Reader(other)(k)
    ensures LoadRecords(env, Reader(store), Some(base), child) == LoadRecords(env, Reader(other), Some(base), child)
  {
    hide DecodeSegment, DecodeCommit, Aligned, Pow16;
  }

  lemma PackNextOK(env: Env, store: Store, hist: seq<Commit>, id: Bytes, pc: Pc)
    requires ValidEnv(env) && StoreOK(env, store, hist) && pc.Packing? && PcOK(env, store, hist, id, pc) && pc.n < 16
    ensures pc.level < 16 && |Children(pc.lv, pc.ref, pc.level)| == 16
    ensures PcOK(env, store, hist, id, NextPack(env, store, pc))
    ensures var next := NextPack(env, store, pc); PacksOn(pc, next) && next.Packing?
  {
    hide *;
    PackingFacts(env, store, hist, id, pc);
    PackBase(env, store, hist, pc.base, pc.lv, pc.ref, pc.level);
    CarriesLog(env, store, hist, pc.base, pc.lv, pc.ref, pc.level);
    var log := hist[..pc.base.commit.revision];
    CarryInBase(env, store, log, pc.base, pc.lv, pc.ref, pc.level);
    ChildPlace(env, store, log, pc.base, pc.lv, pc.ref, pc.level, pc.n);
    var part := NextChild(env, store, log, pc.base, Children(pc.lv, pc.ref, pc.level), pc.loaded, pc.n);
    LoadForm(env, store, pc, part);
    OneChild(pc, part);
    PackingForm(env, store, hist, id, pc.base, pc.lv, pc.ref, pc.level, pc.loaded + part, pc.n + 1);
  }

  lemma OneChild(pc: Pc, part: seq<Projection>)
    requires pc.Packing? && pc.n < 16
    ensures PacksOn(pc, Packing(pc.base, pc.lv, pc.ref, pc.level, pc.loaded + part, pc.n + 1))
  {
  }

  lemma PackingFacts(env: Env, store: Store, hist: seq<Commit>, id: Bytes, pc: Pc)
    requires pc.Packing? && PcOK(env, store, hist, id, pc)
    ensures Packs16(env, store, hist, pc.base, pc.lv, pc.ref, pc.level) && pc.n <= 16
    ensures pc.level < 16 && |Children(pc.lv, pc.ref, pc.level)| == 16
    ensures 0 <= pc.base.commit.revision <= |hist|
    ensures LoadedTo(hist[..pc.base.commit.revision], Children(pc.lv, pc.ref, pc.level), pc.n) == Some(pc.loaded)
  {
    hide CarryInv, Held, LoadedTo;
  }

  lemma LoadForm(env: Env, store: Store, pc: Pc, part: seq<Projection>)
    requires pc.Packing? && pc.level < 16 && |Children(pc.lv, pc.ref, pc.level)| == 16 && pc.n < 16
    requires LoadRecords(env, Reader(store), Some(pc.base), Children(pc.lv, pc.ref, pc.level)[pc.n]) == Ok(part)
    requires
      var first := Children(pc.lv, pc.ref, pc.level)[0];
      Adjacent(part, first.start + |pc.loaded|, LastHash(pc.loaded, first.firstPrevHash))
    ensures NextPack(env, store, pc) == Packing(pc.base, pc.lv, pc.ref, pc.level, pc.loaded + part, pc.n + 1)
  {
    hide LoadRecords, Adjacent, LastHash;
  }

  lemma SegmentForm(env: Env, store: Store, hist: seq<Commit>, id: Bytes, pc: Pc)
    requires pc.Packing? && Packs16(env, store, hist, pc.base, pc.lv, pc.ref, pc.level) && pc.n == 16
    requires 0 <= pc.base.commit.revision <= |hist|
    requires |Children(pc.lv, pc.ref, pc.level)| == 16
    requires
      var log, children := hist[..pc.base.commit.revision], Children(pc.lv, pc.ref, pc.level);
      children[0].start >= 0 && children[15].end >= 0 && Packable(env, children, pc.loaded) &&
      var segment := SegmentRef(env, children, pc.loaded);
      Segmented(env, log, children, pc.level, segment) && InLog(log, segment.level, segment.start) &&
      EncodeSegment(segment.level, segment.start, segment.end, pc.loaded) == TrueBody(log, segment.level, segment.start)
    ensures PcOK(env, store, hist, id, NextPack(env, store, pc)) && NextPack(env, store, pc).SegmentCreate?
    ensures PacksOn(pc, NextPack(env, store, pc))
  {
    hide Carries, Packable, Segmented, SegmentRef, EncodeSegment, TrueBody, LoadRecords;
  }

  // ---- Creating the segment ----

  /** The true segment over a base's log is the true segment of the whole log. */
  lemma SegmentObject(env: Env, hist: seq<Commit>, n: nat, children: seq<ObjectRef>, level: nat, segment: ObjectRef)
    requires n <= |hist| && children != [] && Segmented(env, hist[..n], children, level, segment)
    ensures InLog(hist[..n], segment.level, segment.start)
    ensures TrueObject(env, hist, segment.key, TrueBody(hist[..n], segment.level, segment.start))
    ensures segment.key == TreeKey(segment.level, segment.start, segment.end, segment.sha256)
  {
    hide ValidRef, TrueBody;
    TruePrefix(env, hist[..n], hist, segment.level, segment.start);
  }

  /** Whatever is stored under the segment's key is that segment. */
  lemma StoredSegment(env: Env, store: Store, hist: seq<Commit>, n: nat, children: seq<ObjectRef>, level: nat, segment: ObjectRef)
    requires KeysOK(env, store, hist) && segment.key in store
    requires n <= |hist| && children != [] && Segmented(env, hist[..n], children, level, segment)
    ensures Good(env, Reader(store), hist[..n], segment)
  {
    SegmentObject(env, hist, n, children, level, segment);
    assert TrueObject(env, hist, segment.key, store[segment.key]);
    TruePrefix(env, hist[..n], hist, segment.level, segment.start);
    hide ValidRef, TrueBody, TrueRef, Aggregates;
  }

  /** Once the segment is stored, the carry moves up one level. */
  lemma CarryMoves(env: Env, store: Store, hist: seq<Commit>, base: Snapshot, lv: Levels, ref: ObjectRef, level: nat, segment: ObjectRef)
    requires level < 16 && 0 <= base.commit.revision <= |hist| && segment.key in store
    requires Segmented(env, hist[..base.commit.revision], Children(lv, ref, level), level, segment)
    requires StoreOK(env, store, hist) && Packs16(env, store, hist, base, lv, ref, level)
    ensures Carries(env, store, hist, base, lv[level := []], segment, level + 1)
  {
    hide *;
    PackBase(env, store, hist, base, lv, ref, level);
    var h, log := base.commit.revision, hist[..base.commit.revision];
    CarriesLog(env, store, hist, base, lv, ref, level);
    StoreKeys(env, store, hist);
    StoredSegment(env, store, hist, h, Children(lv, ref, level), level, segment);
    CarryInLevel(env, store, log, base, lv, ref, level);
    var next, chain := ChildrenOK(env, store, log, base, lv, ref, level);
    SegmentedRef(env, log, lv, ref, level, segment);
    CarryOn(lv, ref, level, h, HashAt(log, h), segment);
    HeldAppend(env, store, log, Flat(lv[level := []], 16), segment);
    MakeCarryIn(env, store, log, base, lv[level := []], segment, level + 1);
    LogCarries(env, store, hist, base, lv[level := []], segment, level + 1);
  }

  lemma StoreKeys(env: Env, store: Store, hist: seq<Commit>)
    requires StoreOK(env, store, hist)
    ensures KeysOK(env, store, hist) && World(env, Reader(store), hist)
  {
    hide KeysOK, Honest, Intact;
  }

  lemma SegmentedRef(env: Env, log: seq<Commit>, lv: Levels, ref: ObjectRef, level: nat, segment: ObjectRef)
    requires level < 16 && Segmented(env, log, Children(lv, ref, level), level, segment)
    ensures ValidRef(segment) && Aggregates(segment, lv[level] + [ref])
  {
    hide ValidRef, TrueRef;
  }

  lemma MakeCarryIn(env: Env, store: Store, log: seq<Commit>, base: Snapshot, lv: Levels, ref: ObjectRef, level: nat)
    requires World(env, Reader(store), log)
    requires 1 <= base.commit.revision == |log| && base == Snapshot(log[|log| - 1], EncodeCommit(log[|log| - 1]))
    requires CarryInv(lv, ref, level, |log|, HashAt(log, |log|)) && Held(env, store, log, Flat(lv, 16) + [ref])
    ensures CarryIn(env, store, log, base, lv, ref, level)
  {
    hide CarryInv, Held, World;
  }

  /** Creating a segment whose key is free. */
  lemma SegmentCreated(env: Env, store: Store, hist: seq<Commit>, id: Bytes, pc: Pc)
    requires StoreOK(env, store, hist) && pc.SegmentCreate? && PcOK(env, store, hist, id, pc)
    requires pc.segment.key !in store
    ensures pc.level < 16 && TrueObject(env, hist, pc.segment.key, pc.body)
    ensures StoreOK(env, store[pc.segment.key := pc.body], hist)
    ensures PcOK(env, store[pc.segment.key := pc.body], hist, id, CarryOver(pc))
  {
    hide *;
    SegmentFacts(env, store, hist, id, pc);
    var more := store[pc.segment.key := pc.body];
    GrowsByOne(store, pc.segment.key, pc.body);
    SegmentLands(env, store, hist, pc.segment.key, pc.body);
    CarriesGrows(env, store, more, hist, hist, pc.base, pc.lv, pc.ref, pc.level);
    NeedsSegment(env, more, hist, pc.base, pc.lv, pc.ref, pc.level);
    CarryMoves(env, more, hist, pc.base, pc.lv, pc.ref, pc.level, pc.segment);
    CarryOverForm(env, more, hist, id, pc);
  }

  lemma SegmentFacts(env: Env, store: Store, hist: seq<Commit>, id: Bytes, pc: Pc)
    requires (pc.SegmentCreate? || pc.SegmentCheck?) && PcOK(env, store, hist, id, pc)
    ensures pc.level < 16 && |pc.lv[pc.level]| == 15 && Carries(env, store, hist, pc.base, pc.lv, pc.ref, pc.level)
    ensures |Children(pc.lv, pc.ref, pc.level)| == 16
    ensures Packs16(env, store, hist, pc.base, pc.lv, pc.ref, pc.level)
    ensures 0 <= pc.base.commit.revision <= |hist|
    ensures Segmented(env, hist[..pc.base.commit.revision], Children(pc.lv, pc.ref, pc.level), pc.level, pc.segment)
    ensures pc.SegmentCreate? ==> TrueObject(env, hist, pc.segment.key, pc.body)
    ensures pc.SegmentCheck? && pc.existed ==> pc.segment.key in store
  {
    hide CarryInv, Held, TrueObject, Segmented;
    SegmentObject(env, hist, pc.base.commit.revision, Children(pc.lv, pc.ref, pc.level), pc.level, pc.segment);
  }

  lemma CarryOverForm(env: Env, store: Store, hist: seq<Commit>, id: Bytes, pc: Pc)
    requires (pc.SegmentCreate? || pc.SegmentCheck?) && pc.level < 16
    requires Carries(env, store, hist, pc.base, pc.lv[pc.level := []], pc.segment, pc.level + 1)
    ensures PcOK(env, store, hist, id, CarryOver(pc))
  {
    hide Carries;
  }

  lemma SegmentCheckedOK(env: Env, store: Store, hist: seq<Commit>, id: Bytes, pc: Pc)
    requires StoreOK(env, store, hist) && pc.SegmentCheck? && PcOK(env, store, hist, id, pc)
    ensures pc.level < 16 && PcOK(env, store, hist, id, SegmentChecked(env, store, pc))
    ensures SegmentChecked(env, store, pc) == if pc.segment.key in store then CarryOver(pc) else Failed(Io)
  {
    hide *;
    SegmentFacts(env, store, hist, id, pc);
    StoreKeys(env, store, hist);
    if pc.segment.key in store {
      var h := pc.base.commit.revision;
      StoredSegment(env, store, hist, h, Children(pc.lv, pc.ref, pc.level), pc.level, pc.segment);
      WorldPrefix(env, store, hist, h);
      WorldHonest(env, Reader(store), hist[..h]);
      GoodDecodes(env, store, hist[..h], pc.level, pc.segment, Children(pc.lv, pc.ref, pc.level));
      CarryMoves(env, store, hist, pc.base, pc.lv, pc.ref, pc.level, pc.segment);
      CarryOverForm(env, store, hist, id, pc);
      CheckedForm(env, store, pc);
    } else {
      MissingForm(env, store, hist, id, pc);
    }
  }

  lemma GoodDecodes(env: Env, store: Store, log: seq<Commit>, level: nat, segment: ObjectRef, children: seq<ObjectRef>)
    requires Honest(env, log) && children != [] && Segmented(env, log, children, level, segment)
    requires Good(env, Reader(store), log, segment)
    ensures segment.key in store && DecodeSegment(env, segment, store[segment.key]).Ok?
  {
    hide Honest, ValidRef, TrueRef, DecodeSegment, TrueBody;
    LoadTrue(env, Reader(store), None, log, segment);
  }

  lemma CheckedForm(env: Env, store: Store, pc: Pc)
    requires pc.SegmentCheck? && pc.level < 16 && pc.segment.key in store
    requires DecodeSegment(env, pc.segment, store[pc.segment.key]).Ok?
    ensures SegmentChecked(env, store, pc) == CarryOver(pc) && CarryOver(pc).Carrying?
  {
    hide DecodeSegment;
  }

  lemma MissingForm(env: Env, store: Store, hist: seq<Commit>, id: Bytes, pc: Pc)
    requires pc.SegmentCheck? && pc.level < 16 && pc.segment.key !in store && !pc.existed
    ensures SegmentChecked(env, store, pc) == Failed(Io) && PcOK(env, store, hist, id, Failed(Io))
  {
    hide DecodeSegment;
  }

  // ---- Publishing the commit ----

  /** Creating a commit whose key is free: it becomes the next of the log. */
  lemma CommitCreated(env: Env, store: Store, hist: seq<Commit>, c: Commit)
    requires StoreOK(env, store, hist) && Publishable(env, store, hist, c)
    requires LogKey(c.revision) !in store
    ensures c.revision == |hist| + 1
    ensures StoreOK(env, store[LogKey(c.revision) := EncodeCommit(c)], hist + [c])
  {
    hide *;
    PublishableRevision(env, store, hist, c);
    StoreKeys(env, store, hist);
    LogStored(env, store, hist);
    CommitLands(env, store, hist, c);
  }

  lemma LogStored(env: Env, store: Store, hist: seq<Commit>)
    requires World(env, Reader(store), hist)
    ensures forall r :: 1 <= r <= |hist| ==> LogKey(r) in store
  {
    forall r | 1 <= r <= |hist|
      ensures LogKey(r) in store
    {
      assert ServedAt(env, Reader(store), hist, r);
    }
  }

  lemma PublishableRevision(env: Env, store: Store, hist: seq<Commit>, c: Commit)
    requires Publishable(env, store, hist, c)
    ensures 1 <= c.revision <= |hist| + 1
  {
  }

  /** Looking at the attempted revision finds the invocation's own commit or another's. */
  lemma CommitCheckedOK(env: Env, store: Store, hist: seq<Commit>, id: Bytes, w: Writer)
    requires StoreOK(env, store, hist) && w.pc.Check? && PcOK(env, store, hist, id, w.pc)
    requires forall r :: At(hist, id, r) ==> hist[r - 1] == w.pc.commit
    ensures
      var c, w2 := w.pc.commit, CommitChecked(env, store, id, w);
      if LogKey(c.revision) !in store then w2 == w.(pc := Failed(Io))
      else 1 <= c.revision <= |hist| &&
           if hist[c.revision - 1].commitId == id then w2 == w.(pc := Done(c.revision))
           else w2 == (if w.retries > 0 then Writer(w.event, w.retries - 1, w.base, Listing) else w.(pc := Conflicted))
  {
    hide *;
    var c := w.pc.commit;
    CheckFacts(env, store, hist, id, w.pc);
    StoreKeys(env, store, hist);
    if LogKey(c.revision) in store {
      LogKeyInRange(env, store, hist, c.revision);
      RootLoads(env, store, hist, c.revision, if w.pc.existed then Corrupt else Io);
      if hist[c.revision - 1].commitId == id {
        AtHere(hist, id, c.revision);
      }
      FoundForm(env, store, hist, id, w);
    } else {
      AbsentForm(env, store, id, w);
    }
  }

  lemma CheckFacts(env: Env, store: Store, hist: seq<Commit>, id: Bytes, pc: Pc)
    requires pc.Check? && PcOK(env, store, hist, id, pc)
    ensures Publishable(env, store, hist, pc.commit) && pc.commit.commitId == id
    ensures 1 <= pc.commit.revision <= |hist| + 1
    ensures pc.existed ==> LogKey(pc.commit.revision) in store
  {
    hide HonestAt, Held;
  }

  lemma LogKeyInRange(env: Env, store: Store, hist: seq<Commit>, r: int)
    requires KeysOK(env, store, hist) && LogKey(r) in store
    ensures 1 <= r <= |hist|
  {
    hide ValidRef, TrueRef, TrueBody;
  }

  lemma AtHere(hist: seq<Commit>, id: Bytes, r: int)
    requires 1 <= r <= |hist| && hist[r - 1].commitId == id
    ensures At(hist, id, r)
  {
  }

  lemma FoundForm(env: Env, store: Store, hist: seq<Commit>, id: Bytes, w: Writer)
    requires w.pc.Check? && 1 <= w.pc.commit.revision <= |hist|
    requires LoadRoot(env, store, w.pc.commit.revision, if w.pc.existed then Corrupt else Io)
             == Ok(Snapshot(hist[w.pc.commit.revision - 1], EncodeCommit(hist[w.pc.commit.revision - 1])))
    requires hist[w.pc.commit.revision - 1].commitId == id ==> hist[w.pc.commit.revision - 1] == w.pc.commit
    ensures CommitChecked(env, store, id, w) ==
            if hist[w.pc.commit.revision - 1].commitId == id then w.(pc := Done(w.pc.commit.revision))
            else if w.retries > 0 then Writer(w.event, w.retries - 1, w.base, Listing) else w.(pc := Conflicted)
  {
    hide LoadRoot;
  }

  lemma AbsentForm(env: Env, store: Store, id: Bytes, w: Writer)
    requires w.pc.Check? && LogKey(w.pc.commit.revision) !in store && !w.pc.existed
    ensures CommitChecked(env, store, id, w) == w.(pc := Failed(Io))
  {
  }
}
