/**
 Appending to the frontier: a base-16 increment. carry pushes the old head as a level-0
 reference and packs sixteen references of one level into a segment of the next.
 */
module Carry {
  import opened Wrappers
  import opened Radix
  import opened Wire
  import opened Frontier

  /** The outcome of packing sixteen children, as createSegment reports it. */
  type Packer = seq<ObjectRef> -> Option<ObjectRef>

  datatype Carried = Carried(levels: Levels, created: seq<ObjectRef>)

  /** The range and boundary hashes of a reference covering children. */
  predicate Aggregates(r: ObjectRef, children: seq<ObjectRef>)
    requires children != []
  {
    && r.level == children[0].level + 1
    && r.start == children[0].start && r.end == children[|children| - 1].end
    && r.firstPrevHash == children[0].firstPrevHash
    && r.lastRecordHash == children[|children| - 1].lastRecordHash
  }

  /** Every segment a packer reports is a valid reference for its children. */
  ghost predicate Packs(pack: Packer) {
    forall children :: |children| == 16 && pack(children).Some? ==>
                         ValidRef(pack(children).value) && Aggregates(pack(children).value, children)
  }

  function Push(lv: Levels, level: nat, ref: ObjectRef): Levels
    requires level < 16
  {
    lv[level := lv[level] + [ref]]
  }

  /** The carry loop from a given level on. */
  function CarryFrom(pack: Packer, lv: Levels, ref: ObjectRef, level: nat): Option<Carried>
    requires level <= 16
    decreases 16 - level
  {
    if level == 16 then Some(Carried(lv, []))
    else
      var pushed := Push(lv, level, ref);
      if |pushed[level]| < 16 then Some(Carried(pushed, []))
      else
        match pack(pushed[level])
        case None => None
        case Some(segment) =>
          match CarryFrom(pack, pushed[level := []], segment, level + 1)
          case None => None
          case Some(c) => Some(c.(created := [segment] + c.created))
  }

  /** carry: copies the frontier into a level array, increments it and collects the result. */
  method CarryLevels(pack: Packer, frontier: seq<FrontierLevel>, head: ObjectRef) returns (result: Option<seq<FrontierLevel>>)
    requires CanonicalLevels(frontier)
    ensures result == match CarryFrom(pack, Spread(frontier), head, 0)
                      case None => None
                      case Some(c) => Some(Gather(c.levels, 16))
  {
    var levels := new seq<ObjectRef>[16](_ => []);
    FillLevels(levels, frontier);
    var ok, _ := Increase(pack, levels, head);
    if !ok {
      return None;
    }
    var gathered := CollectLevels(levels);
    result := Some(gathered);
  }

  method FillLevels(levels: array<seq<ObjectRef>>, frontier: seq<FrontierLevel>)
    requires levels.Length == 16 && CanonicalLevels(frontier)
    requires forall i :: 0 <= i < 16 ==> levels[i] == []
    modifies levels
    ensures levels[..] == Spread(frontier)
  {
    for i := 0 to |frontier|
      invariant levels[..] == Spread(frontier[..i])
    {
      SpreadSnoc(frontier[..i], frontier[i]);
      assert frontier[..i + 1] == frontier[..i] + [frontier[i]];
      levels[frontier[i].level] := frontier[i].refs;
    }
    assert frontier[..|frontier|] == frontier;
  }

  /** The carry loop in place; also reports the segments it created. */
  method Increase(pack: Packer, levels: array<seq<ObjectRef>>, head: ObjectRef) returns (ok: bool, created: seq<ObjectRef>)
    requires levels.Length == 16
    modifies levels
    ensures ok == CarryFrom(pack, old(levels[..]), head, 0).Some?
    ensures ok ==> CarryFrom(pack, old(levels[..]), head, 0) == Some(Carried(levels[..], created))
  {
    var ref, level := head, 0;
    created := [];
    ghost var spec := CarryFrom(pack, levels[..], head, 0);
    assert spec.Some? ==> [] + spec.value.created == spec.value.created;
    while level < 16
      invariant 0 <= level <= 16
      invariant spec == Resume(created, CarryFrom(pack, levels[..], ref, level))
    {
      ghost var before: Levels := levels[..];
      levels[level] := levels[level] + [ref];
      assert levels[..] == Push(before, level, ref);
      if |levels[level]| < 16 {
        assert created + [] == created;
        return true, created;
      }
      var packed := pack(levels[level]);
      if packed.None? {
        return false, created;
      }
      ghost var pushed := levels[..];
      levels[level] := [];
      assert levels[..] == pushed[level := []];
      ResumeStep(created, packed.value, CarryFrom(pack, levels[..], packed.value, level + 1));
      created := created + [packed.value];
      ref, level := packed.value, level + 1;
    }
    assert created + [] == created;
    ok := true;
  }

  /** A carry result with the segments created before it. */
  ghost function Resume(created: seq<ObjectRef>, c: Option<Carried>): Option<Carried> {
    if c.None? then None else Some(Carried(c.value.levels, created + c.value.created))
  }

  lemma ResumeStep(created: seq<ObjectRef>, segment: ObjectRef, c: Option<Carried>)
    ensures Resume(created, if c.None? then None else Some(Carried(c.value.levels, [segment] + c.value.created)))
            == Resume(created + [segment], c)
  {
    if c.Some? {
      assert created + ([segment] + c.value.created) == created + [segment] + c.value.created;
    }
  }

  method CollectLevels(levels: array<seq<ObjectRef>>) returns (frontier: seq<FrontierLevel>)
    requires levels.Length == 16
    ensures frontier == Gather(levels[..], 16)
  {
    frontier := [];
    for k := 0 to 16
      invariant frontier == Gather(levels[..], k)
    {
      if |levels[k]| != 0 {
        frontier := frontier + [FrontierLevel(k, levels[k])];
      }
    }
  }

  // ---- Flat under pushes ----

  /** Adding at the end of a level whose smaller levels are empty adds at the very end. */
  lemma {:induction false} FlatAppend(lv: Levels, level: nat, x: seq<ObjectRef>, y: seq<ObjectRef>, k: nat)
    requires level < k <= 16 && forall i :: 0 <= i < level ==> lv[i] == []
    ensures Flat(lv[level := x + y], k) == Flat(lv[level := x], k) + y
  {
    if level == k - 1 {
      FlatEmpty(lv[level := x + y], level);
      FlatEmpty(lv[level := x], level);
    } else {
      FlatAppend(lv, level, x, y, k - 1);
    }
  }

  lemma {:induction false} FlatEmpty(lv: Levels, k: nat)
    requires k <= 16 && forall i :: 0 <= i < k ==> lv[i] == []
    ensures Flat(lv, k) == []
  {
    if k > 0 {
      FlatEmpty(lv, k - 1);
    }
  }

  /** The first commit has an empty frontier. */
  lemma EmptyFrontier()
    ensures FrontierOK([], 1, ZERO_HASH) && Refs([]) == []
  {
    var lv := Spread([]);
    forall level | 0 <= level < 16
      ensures LevelOK(lv[level], level, 0)
    {
      Pow16Monotone(0, level);
      TopZero(0, level);
    }
    FlatEmpty(lv, 16);
  }

  lemma {:induction false} WalkLast(refs: seq<ObjectRef>, next: int, chain: Bytes)
    requires refs != [] && Walk(refs, next, chain).Some?
    ensures refs[0].start == next && refs[0].firstPrevHash == chain
    ensures Walk(refs, next, chain) == Some((refs[|refs| - 1].end + 1, refs[|refs| - 1].lastRecordHash))
  {
    if |refs| > 1 {
      WalkLast(refs[1..], refs[0].end + 1, refs[0].lastRecordHash);
    }
  }

  /** A packed reference can stand for its children anywhere in the chain. */
  lemma WalkAggregate(a: seq<ObjectRef>, children: seq<ObjectRef>, r: ObjectRef, next: int, chain: Bytes)
    requires children != [] && Aggregates(r, children)
    requires Walk(a + children, next, chain).Some?
    ensures Walk(a + [r], next, chain) == Walk(a + children, next, chain)
  {
    WalkConcat(a, children, next, chain);
    WalkConcat(a, [r], next, chain);
    var w := Walk(a, next, chain).value;
    WalkLast(children, w.0, w.1);
  }

  // ---- The loop invariant ----

  /** Before pushing ref at a level: the smaller levels were full and are now empty, and
      what is stored followed by ref is the whole chain up to the old head. */
  ghost predicate CarryInv(lv: Levels, ref: ObjectRef, level: nat, revision: int, recordHash: Bytes) {
    && ValidRevision(revision) && revision < MAX_REVISION
    && Full(revision - 1, level)
    && (forall i :: 0 <= i < level && i < 16 ==> lv[i] == [])
    && (forall i :: level <= i < 16 ==> LevelOK(lv[i], i, revision - 1))
    && ValidRef(ref) && ref.level == level
    && Walk(Flat(lv, 16) + [ref], 1, ZERO_HASH) == Some((revision + 1, recordHash))
  }

  /** The level-0 reference of a commit. */
  function CommitRef(env: Env, c: Commit, body: Body): ObjectRef {
    ObjectRef(0, c.revision, c.revision, LogKey(c.revision), env.digest(body), PrevHash(c), c.recordHash)
  }

  /** The reference to a decoded commit is valid. */
  lemma CommitRefValid(env: Env, c: Commit, body: Body)
    requires ValidEnv(env) && ValidCommit(env, c.revision, c)
    ensures ValidRef(CommitRef(env, c, body))
  {
  }

  /** The loop starts with an accepted frontier and the reference to its own commit. */
  lemma CarryStart(f: seq<FrontierLevel>, head: ObjectRef)
    requires ValidRef(head) && head.level == 0 && head.start < MAX_REVISION
    requires FrontierOK(f, head.start, head.firstPrevHash)
    ensures CarryInv(Spread(f), head, 0, head.start, head.lastRecordHash)
  {
    hide Flat, CanonicalLevels, LevelOK, Spread;
    assert head.end == head.start;
    WalkConcat(Flat(Spread(f), 16), [head], 1, ZERO_HASH);
  }

  /** No carry ever leaves level 13. */
  lemma CarryLevelBound(lv: Levels, ref: ObjectRef, level: nat, revision: int, recordHash: Bytes)
    requires CarryInv(lv, ref, level, revision, recordHash)
    ensures level <= 13
  {
    FullSuccessor(revision - 1, level);
    RevisionRange();
    if level >= 14 {
      Pow16Monotone(14, level);
    }
  }

  /** A level with room absorbs the carry: the result is an accepted frontier. */
  lemma CarryStop(lv: Levels, ref: ObjectRef, level: nat, revision: int, recordHash: Bytes)
    requires CarryInv(lv, ref, level, revision, recordHash) && level < 16
    requires |lv[level]| + 1 < 16
    ensures LevelsOK(Push(lv, level, ref), revision + 1, recordHash)
  {
    hide ValidRef, Walk, Flat;
    var pushed := Push(lv, level, ref);
    assert LevelOK(lv[level], level, revision - 1);
    forall i | 0 <= i < 16
      ensures LevelOK(pushed[i], i, revision)
    {
      Increment(revision - 1, level, i);
      if i > level {
        assert LevelOK(lv[i], i, revision - 1);
      }
    }
    FlatAppend(lv, level, lv[level], [ref], 16);
    assert lv[level := lv[level]] == lv;
  }

  /** A full level is packed and its segment is carried on. */
  lemma CarryOn(lv: Levels, ref: ObjectRef, level: nat, revision: int, recordHash: Bytes, segment: ObjectRef)
    requires CarryInv(lv, ref, level, revision, recordHash) && level < 16
    requires |lv[level]| + 1 == 16
    requires ValidRef(segment) && Aggregates(segment, lv[level] + [ref])
    ensures CarryInv(lv[level := []], segment, level + 1, revision, recordHash)
  {
    hide ValidRef, Walk, Flat;
    assert LevelOK(lv[level], level, revision - 1);
    FullExtend(revision - 1, level);
    var children := lv[level] + [ref];
    FlatAppend(lv, level, [], lv[level], 16);
    assert [] + lv[level] == lv[level] && lv[level := lv[level]] == lv;
    assert Flat(lv, 16) + [ref] == Flat(lv[level := []], 16) + children;
    WalkAggregate(Flat(lv[level := []], 16), children, segment, 1, ZERO_HASH);
  }

  /** The whole loop: +1 in base 16 on an accepted frontier. */
  lemma {:induction false} CarryFromCorrect(pack: Packer, lv: Levels, ref: ObjectRef, level: nat, revision: int, recordHash: Bytes)
    requires Packs(pack) && level <= 16 && CarryInv(lv, ref, level, revision, recordHash)
    requires CarryFrom(pack, lv, ref, level).Some?
    ensures LevelsOK(CarryFrom(pack, lv, ref, level).value.levels, revision + 1, recordHash)
    ensures |Flat(CarryFrom(pack, lv, ref, level).value.levels, 16)| + 15 * |CarryFrom(pack, lv, ref, level).value.created|
            == |Flat(lv, 16)| + 1
    decreases 16 - level
  {
    CarryLevelBound(lv, ref, level, revision, recordHash);
    LevelLength(lv, ref, level, revision, recordHash);
    FlatPushed(lv, ref, level, revision, recordHash);
    CarryUnfold(pack, lv, ref, level);
    hide *;
    if |lv[level]| + 1 < 16 {
      CarryStop(lv, ref, level, revision, recordHash);
    } else {
      var segment := pack(lv[level] + [ref]).value;
      PacksOne(pack, lv[level] + [ref]);
      CarryOn(lv, ref, level, revision, recordHash, segment);
      CarryFromCorrect(pack, lv[level := []], segment, level + 1, revision, recordHash);
    }
  }

  lemma LevelLength(lv: Levels, ref: ObjectRef, level: nat, revision: int, recordHash: Bytes)
    requires CarryInv(lv, ref, level, revision, recordHash) && level < 16
    ensures |lv[level]| <= 15
  {
    assert LevelOK(lv[level], level, revision - 1);
    hide Walk, ValidRef, Full;
  }

  /** How many references the array holds after a push, and after packing a level. */
  lemma FlatPushed(lv: Levels, ref: ObjectRef, level: nat, revision: int, recordHash: Bytes)
    requires CarryInv(lv, ref, level, revision, recordHash) && level < 16
    ensures |Flat(Push(lv, level, ref), 16)| == |Flat(lv, 16)| + 1
    ensures |Flat(lv[level := []], 16)| == |Flat(lv, 16)| - |lv[level]|
  {
    hide ValidRef, Walk, Flat, LevelOK, Full;
    FlatAppend(lv, level, lv[level], [ref], 16);
    FlatAppend(lv, level, [], lv[level], 16);
    assert [] + lv[level] == lv[level] && lv[level := lv[level]] == lv;
  }

  /** One turn of the carry loop. */
  lemma CarryUnfold(pack: Packer, lv: Levels, ref: ObjectRef, level: nat)
    requires level < 16
    ensures |lv[level]| + 1 < 16 ==> CarryFrom(pack, lv, ref, level) == Some(Carried(Push(lv, level, ref), []))
    ensures |lv[level]| + 1 >= 16 && CarryFrom(pack, lv, ref, level).Some? ==>
              pack(lv[level] + [ref]).Some? &&
              var segment := pack(lv[level] + [ref]).value;
              CarryFrom(pack, lv[level := []], segment, level + 1).Some? &&
              var c := CarryFrom(pack, lv[level := []], segment, level + 1).value;
              CarryFrom(pack, lv, ref, level) == Some(c.(created := [segment] + c.created))
  {
    assert Push(lv, level, ref)[level := []] == lv[level := []];
  }

  lemma PacksOne(pack: Packer, children: seq<ObjectRef>)
    requires Packs(pack) && |children| == 16 && pack(children).Some?
    ensures ValidRef(pack(children).value) && Aggregates(pack(children).value, children)
  {
    hide ValidRef, Aggregates;
  }

  /** Carrying any accepted frontier past its head gives a frontier accepted for the
      successor revision, and trades sixteen references for one per segment created. */
  lemma CarryCorrect(pack: Packer, f: seq<FrontierLevel>, head: ObjectRef, carried: Carried)
    requires Packs(pack)
    requires ValidRef(head) && head.level == 0 && head.start < MAX_REVISION
    requires FrontierOK(f, head.start, head.firstPrevHash)
    requires CarryFrom(pack, Spread(f), head, 0) == Some(carried)
    ensures FrontierOK(Gather(carried.levels, 16), head.start + 1, head.lastRecordHash)
    ensures |Refs(Gather(carried.levels, 16))| + 15 * |carried.created| == |Refs(f)| + 1
  {
    RefsAreFlat(f, 16);
    CarryStart(f, head);
    hide *;
    CarryFromCorrect(pack, Spread(f), head, 0, head.start, head.lastRecordHash);
    ValidSuccessor(head.start);
    GatherFrontier(carried.levels, head.start + 1, head.lastRecordHash);
  }

  lemma ValidSuccessor(revision: int)
    ensures 0 <= revision < MAX_REVISION ==> ValidRevision(revision + 1)
  {
  }

  lemma GatherFrontier(lv: Levels, revision: int, prevHash: Bytes)
    requires ValidRevision(revision) && LevelsOK(lv, revision, prevHash)
    ensures FrontierOK(Gather(lv, 16), revision, prevHash)
    ensures Spread(Gather(lv, 16)) == lv && Refs(Gather(lv, 16)) == Flat(lv, 16)
  {
    forall i | 0 <= i < 16
      ensures |lv[i]| <= 15
    {
      assert LevelOK(lv[i], i, revision - 1);
    }
    GatherCanonical(lv, 16);
    assert Spread(Gather(lv, 16)) == lv;
    RefsAreFlat(Gather(lv, 16), 16);
  }
}
