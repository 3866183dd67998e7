/**
 What writers create. The protocol's steps are the carry loop, and in every state of a run
 the store holds one segment for each whole block of the log, at most.
 */
module ProtocolCosts {
  import opened Wrappers
  import opened Radix
  import opened Wire
  import opened Carry
  import opened Segment
  import opened History
  import opened ScanIntact
  import opened Protocol
  import opened ProtocolSafe
  import opened ProtocolSteps
  import opened ProtocolRuns
  import opened ProtocolResults
  import opened Blocks
  import Frontier

  // ---- The steps of a writer are the carry loop ----

  /** One turn of the loop: where the carry function stops, the writer builds its commit on
      that result; where it packs, the writer packs the same children and then carries the
      segment on from the same array. */
  lemma StepsAreCarry(env: Env, id: Bytes, event: Bytes, base: Snapshot, lv: Levels, ref: ObjectRef, level: nat,
                      pack: Packer, segment: ObjectRef, body: Body)
    requires level < 16 && |lv[level]| <= 15
    ensures |lv[level]| < 15 ==>
              CarryFrom(pack, lv, ref, level) == Some(Carried(Push(lv, level, ref), [])) &&
              NextCarry(env, id, event, base, lv, ref, level) ==
              Build(env, id, event, Some(base.commit), Frontier.Gather(CarryFrom(pack, lv, ref, level).value.levels, 16))
    ensures |lv[level]| == 15 && pack(Children(lv, ref, level)) == Some(segment) ==>
              NextCarry(env, id, event, base, lv, ref, level) == Packing(base, lv, ref, level, [], 0) &&
              var over := CarryOver(SegmentCreate(base, lv, ref, level, segment, body));
              CarryFrom(pack, lv, ref, level) == Resume([segment], CarryFrom(pack, over.lv, over.ref, over.level))
  {
    hide Build, Frontier.Gather;
    var pushed := Push(lv, level, ref);
    assert pushed[level := []] == lv[level := []];
  }

  // ---- Every block is created ----

  /** The segment of a block is in the store. */
  predicate Stored(env: Env, store: Store, hist: seq<Commit>, level: nat, start: int) {
    InLog(hist, level, start) && TrueRef(env, hist, level, start).key in store
  }

  /** Every whole block of the first n records has its segment. */
  ghost predicate Complete(env: Env, store: Store, hist: seq<Commit>, n: int) {
    forall level, start :: Block(n, level, start) ==> Stored(env, store, hist, level, start)
  }

  /** So has every block up to a level that ends at record h. */
  ghost predicate EndStored(env: Env, store: Store, hist: seq<Commit>, h: int, level: nat) {
    forall k :: 1 <= k <= level ==> Stored(env, store, hist, k, h - Pow16(k) + 1)
  }

  ghost predicate PcComplete(env: Env, store: Store, hist: seq<Commit>, pc: Pc) {
    match pc
    case Carrying(base, _, _, level) => EndStored(env, store, hist, base.commit.revision, level)
    case Packing(base, _, _, level, _, _) => EndStored(env, store, hist, base.commit.revision, level)
    case SegmentCreate(base, _, _, level, _, _) => EndStored(env, store, hist, base.commit.revision, level)
    case SegmentCheck(base, _, _, level, _, _) => EndStored(env, store, hist, base.commit.revision, level)
    case Publish(c) => Complete(env, store, hist, c.revision - 1)
    case Check(c, _) => Complete(env, store, hist, c.revision - 1)
    case _ => true
  }

  ghost predicate FlightComplete(env: Env, store: Store, hist: seq<Commit>, b: Body) {
    b.CommitBody? ==> Complete(env, store, hist, b.commit.revision - 1)
  }

  /** Before the head every block is stored; writers and creates in flight see to the rest. */
  ghost predicate AllComplete(env: Env, s: State, hist: seq<Commit>) {
    && Complete(env, s.store, hist, |hist| - 1)
    && (forall id :: id in s.writers ==> PcComplete(env, s.store, hist, s.writers[id].pc))
    && (forall k, b :: (k, b) in s.inflight ==> FlightComplete(env, s.store, hist, b))
  }

  lemma StoredGrows(env: Env, store: Store, more: Store, hist: seq<Commit>, longer: seq<Commit>, level: nat, start: int)
    requires Stored(env, store, hist, level, start) && Grows(store, more) && hist <= longer
    ensures Stored(env, more, longer, level, start)
  {
    hide TrueRef, TrueBody;
    TruePrefix(env, hist, longer, level, start);
  }

  lemma CompleteGrows(env: Env, store: Store, more: Store, hist: seq<Commit>, longer: seq<Commit>, n: int)
    requires Complete(env, store, hist, n) && Grows(store, more) && hist <= longer
    ensures Complete(env, more, longer, n)
  {
    hide Stored, Grows, Block;
    forall level, start | Block(n, level, start)
      ensures Stored(env, more, longer, level, start)
    {
      StoredGrows(env, store, more, hist, longer, level, start);
    }
  }

  lemma EndStoredGrows(env: Env, store: Store, more: Store, hist: seq<Commit>, longer: seq<Commit>, h: int, level: nat)
    requires EndStored(env, store, hist, h, level) && Grows(store, more) && hist <= longer
    ensures EndStored(env, more, longer, h, level)
  {
    hide Stored, Grows;
    forall k | 1 <= k <= level
      ensures Stored(env, more, longer, k, h - Pow16(k) + 1)
    {
      StoredGrows(env, store, more, hist, longer, k, h - Pow16(k) + 1);
    }
  }

  lemma PcCompleteGrows(env: Env, store: Store, more: Store, hist: seq<Commit>, longer: seq<Commit>, pc: Pc)
    requires PcComplete(env, store, hist, pc) && Grows(store, more) && hist <= longer
    ensures PcComplete(env, more, longer, pc)
  {
    hide Complete, EndStored, Grows;
    match pc
    case Carrying(base, _, _, level) => EndStoredGrows(env, store, more, hist, longer, base.commit.revision, level);
    case Packing(base, _, _, level, _, _) => EndStoredGrows(env, store, more, hist, longer, base.commit.revision, level);
    case SegmentCreate(base, _, _, level, _, _) => EndStoredGrows(env, store, more, hist, longer, base.commit.revision, level);
    case SegmentCheck(base, _, _, level, _, _) => EndStoredGrows(env, store, more, hist, longer, base.commit.revision, level);
    case Publish(c) => CompleteGrows(env, store, more, hist, longer, c.revision - 1);
    case Check(c, _) => CompleteGrows(env, store, more, hist, longer, c.revision - 1);
    case _ =>
  }

  lemma CompleteLess(env: Env, store: Store, hist: seq<Commit>, n: int, m: int)
    requires Complete(env, store, hist, m) && n <= m
    ensures Complete(env, store, hist, n)
  {
    hide Stored, Aligned;
    forall level, start | Block(n, level, start)
      ensures Stored(env, store, hist, level, start)
    {
      assert Block(m, level, start);
    }
  }

  /** Once the carry stops below a level, all blocks through the base are stored. */
  lemma CarryCompletes(env: Env, store: Store, hist: seq<Commit>, h: int, level: nat)
    requires h >= 1 && Complete(env, store, hist, h - 1) && EndStored(env, store, hist, h, level)
    requires Digit(h - 1, level) != 15
    ensures Complete(env, store, hist, h)
  {
    hide Stored, Aligned, Digit;
    forall k, start | Block(h, k, start)
      ensures Stored(env, store, hist, k, start)
    {
      if start + Pow16(k) - 1 == h {
        EndsBelow(h, level, k, start);
        assert start == h - Pow16(k) + 1;
      } else {
        assert Block(h - 1, k, start);
      }
    }
  }

  lemma CompleteAtStart(env: Env, store: Store, hist: seq<Commit>)
    ensures Complete(env, store, hist, 0) && Complete(env, store, hist, -1)
  {
  }

  // ---- A writer's own step ----

  lemma BuildComplete(env: Env, store: Store, hist: seq<Commit>, id: Bytes, event: Bytes, base: Option<Commit>, frontier: seq<FrontierLevel>)
    requires Complete(env, store, hist, if base.Some? then base.value.revision else 0)
    ensures PcComplete(env, store, hist, Build(env, id, event, base, frontier))
  {
    hide FrontierOK, DecodeCommit, Complete;
  }

  lemma EnterComplete(env: Env, store: Store, hist: seq<Commit>, id: Bytes, event: Bytes, base: Option<Snapshot>)
    ensures PcComplete(env, store, hist, Enter(env, id, event, base))
  {
    hide Build, Spread;
    CompleteAtStart(env, store, hist);
    hide Complete;
    BuildComplete(env, store, hist, id, event, None, []);
  }

  lemma CarryComplete(env: Env, store: Store, hist: seq<Commit>, id: Bytes, event: Bytes, pc: Pc)
    requires StoreOK(env, store, hist) && pc.Carrying? && PcOK(env, store, hist, id, pc) && PcComplete(env, store, hist, pc)
    requires Complete(env, store, hist, |hist| - 1)
    ensures PcComplete(env, store, hist, NextCarry(env, id, event, pc.base, pc.lv, pc.ref, pc.level))
  {
    var h := pc.base.commit.revision;
    assert EndStored(env, store, hist, h, pc.level);
    hide *;
    CarryingFacts(env, store, hist, id, pc);
    BaseFacts(env, store, hist, pc.base, pc.lv, pc.ref, pc.level);
    CarriesLog(env, store, hist, pc.base, pc.lv, pc.ref, pc.level);
    CarryInLevel(env, store, hist[..h], pc.base, pc.lv, pc.ref, pc.level);
    CarriedForm(env, id, event, pc.base, pc.lv, pc.ref, pc.level);
    if |pc.lv[pc.level]| < 15 {
      CompleteLess(env, store, hist, h - 1, |hist| - 1);
      CarryCompletes(env, store, hist, h, pc.level);
      BuildComplete(env, store, hist, id, event, Some(pc.base.commit), Frontier.Gather(Push(pc.lv, pc.level, pc.ref), 16));
    } else {
      PackingComplete(env, store, hist, pc.base, pc.lv, pc.ref, pc.level);
    }
  }

  lemma PackingComplete(env: Env, store: Store, hist: seq<Commit>, base: Snapshot, lv: Levels, ref: ObjectRef, level: nat)
    requires EndStored(env, store, hist, base.commit.revision, level)
    ensures PcComplete(env, store, hist, Packing(base, lv, ref, level, [], 0))
  {
    hide EndStored;
  }

  lemma PackComplete(env: Env, store: Store, hist: seq<Commit>, pc: Pc)
    requires pc.Packing? && pc.level < 16 && |Children(pc.lv, pc.ref, pc.level)| == 16 && PcComplete(env, store, hist, pc)
    ensures PcComplete(env, store, hist, NextPack(env, store, pc))
  {
    hide EndStored, LoadRecords, Adjacent, Packable, SegmentRef, EncodeSegment;
  }

  /** Carrying over a stored segment adds its block to those that end at the base. */
  lemma OverComplete(env: Env, store: Store, hist: seq<Commit>, id: Bytes, pc: Pc)
    requires StoreOK(env, store, hist) && (pc.SegmentCreate? || pc.SegmentCheck?) && PcOK(env, store, hist, id, pc)
    requires pc.segment.key in store && pc.level < 16 && EndStored(env, store, hist, pc.base.commit.revision, pc.level)
    ensures PcComplete(env, store, hist, CarryOver(pc))
  {
    hide *;
    SegmentFacts(env, store, hist, id, pc);
    var h, children := pc.base.commit.revision, Children(pc.lv, pc.ref, pc.level);
    PackBase(env, store, hist, pc.base, pc.lv, pc.ref, pc.level);
    CarriesLog(env, store, hist, pc.base, pc.lv, pc.ref, pc.level);
    var next, chain := ChildrenBlock(env, store, hist[..h], pc.base, pc.lv, pc.ref, pc.level);
    SegmentPlace(env, hist, h, children, pc.level, pc.segment);
    SegmentIsStored(env, store, hist, h, pc.segment);
    OneMore(env, store, hist, h, pc.level, pc.segment.start);
    OverForm(env, store, hist, pc);
  }

  lemma SegmentPlace(env: Env, hist: seq<Commit>, h: int, children: seq<ObjectRef>, level: nat, segment: ObjectRef)
    requires 0 <= h <= |hist| && |children| == 16 && Segmented(env, hist[..h], children, level, segment)
    requires children[15].end == h && children[15].end == children[0].start + Pow16(level + 1) - 1
    ensures segment.level == level + 1 && segment.start == h - Pow16(level + 1) + 1
    ensures IsTrue(env, hist[..h], segment)
  {
    hide IsTrue;
  }

  lemma SegmentIsStored(env: Env, store: Store, hist: seq<Commit>, h: int, segment: ObjectRef)
    requires 0 <= h <= |hist| && IsTrue(env, hist[..h], segment) && segment.key in store
    ensures Stored(env, store, hist, segment.level, segment.start)
  {
    hide ValidRef, TrueBody;
    TruePrefix(env, hist[..h], hist, segment.level, segment.start);
  }

  lemma OneMore(env: Env, store: Store, hist: seq<Commit>, h: int, level: nat, start: int)
    requires EndStored(env, store, hist, h, level) && Stored(env, store, hist, level + 1, start)
    requires start == h - Pow16(level + 1) + 1
    ensures EndStored(env, store, hist, h, level + 1)
  {
    hide Stored, Pow16;
  }

  lemma OverForm(env: Env, store: Store, hist: seq<Commit>, pc: Pc)
    requires (pc.SegmentCreate? || pc.SegmentCheck?) && pc.level < 16
    requires EndStored(env, store, hist, pc.base.commit.revision, pc.level + 1)
    ensures PcComplete(env, store, hist, CarryOver(pc))
  {
    hide EndStored;
  }

  /** The writer's next position, over the store it leaves. */
  lemma NextComplete(env: Env, s: State, hist: seq<Commit>, id: Bytes)
    requires Inv(env, s, hist) && AllComplete(env, s, hist)
    requires id in s.writers && !Finished(s.writers[id].pc) && !s.writers[id].pc.Listing?
    ensures var n := Next(env, s.store, id, s.writers[id]);
      PcComplete(env, Put(s, n.1), hist, n.0.pc) && Grows(s.store, Put(s, n.1))
  {
    hide *;
    var w := s.writers[id];
    InvParts(env, s, hist);
    WriterParts(env, s, hist, id);
    CompleteParts(env, s, hist, id);
    NextForm(env, s.store, id, w);
    PutGrows(s, Next(env, s.store, id, w).1);
    match w.pc
    case Carrying(base, lv, ref, level) =>
      CarryComplete(env, s.store, hist, id, w.event, w.pc);
      NextCarrying(env, s.store, id, w);
      NothingPut(s);
    case Packing(_, _, _, _, _, _) =>
      PackingFacts(env, s.store, hist, id, w.pc);
      PackComplete(env, s.store, hist, w.pc);
      NextPacking(env, s.store, id, w);
      NothingPut(s);
    case SegmentCreate(_, _, _, _, _, _) => CreateComplete(env, s, hist, id);
    case SegmentCheck(_, _, _, _, _, _) => CheckComplete(env, s, hist, id);
    case _ => OthersComplete(env, s, hist, id);
  }

  lemma CompleteParts(env: Env, s: State, hist: seq<Commit>, id: Bytes)
    requires AllComplete(env, s, hist)
    ensures Complete(env, s.store, hist, |hist| - 1)
    ensures id in s.writers ==> PcComplete(env, s.store, hist, s.writers[id].pc)
  {
    hide Complete, PcComplete, FlightComplete;
  }

  lemma PutGrows(s: State, created: Option<(Key, Body)>)
    ensures Grows(s.store, Put(s, created))
  {
  }

  lemma NothingPut(s: State)
    ensures Put(s, None) == s.store
  {
  }

  lemma CreateComplete(env: Env, s: State, hist: seq<Commit>, id: Bytes)
    requires Inv(env, s, hist) && id in s.writers && s.writers[id].pc.SegmentCreate?
    requires PcComplete(env, s.store, hist, s.writers[id].pc)
    ensures var n := Next(env, s.store, id, s.writers[id]); PcComplete(env, Put(s, n.1), hist, n.0.pc)
  {
    hide *;
    var w, pc := s.writers[id], s.writers[id].pc;
    InvParts(env, s, hist);
    WriterParts(env, s, hist, id);
    SegmentFacts(env, s.store, hist, id, pc);
    CreateForm(env, s, hist, id, w);
    if pc.segment.key !in s.store {
      var more := s.store[pc.segment.key := pc.body];
      GrowsByOne(s.store, pc.segment.key, pc.body);
      SegmentLands(env, s.store, hist, pc.segment.key, pc.body);
      PcGrows(env, s.store, more, hist, hist, id, pc);
      PcCompleteGrows(env, s.store, more, hist, hist, pc);
      AtLevel(env, more, hist, pc);
      OverComplete(env, more, hist, id, pc);
    }
  }

  lemma CreateForm(env: Env, s: State, hist: seq<Commit>, id: Bytes, w: Writer)
    requires w.pc.SegmentCreate? && w.pc.level < 16
    ensures var n := Next(env, s.store, id, w);
      if w.pc.segment.key in s.store then
        Put(s, n.1) == s.store && (PcComplete(env, s.store, hist, w.pc) ==> PcComplete(env, s.store, hist, n.0.pc))
      else n.0.pc == CarryOver(w.pc) && Put(s, n.1) == s.store[w.pc.segment.key := w.pc.body]
  {
    hide EndStored, CarryOver;
  }

  lemma AtLevel(env: Env, store: Store, hist: seq<Commit>, pc: Pc)
    requires (pc.SegmentCreate? || pc.SegmentCheck?) && PcComplete(env, store, hist, pc)
    ensures EndStored(env, store, hist, pc.base.commit.revision, pc.level)
  {
    hide EndStored;
  }

  lemma CheckComplete(env: Env, s: State, hist: seq<Commit>, id: Bytes)
    requires Inv(env, s, hist) && id in s.writers && s.writers[id].pc.SegmentCheck?
    requires PcComplete(env, s.store, hist, s.writers[id].pc)
    ensures var n := Next(env, s.store, id, s.writers[id]); PcComplete(env, Put(s, n.1), hist, n.0.pc)
  {
    hide *;
    var w, pc := s.writers[id], s.writers[id].pc;
    InvParts(env, s, hist);
    WriterParts(env, s, hist, id);
    SegmentFacts(env, s.store, hist, id, pc);
    AtLevel(env, s.store, hist, pc);
    CheckForm(env, s, hist, id, w);
    if pc.segment.key in s.store {
      OverComplete(env, s.store, hist, id, pc);
    }
  }

  lemma CheckForm(env: Env, s: State, hist: seq<Commit>, id: Bytes, w: Writer)
    requires w.pc.SegmentCheck? && w.pc.level < 16
    ensures var n := Next(env, s.store, id, w);
      Put(s, n.1) == s.store &&
      ((n.0.pc == CarryOver(w.pc) && w.pc.segment.key in s.store) || PcComplete(env, s.store, hist, n.0.pc))
  {
    hide DecodeSegment, CarryOver;
  }

  lemma OthersComplete(env: Env, s: State, hist: seq<Commit>, id: Bytes)
    requires id in s.writers && PcComplete(env, s.store, hist, s.writers[id].pc)
    requires var pc := s.writers[id].pc; pc.Listed? || pc.Publish? || pc.Check?
    ensures var n := Next(env, s.store, id, s.writers[id]); PcComplete(env, Put(s, n.1), hist, n.0.pc)
  {
    hide LoadRoot, Enter, Complete;
    var w := s.writers[id];
    if w.pc.Listed? && LoadRoot(env, s.store, w.pc.head, Corrupt).Ok? {
      EnterComplete(env, s.store, hist, id, w.event, Some(LoadRoot(env, s.store, w.pc.head, Corrupt).value));
    }
  }

  // ---- Every event ----

  /** A commit that joins the log has all blocks before it stored. */
  lemma JoinsComplete(env: Env, s: State, hist: seq<Commit>, e: Event)
    requires Inv(env, s, hist) && AllComplete(env, s, hist) && Enabled(env, s, e)
    requires LogKey(|hist| + 1) in Apply(env, s, e).store && LogKey(|hist| + 1) !in s.store
    ensures Complete(env, s.store, hist, |hist|)
  {
    hide *;
    InvParts(env, s, hist);
    StoreAfter(env, s, e);
    if e.Advance? {
      AdvanceForm(env, s, e);
      WriterParts(env, s, hist, e.id);
      CompleteParts(env, s, hist, e.id);
      var w := s.writers[e.id];
      NextForm(env, s.store, e.id, w);
      PutOne(s, Next(env, s.store, e.id, w).1, |hist| + 1);
      if w.pc.SegmentCreate? {
        SegmentFacts(env, s.store, hist, e.id, w.pc);
        LogKeyIsNoSegment(env, hist, w.pc.segment.key, w.pc.body);
      } else if w.pc.Publish? {
        PublishComplete(env, s.store, hist, w.pc);
      }
    } else if e.Land? {
      FlightFacts(env, s, hist, e.key, e.body);
      FlightParts(env, s, hist, e.key, e.body);
    }
  }

  lemma StoreAfter(env: Env, s: State, e: Event)
    requires Enabled(env, s, e)
    ensures e.Advance? ==> e.id in s.writers && Apply(env, s, e).store == Put(s, Next(env, s.store, e.id, s.writers[e.id]).1)
    ensures e.Land? ==>
              (e.key, e.body) in s.inflight && forall r :: LogKey(r) in Apply(env, s, e).store ==> LogKey(r) in s.store || e.key == LogKey(r)
    ensures !e.Advance? && !e.Land? ==> Apply(env, s, e).store == s.store
  {
    hide Next, Enter, LoadRoot, Prepared;
  }

  lemma PutOne(s: State, created: Option<(Key, Body)>, r: int)
    requires LogKey(r) in Put(s, created) && LogKey(r) !in s.store
    ensures created.Some? && created.value.0 == LogKey(r)
  {
  }

  lemma PublishComplete(env: Env, store: Store, hist: seq<Commit>, pc: Pc)
    requires pc.Publish? && PcComplete(env, store, hist, pc)
    ensures Complete(env, store, hist, pc.commit.revision - 1)
  {
    hide Complete;
  }

  lemma FlightParts(env: Env, s: State, hist: seq<Commit>, k: Key, b: Body)
    requires AllComplete(env, s, hist) && (k, b) in s.inflight
    ensures b.CommitBody? ==> Complete(env, s.store, hist, b.commit.revision - 1)
  {
    assert FlightComplete(env, s.store, hist, b);
    hide Complete, PcComplete;
  }

  /** The position of each writer and each create in flight after an event. */
  lemma WriterAfter(env: Env, s: State, hist: seq<Commit>, e: Event, id: Bytes)
    requires Inv(env, s, hist) && AllComplete(env, s, hist) && Enabled(env, s, e) && id in Apply(env, s, e).writers
    ensures PcComplete(env, Apply(env, s, e).store, hist, Apply(env, s, e).writers[id].pc)
  {
    hide *;
    EventGrows(env, s, e);
    CompleteParts(env, s, hist, id);
    WriterForm(env, s, e, id);
    if e.Advance? && e.id == id {
      NextComplete(env, s, hist, id);
      StoreAfter(env, s, e);
    } else if (e.Append? || e.AppendTo? || e.List? || e.Lose? || e.Fail?) && e.id == id {
      StoreAfter(env, s, e);
      MovedComplete(env, s, hist, e);
    } else {
      PcCompleteGrows(env, s.store, Apply(env, s, e).store, hist, hist, s.writers[id].pc);
    }
  }

  lemma EventGrows(env: Env, s: State, e: Event)
    requires Enabled(env, s, e)
    ensures Grows(s.store, Apply(env, s, e).store)
  {
    hide Next, Enter, LoadRoot, Prepared;
  }

  lemma WriterForm(env: Env, s: State, e: Event, id: Bytes)
    requires Enabled(env, s, e) && id in Apply(env, s, e).writers
    ensures e.Advance? && e.id == id ==>
              id in s.writers && !Finished(s.writers[id].pc) && !s.writers[id].pc.Listing? &&
              Apply(env, s, e).writers[id] == Next(env, s.store, id, s.writers[id]).0
    ensures e.Land? || e.id != id ==> id in s.writers && Apply(env, s, e).writers[id] == s.writers[id]
  {
    hide Next, Enter, LoadRoot, Prepared;
  }

  lemma MovedComplete(env: Env, s: State, hist: seq<Commit>, e: Event)
    requires AllComplete(env, s, hist) && Enabled(env, s, e) && (e.Append? || e.AppendTo? || e.List? || e.Lose? || e.Fail?)
    requires e.id in Apply(env, s, e).writers
    ensures PcComplete(env, s.store, hist, Apply(env, s, e).writers[e.id].pc)
  {
    CompleteParts(env, s, hist, e.id);
    hide LoadRoot, Enter, Complete, EndStored, Prepared, AllComplete;
    if e.AppendTo? {
      EnterComplete(env, s.store, hist, e.id, e.event, if e.base == 0 then None else Some(LoadRoot(env, s.store, e.base, NotFound).value));
    } else if e.List? {
      EnterComplete(env, s.store, hist, e.id, s.writers[e.id].event, None);
    }
  }

  lemma FlightAfter(env: Env, s: State, hist: seq<Commit>, e: Event, k: Key, b: Body)
    requires AllComplete(env, s, hist) && Enabled(env, s, e) && (k, b) in Apply(env, s, e).inflight
    requires b.CommitBody? && (e.Lose? && s.writers[e.id].pc.SegmentCreate? ==> !s.writers[e.id].pc.body.CommitBody?)
    ensures Complete(env, s.store, hist, b.commit.revision - 1)
  {
    if (k, b) in s.inflight {
      FlightParts(env, s, hist, k, b);
    } else {
      CompleteParts(env, s, hist, e.id);
    }
    hide Next, Enter, LoadRoot, Prepared, Complete, EndStored, AllComplete;
  }

  lemma EventComplete(env: Env, s: State, hist: seq<Commit>, e: Event, longer: seq<Commit>)
    requires Inv(env, s, hist) && AllComplete(env, s, hist) && Enabled(env, s, e)
    requires Inv(env, Apply(env, s, e), longer)
    requires longer == hist || (|longer| == |hist| + 1 && longer[..|hist|] == hist)
    ensures AllComplete(env, Apply(env, s, e), longer)
  {
    hide *;
    var t := Apply(env, s, e);
    EventGrows(env, s, e);
    InvParts(env, s, hist);
    if longer == hist {
      CompleteParts(env, s, hist, []);
    } else {
      Joined(env, s, hist, t, longer);
      JoinsComplete(env, s, hist, e);
    }
    CompleteGrows(env, s.store, t.store, hist, longer, |longer| - 1);
    SameStore(t.store);
    forall id | id in t.writers
      ensures PcComplete(env, t.store, longer, t.writers[id].pc)
    {
      WriterAfter(env, s, hist, e, id);
      PcCompleteGrows(env, t.store, t.store, hist, longer, t.writers[id].pc);
    }
    forall k, b | (k, b) in t.inflight && b.CommitBody?
      ensures Complete(env, t.store, longer, b.commit.revision - 1)
    {
      LostBody(env, s, hist, e);
      FlightAfter(env, s, hist, e, k, b);
      CompleteGrows(env, s.store, t.store, hist, longer, b.commit.revision - 1);
    }
    MakeComplete(env, t, longer);
  }

  lemma Joined(env: Env, s: State, hist: seq<Commit>, t: State, longer: seq<Commit>)
    requires Inv(env, s, hist) && Inv(env, t, longer) && |longer| == |hist| + 1
    ensures LogKey(|hist| + 1) in t.store && LogKey(|hist| + 1) !in s.store
  {
    InvIsLog(env, s, hist);
    InvIsLog(env, t, longer);
    hide Inv, World;
  }

  lemma LostBody(env: Env, s: State, hist: seq<Commit>, e: Event)
    requires Inv(env, s, hist) && Enabled(env, s, e)
    ensures e.Lose? ==> e.id in s.writers && (s.writers[e.id].pc.SegmentCreate? ==> !s.writers[e.id].pc.body.CommitBody?)
  {
    hide *;
    if e.Lose? {
      LoseForm(env, s, e);
      WriterParts(env, s, hist, e.id);
      if s.writers[e.id].pc.SegmentCreate? {
        SegmentFacts(env, s.store, hist, e.id, s.writers[e.id].pc);
        NoCommitBody(env, hist, s.writers[e.id].pc.segment.key, s.writers[e.id].pc.body);
      }
    }
  }

  lemma NoCommitBody(env: Env, hist: seq<Commit>, k: Key, b: Body)
    requires TrueObject(env, hist, k, b)
    ensures !b.CommitBody?
  {
    hide ValidRef, TrueRef;
  }

  lemma MakeComplete(env: Env, t: State, hist: seq<Commit>)
    requires Complete(env, t.store, hist, |hist| - 1)
    requires forall id :: id in t.writers ==> PcComplete(env, t.store, hist, t.writers[id].pc)
    requires forall k, b :: (k, b) in t.inflight && b.CommitBody? ==> Complete(env, t.store, hist, b.commit.revision - 1)
    ensures AllComplete(env, t, hist)
  {
    hide Complete, PcComplete;
  }

  lemma {:induction false} RunComplete(env: Env, states: seq<State>, logs: seq<seq<Commit>>, i: nat)
    requires ValidEnv(env) && Run(env, states) && |logs| == |states| && i < |states|
    requires forall m :: 0 <= m < |states| ==> Inv(env, states[m], logs[m])
    ensures AllComplete(env, states[i], logs[i])
  {
    hide Inv, Step, AllComplete, Apply, Enabled, IsLog, World;
    if i == 0 {
      InvIsLog(env, states[0], logs[0]);
      StartComplete(env, logs[0]);
    } else {
      RunComplete(env, states, logs, i - 1);
      assert Step(env, states[i - 1], states[i]);
      StepComplete(env, states[i - 1], logs[i - 1], states[i], logs[i]);
    }
  }

  lemma StartComplete(env: Env, hist: seq<Commit>)
    requires IsLog(INITIAL.store, hist)
    ensures AllComplete(env, INITIAL, hist)
  {
    assert |hist| > 0 ==> LogKey(|hist|) in INITIAL.store;
    CompleteAtStart(env, INITIAL.store, hist);
    hide Complete;
  }

  lemma StepComplete(env: Env, s: State, hist: seq<Commit>, t: State, longer: seq<Commit>)
    requires ValidEnv(env) && Inv(env, s, hist) && AllComplete(env, s, hist) && Step(env, s, t) && Inv(env, t, longer)
    ensures AllComplete(env, t, longer)
  {
    var e :| Enabled(env, s, e) && t == Apply(env, s, e);
    hide *;
    var log := EventKeeps(env, s, hist, e);
    InvIsLog(env, t, log);
    InvIsLog(env, t, longer);
    LogUnique(t.store, log, longer);
    EventComplete(env, s, hist, e, longer);
  }

  // ---- Counting ----

  function Segments(store: Store): set<Key> {
    set k | k in store && k.TreeKey?
  }

  function Place(k: Key): (nat, int)
    requires k.TreeKey?
  {
    (k.level, k.first)
  }

  function Places(keys: set<Key>): set<(nat, int)> {
    set k | k in keys && k.TreeKey? :: Place(k)
  }

  lemma {:induction false} PlacesCount(keys: set<Key>)
    requires forall k :: k in keys ==> k.TreeKey?
    requires forall k, m :: k in keys && m in keys && k.TreeKey? && m.TreeKey? && Place(k) == Place(m) ==> k == m
    ensures |Places(keys)| == |keys|
    decreases keys
  {
    if keys != {} {
      var k :| k in keys;
      var rest := keys - {k};
      PlacesCount(rest);
      assert Places(keys) == Places(rest) + {Place(k)};
      assert Place(k) !in Places(rest);
    }
  }

  lemma {:induction false} SubsetCount<T>(a: set<T>, b: set<T>)
    requires a <= b
    ensures |a| <= |b|
  {
    assert b == a + (b - a);
  }

  function LogKeys(n: nat): set<Key> {
    if n == 0 then {} else LogKeys(n - 1) + {LogKey(n)}
  }

  lemma {:induction false} LogKeysCount(n: nat)
    ensures |LogKeys(n)| == n
    ensures forall k :: k in LogKeys(n) <==> k.LogKey? && 1 <= k.revision <= n
  {
    if n > 0 {
      LogKeysCount(n - 1);
    }
  }

  /** A stored segment stands for a block of the log, and no other is stored for it. */
  lemma SegmentPlaces(env: Env, store: Store, hist: seq<Commit>, k: Key, m: Key)
    requires KeysOK(env, store, hist) && k in Segments(store) && m in Segments(store)
    ensures Block(|hist|, k.level, k.first)
    ensures Place(k) == Place(m) ==> k == m
  {
    assert TrueObject(env, hist, k, store[k]) && TrueObject(env, hist, m, store[m]);
    hide TrueBody;
  }

  lemma BlockPlaced(env: Env, store: Store, hist: seq<Commit>, level: nat, start: int)
    requires Complete(env, store, hist, |hist| - 1) && Block(|hist| - 1, level, start)
    ensures (level, start) in Places(Segments(store))
  {
    assert Stored(env, store, hist, level, start);
    var k := TrueRef(env, hist, level, start).key;
    assert k in Segments(store) && Place(k) == (level, start);
  }

  /** In every state of every run, however many writers raced and failed, the segments in the
      store stand for all whole blocks before the head and at most those through it, so all
      objects together are at most 16 / 15 of the commits. */
  lemma ObjectsInRun(env: Env, states: seq<State>, i: nat) returns (hist: seq<Commit>)
    requires ValidEnv(env) && Run(env, states) && i < |states|
    ensures IsLog(states[i].store, hist)
    ensures |hist| > 0 ==> Completed(|hist| - 1) <= |Segments(states[i].store)|
    ensures |Segments(states[i].store)| <= Completed(|hist|)
    ensures |states[i].store| == |hist| + |Segments(states[i].store)|
    ensures 15 * |states[i].store| <= 16 * |hist|
  {
    hide *;
    var logs := RunKeeps(env, states);
    var store := states[i].store;
    hist := logs[i];
    InvIsLog(env, states[i], hist);
    InvParts(env, states[i], hist);
    RunComplete(env, states, logs, i);
    CompleteParts(env, states[i], hist, []);
    UpperCount(env, store, hist);
    if |hist| > 0 {
      LowerCount(env, store, hist);
    }
    StoreCount(env, store, hist);
    CompletedBlocks(|hist|);
  }

  lemma UpperCount(env: Env, store: Store, hist: seq<Commit>)
    requires KeysOK(env, store, hist)
    ensures |Places(Segments(store))| == |Segments(store)| <= Completed(|hist|)
  {
    hide KeysOK, Block, AllBlocks;
    forall k, m | k in Segments(store) && m in Segments(store) && Place(k) == Place(m)
      ensures k == m
    {
      SegmentPlaces(env, store, hist, k, m);
    }
    PlacesCount(Segments(store));
    forall p | p in Places(Segments(store))
      ensures p in AllBlocks(|hist|)
    {
      var k :| k in Segments(store) && Place(k) == p;
      SegmentPlaces(env, store, hist, k, k);
      AllBlocksMember(|hist|, p.0, p.1);
    }
    SubsetCount(Places(Segments(store)), AllBlocks(|hist|));
    AllBlocksCount(|hist|);
  }

  lemma LowerCount(env: Env, store: Store, hist: seq<Commit>)
    requires |hist| > 0 && Complete(env, store, hist, |hist| - 1)
    requires |Places(Segments(store))| == |Segments(store)|
    ensures Completed(|hist| - 1) <= |Segments(store)|
  {
    hide Complete, Block, AllBlocks, Places, Segments;
    forall p | p in AllBlocks(|hist| - 1)
      ensures p in Places(Segments(store))
    {
      AllBlocksMember(|hist| - 1, p.0, p.1);
      BlockPlaced(env, store, hist, p.0, p.1);
    }
    SubsetCount(AllBlocks(|hist| - 1), Places(Segments(store)));
    AllBlocksCount(|hist| - 1);
  }

  lemma StoreCount(env: Env, store: Store, hist: seq<Commit>)
    requires KeysOK(env, store, hist) && IsLog(store, hist)
    ensures |store| == |hist| + |Segments(store)|
  {
    LogKeysCount(|hist|);
    forall k | k in store
      ensures k in LogKeys(|hist|) + Segments(store)
    {
      assert k.LogKey? || TrueObject(env, hist, k, store[k]);
      hide TrueRef, TrueBody, ValidRef;
    }
    hide KeysOK, TrueObject;
    assert store.Keys == LogKeys(|hist|) + Segments(store);
    assert LogKeys(|hist|) !! Segments(store);
  }
}
