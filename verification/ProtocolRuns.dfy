/**
 Whole runs of the append protocol, over every interleaving.
 */
module ProtocolRuns {
  import opened Wrappers
  import opened Wire
  import opened History
  import opened ScanIntact
  import opened Protocol
  import opened ProtocolSafe
  import opened ProtocolSteps

  // ---- Frames ----

  /** Something happened to one writer; the store, the flights and the log may have grown. */
  lemma OneWriter(env: Env, s: State, hist: seq<Commit>, id: Bytes, t: State, longer: seq<Commit>, w: Writer)
    requires Inv(env, s, hist) && Grows(s.store, t.store) && hist <= longer && StoreOK(env, t.store, longer)
    requires t.writers == s.writers[id := w] && WriterOK(env, t, longer, id, w)
    requires forall other :: other in s.writers && other != id ==> Placed(t.inflight, longer, other, s.writers[other].pc)
    requires InflightOK(env, t, longer) && KnownIds(t, longer)
    ensures Inv(env, t, longer)
  {
    hide Grows, StoreOK, Placed, PcOK, InflightOK, KnownIds;
    forall other | other in t.writers
      ensures WriterOK(env, t, longer, other, t.writers[other])
    {
      if other != id {
        assert WriterOK(env, s, hist, other, s.writers[other]);
        PcGrows(env, s.store, t.store, hist, longer, other, s.writers[other].pc);
      }
    }
  }

  lemma SameStore(store: Store)
    ensures Grows(store, store)
  {
  }

  /** Only the writer's own position changed. */
  lemma LocalStep(env: Env, s: State, hist: seq<Commit>, id: Bytes, w: Writer)
    requires Inv(env, s, hist) && WriterOK(env, s, hist, id, w)
    ensures Inv(env, With(s, id, w), hist)
  {
    var t := With(s, id, w);
    hide StoreOK, Grows, PcOK, Placed;
    SameStore(s.store);
    assert forall other :: other in s.writers ==> WriterOK(env, s, hist, other, s.writers[other]);
    FlightsKept(env, s, hist, t, hist);
    OneWriter(env, s, hist, id, t, hist, w);
  }

  /** Creates in flight stay in order. */
  lemma FlightsKept(env: Env, s: State, hist: seq<Commit>, t: State, longer: seq<Commit>)
    requires InflightOK(env, s, hist) && t.inflight == s.inflight && Grows(s.store, t.store) && hist <= longer
    requires s.writers.Keys <= t.writers.Keys
    ensures InflightOK(env, t, longer)
  {
    hide Grows, FlyingOK;
    forall k, b | (k, b) in t.inflight
      ensures FlyingOK(env, t.store, longer, t.writers, k, b)
    {
      FlyingGrows(env, s.store, t.store, hist, longer, s.writers, t.writers, k, b);
    }
  }

  // ---- Where commits of each invocation are ----

  /** A commit of another invocation joins the log. */
  lemma PlacedOther(inflight: set<(Key, Body)>, hist: seq<Commit>, c: Commit, id: Bytes, pc: Pc)
    requires Placed(inflight, hist, id, pc) && c.commitId != id
    ensures Placed(inflight, hist + [c], id, pc)
  {
    assert forall r :: At(hist + [c], id, r) <==> At(hist, id, r);
    assert forall r :: At(hist, id, r) ==> (hist + [c])[r - 1] == hist[r - 1];
    assert forall k, b :: Pending(inflight, hist + [c], id, k, b) ==> Pending(inflight, hist, id, k, b);
  }

  /** No create in flight is further than one past the head. */
  lemma FlightsNear(env: Env, s: State, hist: seq<Commit>, c: Commit)
    requires InflightOK(env, s, hist) && c.revision == |hist| + 1
    ensures forall id, k, b :: !Pending(s.inflight, hist + [c], id, k, b)
  {
    forall id, k, b | (k, b) in s.inflight && b.CommitBody?
      ensures !Pending(s.inflight, hist + [c], id, k, b)
    {
      assert FlyingOK(env, s.store, hist, s.writers, k, b);
      hide HonestAt, Held, ValidRef, TrueRef;
    }
  }

  /** An invocation's own commit joins the log as the only one. */
  lemma PlacedOwn(inflight: set<(Key, Body)>, hist: seq<Commit>, c: Commit, pc: Pc)
    requires forall r :: !At(hist, c.commitId, r)
    requires forall k, b :: !Pending(inflight, hist + [c], c.commitId, k, b)
    requires pc.Failed? || pc == Done(|hist| + 1) || (pc.Check? && pc.commit == c)
    ensures Placed(inflight, hist + [c], c.commitId, pc)
  {
    assert forall r :: At(hist + [c], c.commitId, r) ==> At(hist, c.commitId, r) || r == |hist| + 1;
    assert At(hist + [c], c.commitId, |hist| + 1);
  }

  lemma NewIdNever(env: Env, s: State, hist: seq<Commit>, id: Bytes)
    requires Inv(env, s, hist) && id !in s.writers
    ensures Never(s.inflight, hist, id) && Once(s.inflight, hist, id)
  {
    forall k, b | (k, b) in s.inflight && b.CommitBody?
      ensures !Pending(s.inflight, hist, id, k, b)
    {
      assert FlyingOK(env, s.store, hist, s.writers, k, b);
      hide Publishable, ValidRef, TrueRef;
    }
    hide StoreOK, WritersOK;
  }

  lemma InvParts(env: Env, s: State, hist: seq<Commit>)
    requires Inv(env, s, hist)
    ensures StoreOK(env, s.store, hist) && WritersOK(env, s, hist) && InflightOK(env, s, hist) && KnownIds(s, hist)
    ensures World(env, Reader(s.store), hist) && KeysOK(env, s.store, hist)
  {
    hide StoreOK, WritersOK, InflightOK, KnownIds;
    StoreKeys(env, s.store, hist);
  }

  lemma WriterParts(env: Env, s: State, hist: seq<Commit>, id: Bytes)
    requires Inv(env, s, hist) && id in s.writers
    ensures
      var w := s.writers[id];
      WriterOK(env, s, hist, id, w) && Prepared(env, id, w.event) && PcOK(env, s.store, hist, id, w.pc) &&
      Placed(s.inflight, hist, id, w.pc) && Once(s.inflight, hist, id)
    ensures
      var pc := s.writers[id].pc;
      !pc.Check? && !pc.Done? && !pc.Failed? ==> Never(s.inflight, hist, id)
  {
    hide StoreOK, InflightOK, KnownIds, Prepared, PcOK, Never, Once;
  }

  lemma MakeWriter(env: Env, s: State, hist: seq<Commit>, id: Bytes, w: Writer)
    requires Prepared(env, id, w.event) && PcOK(env, s.store, hist, id, w.pc) && Once(s.inflight, hist, id)
    requires w.pc.Failed? || (!w.pc.Check? && !w.pc.Done? && Never(s.inflight, hist, id))
    ensures WriterOK(env, s, hist, id, w)
  {
    hide PcOK, Prepared, Once, Never;
  }

  // ---- Each kind of step ----

  lemma BeginOK(env: Env, s: State, hist: seq<Commit>, e: Event)
    requires ValidEnv(env) && Inv(env, s, hist) && Enabled(env, s, e) && (e.Append? || e.AppendTo?)
    ensures Inv(env, Apply(env, s, e), hist)
  {
    hide *;
    InvParts(env, s, hist);
    BeginForm(env, s, hist, e);
    NewIdNever(env, s, hist, e.id);
    if e.AppendTo? && e.base == 0 {
      FirstOK(env, s.store, hist, e.id, e.event);
    } else if e.AppendTo? {
      LogKeyInRange(env, s.store, hist, e.base);
      RootLoads(env, s.store, hist, e.base, NotFound);
      EnterOK(env, s.store, hist, e.base, e.id, e.event);
    }
    var w := Apply(env, s, e).writers[e.id];
    MakeWriter(env, s, hist, e.id, w);
    LocalStep(env, s, hist, e.id, w);
  }

  lemma BeginForm(env: Env, s: State, hist: seq<Commit>, e: Event)
    requires Enabled(env, s, e) && (e.Append? || e.AppendTo?)
    ensures e.id !in s.writers && Prepared(env, e.id, e.event)
    ensures e.AppendTo? && e.base != 0 ==> LogKey(e.base) in s.store && LoadRoot(env, s.store, e.base, NotFound).Ok?
    ensures e.id in Apply(env, s, e).writers && Apply(env, s, e) == With(s, e.id, Apply(env, s, e).writers[e.id])
    ensures
      var w := Apply(env, s, e).writers[e.id];
      w.event == e.event && w.pc ==
      if e.Append? then Listing
      else if e.base == 0 then Enter(env, e.id, e.event, None)
      else Enter(env, e.id, e.event, Some(LoadRoot(env, s.store, e.base, NotFound).value))
    ensures PcOK(env, s.store, hist, e.id, Listing)
  {
    hide Enter, Prepared, DecodeCommit;
  }

  lemma ListOK(env: Env, s: State, hist: seq<Commit>, e: Event)
    requires ValidEnv(env) && Inv(env, s, hist) && Enabled(env, s, e) && e.List?
    ensures Inv(env, Apply(env, s, e), hist)
  {
    hide *;
    InvParts(env, s, hist);
    ListForm(env, s, e);
    WriterParts(env, s, hist, e.id);
    var w := Apply(env, s, e).writers[e.id];
    if e.head == 0 {
      FirstOK(env, s.store, hist, e.id, w.event);
    } else {
      LogKeyInRange(env, s.store, hist, e.head);
      ListedForm(env, s.store, hist, e.id, e.head);
    }
    MakeWriter(env, s, hist, e.id, w);
    LocalStep(env, s, hist, e.id, w);
  }

  lemma ListForm(env: Env, s: State, e: Event)
    requires Enabled(env, s, e) && e.List?
    ensures e.id in s.writers && s.writers[e.id].pc.Listing?
    ensures e.head != 0 ==> LogKey(e.head) in s.store
    ensures e.id in Apply(env, s, e).writers && Apply(env, s, e) == With(s, e.id, Apply(env, s, e).writers[e.id])
    ensures
      var w := Apply(env, s, e).writers[e.id];
      w.event == s.writers[e.id].event && w.pc == if e.head == 0 then Enter(env, e.id, w.event, None) else Listed(e.head)
  {
    hide Enter;
  }

  lemma ListedForm(env: Env, store: Store, hist: seq<Commit>, id: Bytes, head: int)
    requires 1 <= head <= |hist|
    ensures PcOK(env, store, hist, id, Listed(head)) && Listed(head).Listed?
  {
  }

  lemma FailOK(env: Env, s: State, hist: seq<Commit>, e: Event)
    requires ValidEnv(env) && Inv(env, s, hist) && Enabled(env, s, e) && e.Fail?
    ensures Inv(env, Apply(env, s, e), hist)
  {
    var w := s.writers[e.id].(pc := Failed(Io));
    assert PcOK(env, s.store, hist, e.id, w.pc) && Apply(env, s, e) == With(s, e.id, w);
    hide *;
    WriterParts(env, s, hist, e.id);
    MakeWriter(env, s, hist, e.id, w);
    LocalStep(env, s, hist, e.id, w);
  }

  // ---- A create whose outcome its caller does not learn ----

  lemma LoseOK(env: Env, s: State, hist: seq<Commit>, e: Event)
    requires ValidEnv(env) && Inv(env, s, hist) && Enabled(env, s, e) && e.Lose?
    ensures Inv(env, Apply(env, s, e), hist)
  {
    hide *;
    LoseForm(env, s, e);
    if s.writers[e.id].pc.SegmentCreate? {
      LoseSegment(env, s, hist, e.id);
    } else {
      LoseCommit(env, s, hist, e.id);
    }
  }

  function LostSegment(s: State, id: Bytes): (t: State)
    requires id in s.writers && s.writers[id].pc.SegmentCreate?
    ensures id in t.writers
  {
    var w, pc := s.writers[id], s.writers[id].pc;
    With(s.(inflight := s.inflight + {(pc.segment.key, pc.body)}), id,
         w.(pc := SegmentCheck(pc.base, pc.lv, pc.ref, pc.level, pc.segment, false)))
  }

  function LostCommit(s: State, id: Bytes): (t: State)
    requires id in s.writers && s.writers[id].pc.Publish?
    ensures id in t.writers
  {
    var w, c := s.writers[id], s.writers[id].pc.commit;
    With(s.(inflight := s.inflight + {(LogKey(c.revision), EncodeCommit(c))}), id, w.(pc := Check(c, false)))
  }

  lemma LoseForm(env: Env, s: State, e: Event)
    requires Enabled(env, s, e) && e.Lose?
    ensures e.id in s.writers && (s.writers[e.id].pc.SegmentCreate? || s.writers[e.id].pc.Publish?)
    ensures s.writers[e.id].pc.SegmentCreate? ==> Apply(env, s, e) == LostSegment(s, e.id)
    ensures s.writers[e.id].pc.Publish? ==> Apply(env, s, e) == LostCommit(s, e.id)
  {
  }

  /** Segments in flight do not concern any invocation's commit. */
  lemma PlacedSegment(inflight: set<(Key, Body)>, hist: seq<Commit>, id: Bytes, pc: Pc, k: Key, b: Body)
    requires Placed(inflight, hist, id, pc) && !b.CommitBody?
    ensures Placed(inflight + {(k, b)}, hist, id, pc)
  {
    assert forall k2, b2 :: Pending(inflight + {(k, b)}, hist, id, k2, b2) ==> Pending(inflight, hist, id, k2, b2);
    hide At;
  }

  lemma LoseSegment(env: Env, s: State, hist: seq<Commit>, id: Bytes)
    requires Inv(env, s, hist) && id in s.writers && s.writers[id].pc.SegmentCreate?
    ensures Inv(env, LostSegment(s, id), hist)
  {
    hide *;
    InvParts(env, s, hist);
    WriterParts(env, s, hist, id);
    var t, pc, w := LostSegment(s, id), s.writers[id].pc, LostSegment(s, id).writers[id];
    SegmentFacts(env, s.store, hist, id, pc);
    LostSegmentForm(env, s, hist, id);
    forall other | other in s.writers
      ensures Placed(t.inflight, hist, other, s.writers[other].pc)
    {
      WriterParts(env, s, hist, other);
      PlacedSegment(s.inflight, hist, other, s.writers[other].pc, pc.segment.key, pc.body);
    }
    SameStore(s.store);
    MoreFlights(env, s, hist, t, pc.segment.key, pc.body);
    PlacedWaiting(t.inflight, hist, id, s.writers[id].pc, w.pc);
    MakeWriterPlaced(env, t, hist, id, w);
    OneWriter(env, s, hist, id, t, hist, w);
  }

  /** Between two positions before publication nothing changes for the invocation. */
  lemma PlacedWaiting(inflight: set<(Key, Body)>, hist: seq<Commit>, id: Bytes, pc: Pc, pc2: Pc)
    requires Placed(inflight, hist, id, pc) && pc.SegmentCreate? && (pc2.SegmentCheck? || pc2.Carrying?)
    ensures Placed(inflight, hist, id, pc2)
  {
    hide Never, Once;
  }

  lemma MakeWriterPlaced(env: Env, s: State, hist: seq<Commit>, id: Bytes, w: Writer)
    requires Prepared(env, id, w.event) && PcOK(env, s.store, hist, id, w.pc) && Placed(s.inflight, hist, id, w.pc)
    ensures WriterOK(env, s, hist, id, w)
  {
    hide PcOK, Prepared, Placed;
  }

  lemma LostSegmentForm(env: Env, s: State, hist: seq<Commit>, id: Bytes)
    requires id in s.writers && s.writers[id].pc.SegmentCreate? && PcOK(env, s.store, hist, id, s.writers[id].pc)
    requires TrueObject(env, hist, s.writers[id].pc.segment.key, s.writers[id].pc.body)
    ensures
      var t, pc := LostSegment(s, id), s.writers[id].pc;
      t.store == s.store && t.inflight == s.inflight + {(pc.segment.key, pc.body)} && id in t.writers &&
      t.writers == s.writers[id := t.writers[id]] && t.writers[id].event == s.writers[id].event &&
      t.writers[id].pc.SegmentCheck? && PcOK(env, t.store, hist, id, t.writers[id].pc) && !pc.body.CommitBody? &&
      FlyingOK(env, s.store, hist, s.writers, pc.segment.key, pc.body)
  {
    hide Packs16, Segmented, ValidRef, TrueRef, Recs;
  }

  lemma MoreFlights(env: Env, s: State, hist: seq<Commit>, t: State, k: Key, b: Body)
    requires InflightOK(env, s, hist) && FlyingOK(env, s.store, hist, s.writers, k, b)
    requires t.inflight == s.inflight + {(k, b)} && t.store == s.store && s.writers.Keys <= t.writers.Keys
    requires KnownIds(s, hist)
    ensures InflightOK(env, t, hist) && KnownIds(t, hist)
  {
    hide FlyingOK, Grows;
    SameStore(s.store);
    forall k2, b2 | (k2, b2) in t.inflight
      ensures FlyingOK(env, t.store, hist, t.writers, k2, b2)
    {
      FlyingGrows(env, s.store, t.store, hist, hist, s.writers, t.writers, k2, b2);
    }
  }

  lemma LoseCommit(env: Env, s: State, hist: seq<Commit>, id: Bytes)
    requires Inv(env, s, hist) && id in s.writers && s.writers[id].pc.Publish?
    ensures Inv(env, LostCommit(s, id), hist)
  {
    hide *;
    InvParts(env, s, hist);
    WriterParts(env, s, hist, id);
    var t, c, w := LostCommit(s, id), s.writers[id].pc.commit, LostCommit(s, id).writers[id];
    LostCommitForm(env, s, hist, id);
    forall other | other in s.writers && other != id
      ensures Placed(t.inflight, hist, other, s.writers[other].pc)
    {
      WriterParts(env, s, hist, other);
      PlacedBeside(s.inflight, hist, other, s.writers[other].pc, c);
    }
    SameStore(s.store);
    MoreFlights(env, s, hist, t, LogKey(c.revision), EncodeCommit(c));
    PlacedLost(s.inflight, hist, c);
    MakeWriterPlaced(env, t, hist, id, w);
    OneWriter(env, s, hist, id, t, hist, w);
  }

  lemma LostCommitForm(env: Env, s: State, hist: seq<Commit>, id: Bytes)
    requires id in s.writers && s.writers[id].pc.Publish? && PcOK(env, s.store, hist, id, s.writers[id].pc)
    ensures
      var t, c := LostCommit(s, id), s.writers[id].pc.commit;
      t.store == s.store && t.inflight == s.inflight + {(LogKey(c.revision), EncodeCommit(c))} && id in t.writers &&
      t.writers == s.writers[id := t.writers[id]] && t.writers[id].event == s.writers[id].event && c.commitId == id &&
      t.writers[id].pc == Check(c, false) && PcOK(env, t.store, hist, id, t.writers[id].pc) &&
      FlyingOK(env, s.store, hist, s.writers, LogKey(c.revision), EncodeCommit(c))
  {
    hide Publishable;
  }

  lemma PlacedBeside(inflight: set<(Key, Body)>, hist: seq<Commit>, id: Bytes, pc: Pc, c: Commit)
    requires Placed(inflight, hist, id, pc) && c.commitId != id
    ensures Placed(inflight + {(LogKey(c.revision), EncodeCommit(c))}, hist, id, pc)
  {
    var more := inflight + {(LogKey(c.revision), EncodeCommit(c))};
    assert forall k2, b2 :: Pending(more, hist, id, k2, b2) ==> Pending(inflight, hist, id, k2, b2);
    hide At;
  }

  lemma PlacedLost(inflight: set<(Key, Body)>, hist: seq<Commit>, c: Commit)
    requires Never(inflight, hist, c.commitId)
    ensures Placed(inflight + {(LogKey(c.revision), EncodeCommit(c))}, hist, c.commitId, Check(c, false))
  {
    var more := inflight + {(LogKey(c.revision), EncodeCommit(c))};
    assert forall k2, b2 :: Pending(more, hist, c.commitId, k2, b2) ==> Pending(inflight, hist, c.commitId, k2, b2) || b2 == EncodeCommit(c);
    hide At;
  }

  // ---- A writer's own step ----

  /** The writer's step when it creates nothing. */
  lemma AdvanceQuiet(env: Env, s: State, hist: seq<Commit>, id: Bytes)
    requires ValidEnv(env) && Inv(env, s, hist) && id in s.writers && !Finished(s.writers[id].pc) && !s.writers[id].pc.Listing?
    requires Next(env, s.store, id, s.writers[id]).1.None?
    ensures Inv(env, With(s, id, Next(env, s.store, id, s.writers[id]).0), hist)
  {
    hide *;
    var w, w2 := s.writers[id], Next(env, s.store, id, s.writers[id]).0;
    InvParts(env, s, hist);
    WriterParts(env, s, hist, id);
    NextForm(env, s.store, id, w);
    if w.pc.Publish? || w.pc.Check? {
      CommitQuiet(env, s, hist, id);
    } else {
      CarryQuiet(env, s, hist, id);
      MakeWriter(env, s, hist, id, w2);
    }
    LocalStep(env, s, hist, id, w2);
  }

  /** Next, case by case. */
  lemma NextForm(env: Env, store: Store, id: Bytes, w: Writer)
    requires !Finished(w.pc) && !w.pc.Listing?
    ensures
      var n := Next(env, store, id, w);
      n.0.event == w.event &&
      (w.pc.Listed? || w.pc.Carrying? || w.pc.Packing? || w.pc.SegmentCreate? || w.pc.SegmentCheck? || w.pc.Publish? || w.pc.Check?) &&
      (n.1.Some? ==> (w.pc.SegmentCreate? && w.pc.level < 16 && w.pc.segment.key !in store && n == (w.(pc := CarryOver(w.pc)), Some((w.pc.segment.key, w.pc.body)))) ||
                     (w.pc.Publish? && LogKey(w.pc.commit.revision) !in store &&
                      n == (w.(pc := Done(w.pc.commit.revision)), Some((LogKey(w.pc.commit.revision), EncodeCommit(w.pc.commit))))))
  {
    hide LoadRoot, Enter, NextCarry, NextPack, CarryOver, SegmentChecked;
  }

  lemma CarryQuiet(env: Env, s: State, hist: seq<Commit>, id: Bytes)
    requires ValidEnv(env) && StoreOK(env, s.store, hist) && World(env, Reader(s.store), hist) && id in s.writers
    requires var w := s.writers[id]; Prepared(env, id, w.event) && PcOK(env, s.store, hist, id, w.pc)
    requires
      var pc := s.writers[id].pc;
      pc.Listed? || pc.Carrying? || pc.Packing? || pc.SegmentCreate? || pc.SegmentCheck?
    requires Next(env, s.store, id, s.writers[id]).1.None?
    ensures
      var pc := Next(env, s.store, id, s.writers[id]).0.pc;
      PcOK(env, s.store, hist, id, pc) && (pc.Failed? || (!pc.Check? && !pc.Done?))
  {
    hide *;
    var w := s.writers[id];
    match w.pc
    case Listed(head) =>
      ListedFacts(env, s.store, hist, id, head);
      RootLoads(env, s.store, hist, head, Corrupt);
      EnterOK(env, s.store, hist, head, id, w.event);
      NextListed(env, s.store, id, w);
    case Carrying(base, lv, ref, level) =>
      CarryingFacts(env, s.store, hist, id, w.pc);
      CarryStepOK(env, s.store, hist, id, w.event, base, lv, ref, level);
      NextCarrying(env, s.store, id, w);
    case Packing(_, _, _, _, _, _) =>
      PackStepOK(env, s.store, hist, id, w.pc);
      NextPacking(env, s.store, id, w);
    case SegmentCreate(_, _, _, _, _, _) =>
      SegmentFacts(env, s.store, hist, id, w.pc);
      NextExisting(env, s.store, hist, id, w);
    case SegmentCheck(_, _, _, _, _, _) =>
      SegmentCheckedOK(env, s.store, hist, id, w.pc);
      NextSegmentCheck(env, s.store, id, w);
  }

  lemma ListedFacts(env: Env, store: Store, hist: seq<Commit>, id: Bytes, head: int)
    requires PcOK(env, store, hist, id, Listed(head))
    ensures 1 <= head <= |hist|
  {
  }

  lemma CarryingFacts(env: Env, store: Store, hist: seq<Commit>, id: Bytes, pc: Pc)
    requires pc.Carrying? && PcOK(env, store, hist, id, pc)
    ensures Carries(env, store, hist, pc.base, pc.lv, pc.ref, pc.level)
  {
    hide Carries;
  }

  lemma NextListed(env: Env, store: Store, id: Bytes, w: Writer)
    requires w.pc.Listed? && LoadRoot(env, store, w.pc.head, Corrupt).Ok?
    ensures Next(env, store, id, w).0.pc == Enter(env, id, w.event, Some(LoadRoot(env, store, w.pc.head, Corrupt).value))
  {
    hide LoadRoot, Enter;
  }

  lemma NextCarrying(env: Env, store: Store, id: Bytes, w: Writer)
    requires w.pc.Carrying?
    ensures Next(env, store, id, w).0.pc == NextCarry(env, id, w.event, w.pc.base, w.pc.lv, w.pc.ref, w.pc.level)
  {
    hide NextCarry;
  }

  lemma NextPacking(env: Env, store: Store, id: Bytes, w: Writer)
    requires w.pc.Packing? && w.pc.level < 16 && |Children(w.pc.lv, w.pc.ref, w.pc.level)| == 16
    ensures Next(env, store, id, w).0.pc == NextPack(env, store, w.pc)
  {
    hide NextPack;
  }

  lemma NextSegmentCheck(env: Env, store: Store, id: Bytes, w: Writer)
    requires w.pc.SegmentCheck? && w.pc.level < 16
    ensures Next(env, store, id, w).0.pc == SegmentChecked(env, store, w.pc)
  {
    hide SegmentChecked;
  }

  lemma NextExisting(env: Env, store: Store, hist: seq<Commit>, id: Bytes, w: Writer)
    requires w.pc.SegmentCreate? && w.pc.level < 16 && PcOK(env, store, hist, id, w.pc)
    requires Next(env, store, id, w).1.None?
    ensures PcOK(env, store, hist, id, Next(env, store, id, w).0.pc) && Next(env, store, id, w).0.pc.SegmentCheck?
  {
    hide Packs16, Segmented, TrueBody;
  }

  lemma CommitQuiet(env: Env, s: State, hist: seq<Commit>, id: Bytes)
    requires ValidEnv(env) && Inv(env, s, hist) && id in s.writers && (s.writers[id].pc.Publish? || s.writers[id].pc.Check?)
    requires Next(env, s.store, id, s.writers[id]).1.None?
    ensures WriterOK(env, s, hist, id, Next(env, s.store, id, s.writers[id]).0)
  {
    hide *;
    var w, w2 := s.writers[id], Next(env, s.store, id, s.writers[id]).0;
    InvParts(env, s, hist);
    WriterParts(env, s, hist, id);
    if w.pc.Publish? {
      NextTaken(env, s.store, hist, id, w);
      PlacedTaken(s.inflight, hist, id, w.pc.commit);
    } else {
      PlacedCheck(s.inflight, hist, id, w.pc);
      CommitCheckedOK(env, s.store, hist, id, w);
      NextCheck(env, s.store, id, w);
      NextCheckedPc(env, s.store, hist, id, w2.pc);
      if LogKey(w.pc.commit.revision) in s.store && hist[w.pc.commit.revision - 1].commitId != id {
        LoserNever(env, s.store, s.inflight, hist, id, w.pc.commit);
      }
      PlacedAfter(s.inflight, hist, id, w2.pc);
    }
    MakeWriterPlaced(env, s, hist, id, w2);
  }

  lemma NextTaken(env: Env, store: Store, hist: seq<Commit>, id: Bytes, w: Writer)
    requires w.pc.Publish? && PcOK(env, store, hist, id, w.pc) && Next(env, store, id, w).1.None?
    ensures Next(env, store, id, w).0 == w.(pc := Check(w.pc.commit, true))
    ensures PcOK(env, store, hist, id, Check(w.pc.commit, true))
  {
    hide Publishable;
  }

  lemma PlacedTaken(inflight: set<(Key, Body)>, hist: seq<Commit>, id: Bytes, c: Commit)
    requires Never(inflight, hist, id)
    ensures Placed(inflight, hist, id, Check(c, true))
  {
    hide At, Pending;
  }

  lemma PlacedCheck(inflight: set<(Key, Body)>, hist: seq<Commit>, id: Bytes, pc: Pc)
    requires pc.Check? && Placed(inflight, hist, id, pc)
    ensures OnlyAt(inflight, hist, id, pc.commit) && forall r :: At(hist, id, r) ==> hist[r - 1] == pc.commit
  {
    hide Once;
  }

  lemma NextCheck(env: Env, store: Store, id: Bytes, w: Writer)
    requires w.pc.Check?
    ensures Next(env, store, id, w).0 == CommitChecked(env, store, id, w)
  {
    hide CommitChecked;
  }

  lemma NextCheckedPc(env: Env, store: Store, hist: seq<Commit>, id: Bytes, pc: Pc)
    requires pc == Failed(Io) || pc.Done? || pc.Listing? || pc.Conflicted?
    ensures PcOK(env, store, hist, id, pc)
  {
  }

  /** Whoever finds another commit at the attempted revision has none of its own anywhere. */
  lemma LoserNever(env: Env, store: Store, inflight: set<(Key, Body)>, hist: seq<Commit>, id: Bytes, c: Commit)
    requires World(env, Reader(store), hist) && OnlyAt(inflight, hist, id, c)
    requires 1 <= c.revision <= |hist| && hist[c.revision - 1].commitId != id
    ensures Never(inflight, hist, id)
  {
    hide World, Never, At;
    forall r
      ensures !At(hist, id, r)
    {
      NotAt(env, store, inflight, hist, id, c, r);
    }
    NonePending(inflight, hist, id, c);
  }

  lemma NotAt(env: Env, store: Store, inflight: set<(Key, Body)>, hist: seq<Commit>, id: Bytes, c: Commit, r: int)
    requires World(env, Reader(store), hist) && OnlyAt(inflight, hist, id, c)
    requires 1 <= c.revision <= |hist| && hist[c.revision - 1].commitId != id
    ensures !At(hist, id, r)
  {
    hide *;
    if At(hist, id, r) {
      AtParts(inflight, hist, id, c, r);
      RootRevision(env, Reader(store), hist, r);
    }
  }

  lemma AtParts(inflight: set<(Key, Body)>, hist: seq<Commit>, id: Bytes, c: Commit, r: int)
    requires OnlyAt(inflight, hist, id, c) && At(hist, id, r)
    ensures 1 <= r <= |hist| && hist[r - 1] == c && c.commitId == id
  {
  }

  lemma NonePending(inflight: set<(Key, Body)>, hist: seq<Commit>, id: Bytes, c: Commit)
    requires OnlyAt(inflight, hist, id, c) && c.revision <= |hist| && forall r :: !At(hist, id, r)
    ensures Never(inflight, hist, id)
  {
    hide At;
  }

  lemma PlacedAfter(inflight: set<(Key, Body)>, hist: seq<Commit>, id: Bytes, pc: Pc)
    requires Once(inflight, hist, id)
    requires match pc
             case Failed(_) => true
             case Done(r) => 1 <= r <= |hist| && hist[r - 1].commitId == id
             case _ => !pc.Check? && Never(inflight, hist, id)
    ensures Placed(inflight, hist, id, pc)
  {
    hide Once, Never;
  }

  lemma AdvanceSegment(env: Env, s: State, hist: seq<Commit>, id: Bytes)
    requires ValidEnv(env) && Inv(env, s, hist) && id in s.writers && s.writers[id].pc.SegmentCreate?
    requires s.writers[id].pc.level < 16 && s.writers[id].pc.segment.key !in s.store
    ensures
      var pc := s.writers[id].pc;
      Inv(env, With(s.(store := s.store[pc.segment.key := pc.body]), id, s.writers[id].(pc := CarryOver(pc))), hist)
  {
    hide *;
    var w, pc := s.writers[id], s.writers[id].pc;
    var w2 := w.(pc := CarryOver(pc));
    var t := With(s.(store := s.store[pc.segment.key := pc.body]), id, w2);
    WithForm(s, s.store[pc.segment.key := pc.body], id, w2);
    InvParts(env, s, hist);
    WriterParts(env, s, hist, id);
    SegmentCreated(env, s.store, hist, id, pc);
    GrowsByOne(s.store, pc.segment.key, pc.body);
    PlacedWaiting(s.inflight, hist, id, pc, CarryOver(pc));
    MakeWriterPlaced(env, t, hist, id, w2);
    forall other | other in s.writers
      ensures Placed(s.inflight, hist, other, s.writers[other].pc)
    {
      WriterParts(env, s, hist, other);
    }
    FlightsKept(env, s, hist, t, hist);
    IdsKept(s, hist, t, hist);
    OneWriter(env, s, hist, id, t, hist, w2);
  }

  lemma WithForm(s: State, store: Store, id: Bytes, w: Writer)
    ensures
      var t := With(s.(store := store), id, w);
      t.store == store && t.inflight == s.inflight && t.writers == s.writers[id := w] && s.writers.Keys <= t.writers.Keys
  {
  }

  lemma IdsKept(s: State, hist: seq<Commit>, t: State, longer: seq<Commit>)
    requires KnownIds(s, hist) && s.writers.Keys <= t.writers.Keys
    requires longer == hist || (|longer| == |hist| + 1 && longer[..|hist|] == hist && longer[|hist|].commitId in t.writers)
    ensures KnownIds(t, longer)
  {
  }

  lemma AdvanceCommit(env: Env, s: State, hist: seq<Commit>, id: Bytes)
    requires ValidEnv(env) && Inv(env, s, hist) && id in s.writers && s.writers[id].pc.Publish?
    requires LogKey(s.writers[id].pc.commit.revision) !in s.store
    ensures
      var c := s.writers[id].pc.commit;
      Inv(env, With(s.(store := s.store[LogKey(c.revision) := EncodeCommit(c)]), id, s.writers[id].(pc := Done(c.revision))), hist + [c])
  {
    hide *;
    var w, c := s.writers[id], s.writers[id].pc.commit;
    var w2 := w.(pc := Done(c.revision));
    var more := s.store[LogKey(c.revision) := EncodeCommit(c)];
    var t := With(s.(store := more), id, w2);
    WithForm(s, more, id, w2);
    InvParts(env, s, hist);
    WriterParts(env, s, hist, id);
    PublishFacts(env, s.store, hist, id, w.pc);
    CommitCreated(env, s.store, hist, c);
    GrowsByOne(s.store, LogKey(c.revision), EncodeCommit(c));
    OthersPlaced(env, s, hist, c);
    FlightsNear(env, s, hist, c);
    NeverAt(s.inflight, hist, id);
    PlacedOwn(s.inflight, hist, c, w2.pc);
    NextCheckedPc(env, more, hist + [c], id, w2.pc);
    MakeWriterPlaced(env, t, hist + [c], id, w2);
    FlightsKept(env, s, hist, t, hist + [c]);
    IdsKept(s, hist, t, hist + [c]);
    OneWriter(env, s, hist, id, t, hist + [c], w2);
  }

  lemma PublishFacts(env: Env, store: Store, hist: seq<Commit>, id: Bytes, pc: Pc)
    requires pc.Publish? && PcOK(env, store, hist, id, pc)
    ensures Publishable(env, store, hist, pc.commit) && pc.commit.commitId == id
  {
    hide Publishable;
  }

  lemma NeverAt(inflight: set<(Key, Body)>, hist: seq<Commit>, id: Bytes)
    requires Never(inflight, hist, id)
    ensures forall r :: !At(hist, id, r)
  {
  }

  lemma OthersPlaced(env: Env, s: State, hist: seq<Commit>, c: Commit)
    requires Inv(env, s, hist)
    ensures forall other :: other in s.writers && other != c.commitId ==> Placed(s.inflight, hist + [c], other, s.writers[other].pc)
  {
    forall other | other in s.writers && other != c.commitId
      ensures Placed(s.inflight, hist + [c], other, s.writers[other].pc)
    {
      hide *;
      WriterParts(env, s, hist, other);
      PlacedOther(s.inflight, hist, c, other, s.writers[other].pc);
    }
  }

  // ---- A create landing after its caller saw an error ----

  lemma LandSegment(env: Env, s: State, hist: seq<Commit>, k: Key, b: Body)
    requires Inv(env, s, hist) && (k, b) in s.inflight && k !in s.store && !k.LogKey?
    ensures Inv(env, s.(store := s.store[k := b]), hist)
  {
    hide *;
    InvParts(env, s, hist);
    FlightFacts(env, s, hist, k, b);
    SegmentLands(env, s.store, hist, k, b);
    GrowsByOne(s.store, k, b);
    forall id | id in s.writers
      ensures Placed(s.inflight, hist, id, s.writers[id].pc)
    {
      WriterParts(env, s, hist, id);
    }
    Everyone(env, s, hist, s.store[k := b], hist);
  }

  lemma FlightFacts(env: Env, s: State, hist: seq<Commit>, k: Key, b: Body)
    requires InflightOK(env, s, hist) && (k, b) in s.inflight
    ensures !k.LogKey? ==> TrueObject(env, hist, k, b)
    ensures k.LogKey? ==>
              b.CommitBody? && k == LogKey(b.commit.revision) && b == EncodeCommit(b.commit) &&
              Publishable(env, s.store, hist, b.commit) && b.commit.commitId in s.writers
  {
    assert FlyingOK(env, s.store, hist, s.writers, k, b);
    hide Publishable, TrueObject;
  }

  /** The store and the log grew; no writer moved. */
  lemma Everyone(env: Env, s: State, hist: seq<Commit>, more: Store, longer: seq<Commit>)
    requires Inv(env, s, hist) && Grows(s.store, more) && hist <= longer && StoreOK(env, more, longer)
    requires forall id :: id in s.writers ==> Placed(s.inflight, longer, id, s.writers[id].pc)
    requires longer == hist || (|longer| == |hist| + 1 && longer[|hist|].commitId in s.writers)
    ensures Inv(env, s.(store := more), longer)
  {
    var t := s.(store := more);
    hide Grows, StoreOK, Placed, PcOK, InflightOK;
    forall id | id in t.writers
      ensures WriterOK(env, t, longer, id, t.writers[id])
    {
      assert WriterOK(env, s, hist, id, s.writers[id]);
      PcGrows(env, s.store, more, hist, longer, id, s.writers[id].pc);
    }
    FlightsKept(env, s, hist, t, longer);
  }

  lemma LandCommit(env: Env, s: State, hist: seq<Commit>, k: Key, b: Body)
    requires Inv(env, s, hist) && (k, b) in s.inflight && k !in s.store && k.LogKey?
    ensures b.CommitBody? && Inv(env, s.(store := s.store[k := b]), hist + [b.commit])
  {
    hide *;
    InvParts(env, s, hist);
    FlightFacts(env, s, hist, k, b);
    var c := b.commit;
    CommitCreated(env, s.store, hist, c);
    GrowsByOne(s.store, k, b);
    OthersPlaced(env, s, hist, c);
    WriterParts(env, s, hist, c.commitId);
    FlightsNear(env, s, hist, c);
    LandingPc(s.inflight, hist, c, s.writers[c.commitId].pc, k);
    PlacedOwn(s.inflight, hist, c, s.writers[c.commitId].pc);
    Everyone(env, s, hist, s.store[k := b], hist + [c]);
  }

  /** Only an invocation that saw an error can still have a create under way. */
  lemma LandingPc(inflight: set<(Key, Body)>, hist: seq<Commit>, c: Commit, pc: Pc, k: Key)
    requires Placed(inflight, hist, c.commitId, pc) && (k, EncodeCommit(c)) in inflight && c.revision > |hist|
    ensures pc.Failed? || (pc.Check? && pc.commit == c)
    ensures forall r :: !At(hist, c.commitId, r)
  {
    assert Pending(inflight, hist, c.commitId, k, EncodeCommit(c));
  }

  // ---- Every step, every run ----

  lemma StepKeeps(env: Env, s: State, hist: seq<Commit>, t: State) returns (longer: seq<Commit>)
    requires ValidEnv(env) && Inv(env, s, hist) && Step(env, s, t)
    ensures Inv(env, t, longer)
    ensures longer == hist || (|longer| == |hist| + 1 && longer[..|hist|] == hist)
  {
    var e :| Enabled(env, s, e) && t == Apply(env, s, e);
    hide *;
    longer := EventKeeps(env, s, hist, e);
  }

  /** The log after one step: unchanged, or one commit longer. */
  lemma EventKeeps(env: Env, s: State, hist: seq<Commit>, e: Event) returns (longer: seq<Commit>)
    requires ValidEnv(env) && Inv(env, s, hist) && Enabled(env, s, e)
    ensures Inv(env, Apply(env, s, e), longer)
    ensures longer == hist || (|longer| == |hist| + 1 && longer[..|hist|] == hist)
    ensures e.AppendTo? ==> longer == hist
  {
    hide *;
    longer := hist;
    match e
    case Append(_, _, _) => BeginOK(env, s, hist, e);
    case AppendTo(_, _, _) => BeginOK(env, s, hist, e);
    case List(_, _) => ListOK(env, s, hist, e);
    case Lose(_) => LoseOK(env, s, hist, e);
    case Fail(_) => FailOK(env, s, hist, e);
    case Advance(id) => longer := AdvanceKeeps(env, s, hist, e);
    case Land(k, b) =>
      LandForm(env, s, e);
      if k.LogKey? {
        LandCommit(env, s, hist, k, b);
        longer := hist + [b.commit];
      } else {
        LandSegment(env, s, hist, k, b);
      }
  }

  lemma LandForm(env: Env, s: State, e: Event)
    requires Enabled(env, s, e) && e.Land?
    ensures (e.key, e.body) in s.inflight && e.key !in s.store && Apply(env, s, e) == s.(store := s.store[e.key := e.body])
  {
  }

  lemma AdvanceKeeps(env: Env, s: State, hist: seq<Commit>, e: Event) returns (longer: seq<Commit>)
    requires ValidEnv(env) && Inv(env, s, hist) && Enabled(env, s, e) && e.Advance?
    ensures Inv(env, Apply(env, s, e), longer)
    ensures longer == hist || (|longer| == |hist| + 1 && longer[..|hist|] == hist)
  {
    hide *;
    AdvanceForm(env, s, e);
    var id, w := e.id, s.writers[e.id];
    NextForm(env, s.store, id, w);
    longer := hist;
    if Next(env, s.store, id, w).1.None? {
      AdvanceQuiet(env, s, hist, id);
    } else if w.pc.SegmentCreate? {
      AdvanceSegment(env, s, hist, id);
    } else {
      AdvanceCommit(env, s, hist, id);
      longer := hist + [w.pc.commit];
    }
  }

  lemma AdvanceForm(env: Env, s: State, e: Event)
    requires Enabled(env, s, e) && e.Advance?
    ensures e.id in s.writers && !Finished(s.writers[e.id].pc) && !s.writers[e.id].pc.Listing?
    ensures
      var n := Next(env, s.store, e.id, s.writers[e.id]);
      (n.1.None? ==> Apply(env, s, e) == With(s, e.id, n.0)) &&
      (n.1.Some? && n.1.value.0 !in s.store ==>
         Apply(env, s, e) == With(s.(store := s.store[n.1.value.0 := n.1.value.1]), e.id, n.0))
  {
    hide Next;
  }

  lemma Begins(env: Env)
    ensures Inv(env, INITIAL, [])
  {
  }

  /** The log of every state of a run: honest, complete, and only ever extended. */
  lemma {:induction false} RunKeeps(env: Env, states: seq<State>) returns (logs: seq<seq<Commit>>)
    requires ValidEnv(env) && Run(env, states)
    ensures |logs| == |states| && forall i :: 0 <= i < |states| ==> Inv(env, states[i], logs[i])
    ensures forall i, j :: 0 <= i <= j < |logs| ==> logs[i] <= logs[j]
  {
    hide Inv, Step;
    var n := |states| - 1;
    if n == 0 {
      Begins(env);
      logs := [[]];
    } else {
      var before := RunKeeps(env, states[..n]);
      assert Step(env, states[n - 1], states[n]);
      var longer := StepKeeps(env, states[n - 1], before[n - 1], states[n]);
      logs := before + [longer];
      assert before[n - 1] <= longer;
    }
  }
}
