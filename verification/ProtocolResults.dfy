/**
 What callers of Append, AppendTo, LoadHead and Scan may rely on in any run of the
 protocol, stated on the shared store.
 */
module ProtocolResults {
  import opened Wrappers
  import opened Wire
  import opened Carry
  import opened Segment
  import opened History
  import opened ReadPlan
  import opened Scan
  import opened ScanIntact
  import opened ScanSound
  import opened Protocol
  import opened ProtocolSafe
  import opened ProtocolRuns
  import Frontier

  // ---- Commits carry their invocation's batch on its base ----

  /** A commit with the batch, and for AppendTo the position, its invocation asked for. */
  predicate Authored(writers: map<Bytes, Writer>, c: Commit) {
    c.commitId in writers &&
    var w := writers[c.commitId];
    c.event == w.event && (w.base.Some? ==> c.revision == w.base.value + 1)
  }

  predicate OnBase(w: Writer, base: Snapshot) {
    w.base.Some? ==> base.commit.revision == w.base.value
  }

  predicate PcAuthored(id: Bytes, w: Writer) {
    match w.pc
    case Listing => w.base.None?
    case Listed(_) => w.base.None?
    case Carrying(base, _, _, _) => OnBase(w, base)
    case Packing(base, _, _, _, _, _) => OnBase(w, base)
    case SegmentCreate(base, _, _, _, _, body) => OnBase(w, base) && body.SegmentBody?
    case SegmentCheck(base, _, _, _, _, _) => OnBase(w, base)
    case Publish(c) => c.commitId == id && c.event == w.event && (w.base.Some? ==> c.revision == w.base.value + 1)
    case Check(c, _) => c.commitId == id && c.event == w.event && (w.base.Some? ==> c.revision == w.base.value + 1)
    case Done(r) => w.base.Some? ==> r == w.base.value + 1
    case Conflicted => true
    case Failed(_) => true
  }

  predicate WriterAuthored(id: Bytes, w: Writer) {
    PcAuthored(id, w) && (w.base.Some? ==> w.retries == 0)
  }

  ghost predicate AllAuthored(s: State) {
    && (forall k :: k in s.store && s.store[k].CommitBody? ==> Authored(s.writers, s.store[k].commit))
    && (forall k, b :: (k, b) in s.inflight && b.CommitBody? ==> Authored(s.writers, b.commit))
    && (forall id :: id in s.writers ==> WriterAuthored(id, s.writers[id]))
  }

  /** A writer keeps its batch and base for good. */
  predicate SameCall(w: Writer, w2: Writer) {
    w2.event == w.event && w2.base == w.base
  }

  lemma AuthoredKept(s: State, id: Bytes, w: Writer, c: Commit)
    requires Authored(s.writers, c) && (id in s.writers ==> SameCall(s.writers[id], w))
    ensures Authored(s.writers[id := w], c)
  {
  }

  lemma WriterMoves(s: State, id: Bytes, w: Writer)
    requires AllAuthored(s) && (id in s.writers ==> SameCall(s.writers[id], w)) && WriterAuthored(id, w)
    ensures AllAuthored(With(s, id, w))
  {
    hide Authored, WriterAuthored, SameCall;
    forall c: Commit | Authored(s.writers, c)
      ensures Authored(s.writers[id := w], c)
    {
      AuthoredKept(s, id, w, c);
    }
  }

  lemma BuildAuthored(env: Env, id: Bytes, w: Writer, base: Option<Commit>, frontier: seq<FrontierLevel>)
    requires w.base.Some? ==> w.retries == 0 && w.base.value == if base.Some? then base.value.revision else 0
    ensures WriterAuthored(id, w.(pc := Build(env, id, w.event, base, frontier)))
  {
    hide FrontierOK, DecodeCommit;
  }

  lemma EnterAuthored(env: Env, id: Bytes, w: Writer, base: Option<Snapshot>)
    requires w.base.Some? ==> w.retries == 0 && w.base.value == if base.Some? then base.value.commit.revision else 0
    ensures WriterAuthored(id, w.(pc := Enter(env, id, w.event, base)))
  {
    hide Build, WriterAuthored, Spread;
    if base.None? {
      BuildAuthored(env, id, w, None, []);
    } else {
      CarryingAuthored(id, w, base.value, Spread(base.value.commit.frontier), CommitRef(env, base.value.commit, base.value.body));
    }
  }

  lemma CarryingAuthored(id: Bytes, w: Writer, base: Snapshot, lv: Levels, ref: ObjectRef)
    ensures (w.base.Some? ==> w.retries == 0) && OnBase(w, base) ==> WriterAuthored(id, w.(pc := Carrying(base, lv, ref, 0)))
    ensures (w.base.Some? ==> w.retries == 0) ==> WriterAuthored(id, w.(pc := Failed(Exhausted)))
  {
  }

  lemma NextAuthored(env: Env, store: Store, id: Bytes, w: Writer)
    requires WriterAuthored(id, w)
    ensures var n := Next(env, store, id, w);
      SameCall(w, n.0) && WriterAuthored(id, n.0)
    ensures var n := Next(env, store, id, w);
      n.1.Some? && n.1.value.1.CommitBody? ==>
        var c := n.1.value.1.commit;
        c.commitId == id && c.event == w.event && (w.base.Some? ==> c.revision == w.base.value + 1)
  {
    hide *;
    match w.pc
    case Listed(_) => ListedAuthored(env, store, id, w);
    case Carrying(_, _, _, _) => CarriedAuthored(env, store, id, w);
    case _ => OthersAuthored(env, store, id, w);
  }

  lemma ListedAuthored(env: Env, store: Store, id: Bytes, w: Writer)
    requires w.pc.Listed? && WriterAuthored(id, w)
    ensures var n := Next(env, store, id, w); SameCall(w, n.0) && WriterAuthored(id, n.0) && n.1.None?
  {
    hide LoadRoot, Enter;
    if LoadRoot(env, store, w.pc.head, Corrupt).Ok? {
      EnterAuthored(env, id, w, Some(LoadRoot(env, store, w.pc.head, Corrupt).value));
    }
  }

  lemma CarriedAuthored(env: Env, store: Store, id: Bytes, w: Writer)
    requires w.pc.Carrying? && WriterAuthored(id, w)
    ensures var n := Next(env, store, id, w); SameCall(w, n.0) && WriterAuthored(id, n.0) && n.1.None?
  {
    hide Build, Frontier.Gather;
    var base, lv, ref, level := w.pc.base, w.pc.lv, w.pc.ref, w.pc.level;
    BuildAuthored(env, id, w, Some(base.commit), Frontier.Gather(lv, 16));
    if level < 16 {
      BuildAuthored(env, id, w, Some(base.commit), Frontier.Gather(Push(lv, level, ref), 16));
    }
  }

  lemma OthersAuthored(env: Env, store: Store, id: Bytes, w: Writer)
    requires !w.pc.Listed? && !w.pc.Carrying? && WriterAuthored(id, w)
    ensures var n := Next(env, store, id, w); SameCall(w, n.0) && WriterAuthored(id, n.0)
    ensures var n := Next(env, store, id, w);
      n.1.Some? && n.1.value.1.CommitBody? ==>
        var c := n.1.value.1.commit;
        c.commitId == id && c.event == w.event && (w.base.Some? ==> c.revision == w.base.value + 1)
  {
    hide LoadRoot, NextPack, SegmentChecked;
    match w.pc
    case Packing(_, lv, ref, level, _, _) =>
      if level < 16 && |Children(lv, ref, level)| == 16 {
        PackKeepsBase(env, store, w.pc);
      }
    case SegmentCheck(_, _, _, level, _, _) =>
      if level < 16 {
        CheckKeepsBase(env, store, w.pc);
      }
    case _ =>
  }

  lemma PackKeepsBase(env: Env, store: Store, pc: Pc)
    requires pc.Packing? && pc.level < 16 && |Children(pc.lv, pc.ref, pc.level)| == 16
    ensures var next := NextPack(env, store, pc);
      next.Failed? || (next.Packing? && next.base == pc.base) ||
      (next.SegmentCreate? && next.base == pc.base && next.body.SegmentBody?)
  {
    hide LoadRecords, Packable, Adjacent, SegmentRef;
  }

  lemma CheckKeepsBase(env: Env, store: Store, pc: Pc)
    requires pc.SegmentCheck? && pc.level < 16
    ensures var next := SegmentChecked(env, store, pc); next.Failed? || (next.Carrying? && next.base == pc.base)
  {
    hide DecodeSegment;
  }

  lemma StepAuthored(env: Env, s: State, e: Event)
    requires AllAuthored(s) && Enabled(env, s, e)
    ensures AllAuthored(Apply(env, s, e))
  {
    hide *;
    match e
    case Append(id, event, retries) => BeginAuthored(env, s, e);
    case AppendTo(id, event, base) => BeginAuthored(env, s, e);
    case List(id, head) => ListAuthored(env, s, e);
    case Advance(id) => AdvanceAuthored(env, s, e);
    case Lose(id) => LoseAuthored(env, s, e);
    case Fail(id) => FailAuthored(env, s, e);
    case Land(k, b) => LandAuthored(env, s, e);
  }

  lemma BeginAuthored(env: Env, s: State, e: Event)
    requires AllAuthored(s) && Enabled(env, s, e) && (e.Append? || e.AppendTo?)
    ensures AllAuthored(Apply(env, s, e))
  {
    hide AllAuthored, WriterAuthored, Enter, DecodeCommit, Prepared;
    var t := Apply(env, s, e);
    var w := t.writers[e.id];
    if e.Append? {
      ListingAuthored(e.id, w);
    } else {
      RootRevisionIs(env, s.store, e.base);
      var root := if e.base == 0 then None else Some(LoadRoot(env, s.store, e.base, NotFound).value);
      EnterAuthored(env, e.id, w, root);
      assert w.(pc := Enter(env, e.id, w.event, root)) == w;
    }
    WriterMoves(s, e.id, w);
  }

  lemma ListingAuthored(id: Bytes, w: Writer)
    requires w.pc.Listing? && w.base.None?
    ensures WriterAuthored(id, w)
  {
  }

  lemma RootRevisionIs(env: Env, store: Store, revision: int)
    ensures LoadRoot(env, store, revision, NotFound).Ok? ==> LoadRoot(env, store, revision, NotFound).value.commit.revision == revision
  {
    hide ValidProjection, FrontierOK;
  }

  lemma ListAuthored(env: Env, s: State, e: Event)
    requires AllAuthored(s) && Enabled(env, s, e) && e.List?
    ensures AllAuthored(Apply(env, s, e))
  {
    hide Enter, Authored;
    var w := s.writers[e.id];
    assert WriterAuthored(e.id, w);
    EnterAuthored(env, e.id, w, None);
    WriterMoves(s, e.id, Apply(env, s, e).writers[e.id]);
  }

  lemma FailAuthored(env: Env, s: State, e: Event)
    requires AllAuthored(s) && Enabled(env, s, e) && e.Fail?
    ensures AllAuthored(Apply(env, s, e))
  {
    hide Authored;
    assert WriterAuthored(e.id, s.writers[e.id]);
    WriterMoves(s, e.id, s.writers[e.id].(pc := Failed(Io)));
  }

  lemma LandAuthored(env: Env, s: State, e: Event)
    requires AllAuthored(s) && Enabled(env, s, e) && e.Land?
    ensures AllAuthored(Apply(env, s, e))
  {
    hide Authored, WriterAuthored;
  }

  lemma LoseAuthored(env: Env, s: State, e: Event)
    requires AllAuthored(s) && Enabled(env, s, e) && e.Lose?
    ensures AllAuthored(Apply(env, s, e))
  {
    hide *;
    LoseForm(env, s, e);
    LostAuthored(s, e.id);
  }

  lemma LostAuthored(s: State, id: Bytes)
    requires AllAuthored(s) && id in s.writers && (s.writers[id].pc.SegmentCreate? || s.writers[id].pc.Publish?)
    ensures s.writers[id].pc.SegmentCreate? ==> AllAuthored(LostSegment(s, id))
    ensures s.writers[id].pc.Publish? ==> AllAuthored(LostCommit(s, id))
  {
    var w := s.writers[id];
    assert WriterAuthored(id, w);
    var t := if w.pc.SegmentCreate? then LostSegment(s, id) else LostCommit(s, id);
    assert WriterAuthored(id, t.writers[id]);
    WriterMoves(s, id, t.writers[id]);
    if w.pc.Publish? {
      assert Authored(t.writers, w.pc.commit);
    }
    hide Authored, WriterAuthored;
  }

  lemma AdvanceAuthored(env: Env, s: State, e: Event)
    requires AllAuthored(s) && Enabled(env, s, e) && e.Advance?
    ensures AllAuthored(Apply(env, s, e))
  {
    var id, w := e.id, s.writers[e.id];
    assert WriterAuthored(id, w);
    var n := Next(env, s.store, id, w);
    hide Next, WriterAuthored;
    NextAuthored(env, s.store, id, w);
    WriterMoves(s, id, n.0);
    var t := Apply(env, s, e);
    if n.1.Some? && n.1.value.1.CommitBody? {
      assert Authored(t.writers, n.1.value.1.commit);
    }
    hide Authored;
  }

  lemma {:induction false} RunAuthored(env: Env, states: seq<State>)
    requires Run(env, states)
    ensures forall i :: 0 <= i < |states| ==> AllAuthored(states[i])
  {
    hide AllAuthored, Step;
    var n := |states| - 1;
    if n == 0 {
      StartAuthored();
    } else {
      RunAuthored(env, states[..n]);
      assert Step(env, states[n - 1], states[n]) && states[..n][n - 1] == states[n - 1];
      StepIsEvent(env, states[n - 1], states[n]);
    }
  }

  lemma StartAuthored()
    ensures AllAuthored(INITIAL)
  {
  }

  lemma StepIsEvent(env: Env, s: State, t: State)
    requires Step(env, s, t) && AllAuthored(s)
    ensures AllAuthored(t)
  {
    var e :| Enabled(env, s, e) && t == Apply(env, s, e);
    hide *;
    StepAuthored(env, s, e);
  }

  // ---- The shared store ----

  /** The store holds a commit of this invocation at revision r. */
  predicate Holds(store: Store, id: Bytes, r: int) {
    LogKey(r) in store && store[LogKey(r)].CommitBody? && store[LogKey(r)].commit.commitId == id
  }

  /** The commits of the store are exactly hist. */
  ghost predicate IsLog(store: Store, hist: seq<Commit>) {
    && (forall r :: LogKey(r) in store <==> 1 <= r <= |hist|)
    && (forall r :: 1 <= r <= |hist| ==> store[LogKey(r)] == EncodeCommit(hist[r - 1]))
  }

  lemma InvIsLog(env: Env, s: State, hist: seq<Commit>)
    requires Inv(env, s, hist)
    ensures IsLog(s.store, hist) && World(env, Reader(s.store), hist)
  {
    InvParts(env, s, hist);
    hide Inv, WritersOK, InflightOK, StoreOK, TrueObject;
    forall r | LogKey(r) in s.store
      ensures 1 <= r <= |hist|
    {
      LogKeyIsNoSegment(env, hist, LogKey(r), s.store[LogKey(r)]);
    }
    forall r | 1 <= r <= |hist|
      ensures LogKey(r) in s.store && s.store[LogKey(r)] == EncodeCommit(hist[r - 1])
    {
      CommitServed(env, Reader(s.store), hist, r);
    }
  }

  lemma LogUnique(store: Store, a: seq<Commit>, b: seq<Commit>)
    requires IsLog(store, a) && IsLog(store, b)
    ensures a == b
  {
    assert |a| > 0 ==> LogKey(|a|) in store;
    assert |b| > 0 ==> LogKey(|b|) in store;
    forall i | 0 <= i < |a|
      ensures a[i] == b[i]
    {
      assert LogKey(i + 1) in store;
      assert EncodeCommit(a[i]) == EncodeCommit(b[i]);
    }
  }

  /** Each commit names its predecessor by key and record hash. */
  ghost predicate Linked(hist: seq<Commit>) {
    forall i :: 1 <= i < |hist| ==> hist[i].previous == Some(Previous(LogKey(i), hist[i - 1].recordHash))
  }

  lemma LogLinked(env: Env, store: Store, hist: seq<Commit>)
    requires World(env, Reader(store), hist)
    ensures Linked(hist)
  {
    forall i | 1 <= i < |hist|
      ensures hist[i].previous == Some(Previous(LogKey(i), hist[i - 1].recordHash))
    {
      assert HonestAt(env, hist, i + 1);
      hide ValidProjection, FrontierOK, AllTrue;
    }
  }

  /** What LoadHead's one-key List finds is the head. */
  lemma HeadIsLast(store: Store, hist: seq<Commit>, head: int)
    requires IsLog(store, hist)
    ensures IsHead(store, head) <==> head == |hist|
  {
    assert |hist| > 0 ==> LogKey(|hist|) in store;
    assert head != 0 && LogKey(head) in store ==> 1 <= head <= |hist|;
  }

  /** In any run the commits of the store are always exactly revisions 1..HEAD of an honest
      log, each naming its predecessor, which can be read in full and which every later
      state extends. */
  lemma HistoryOnlyGrows(env: Env, states: seq<State>, i: nat, j: nat) returns (log: seq<Commit>, later: seq<Commit>)
    requires ValidEnv(env) && Run(env, states) && i <= j < |states|
    ensures IsLog(states[i].store, log) && World(env, Reader(states[i].store), log)
    ensures IsLog(states[j].store, later) && World(env, Reader(states[j].store), later)
    ensures log <= later && Linked(later)
    ensures forall head :: IsHead(states[j].store, head) <==> head == |later|
  {
    var logs := RunKeeps(env, states);
    hide Inv, World, IsLog, Run, IsHead, Linked;
    log, later := logs[i], logs[j];
    InvIsLog(env, states[i], log);
    InvIsLog(env, states[j], later);
    LogLinked(env, states[j].store, later);
    forall head
      ensures IsHead(states[j].store, head) <==> head == |later|
    {
      HeadIsLast(states[j].store, later, head);
    }
  }

  /** The answer for a key comes from some state of the run from i on. A scan fetches no key
      twice, so this is a scan whose Gets happen at any times while the run goes on. */
  ghost predicate Answered(states: seq<State>, i: nat, get: Getter, k: Key) {
    exists m :: i <= m < |states| && get(k) == Reader(states[m].store)(k)
  }

  /** What a state published is served, unchanged, by every later one. */
  ghost predicate Served(env: Env, states: seq<State>, i: nat, log: seq<Commit>) {
    forall m :: i <= m < |states| ==> World(env, Reader(states[m].store), log)
  }

  lemma StillServed(env: Env, states: seq<State>, i: nat) returns (log: seq<Commit>)
    requires ValidEnv(env) && Run(env, states) && i < |states|
    ensures IsLog(states[i].store, log) && Served(env, states, i, log)
  {
    var logs := RunKeeps(env, states);
    log := logs[i];
    hide Inv, World, IsLog, Run;
    InvIsLog(env, states[i], log);
    forall m | i <= m < |states|
      ensures World(env, Reader(states[m].store), log)
    {
      InvIsLog(env, states[m], logs[m]);
      assert logs[i] <= logs[m];
      WorldPrefix(env, states[m].store, logs[m], |log|);
      assert logs[m][..|log|] == log;
    }
  }

  lemma ServedAtOnce(env: Env, states: seq<State>, i: nat, log: seq<Commit>)
    requires Served(env, states, i, log) && i < |states|
    ensures World(env, Reader(states[i].store), log) && Honest(env, log)
  {
    hide World;
    WorldHonest(env, Reader(states[i].store), log);
  }

  lemma AnsweredCommit(env: Env, states: seq<State>, i: nat, log: seq<Commit>, get: Getter, r: int)
    requires Served(env, states, i, log) && Answered(states, i, get, LogKey(r)) && 1 <= r <= |log|
    ensures get(LogKey(r)) == Ok(EncodeCommit(log[r - 1]))
  {
    hide World, DecodeCommit;
    var m :| i <= m < |states| && get(LogKey(r)) == Reader(states[m].store)(LogKey(r));
    CommitServed(env, Reader(states[m].store), log, r);
  }

  lemma AnsweredRef(env: Env, states: seq<State>, i: nat, log: seq<Commit>, get: Getter, r: int, x: ObjectRef)
    requires Served(env, states, i, log) && Answered(states, i, get, x.key)
    requires 1 <= r <= |log| && x in Refs(log[r - 1].frontier)
    ensures Good(env, get, log, x)
  {
    hide World, IsTrue, TrueBody, Refs;
    var m :| i <= m < |states| && get(x.key) == Reader(states[m].store)(x.key);
    FrontierGood(env, Reader(states[m].store), log, r);
    assert Good(env, Reader(states[m].store), log, x);
  }

  /** Answers from later states make up an intact store of the log. */
  lemma AnswersIntact(env: Env, states: seq<State>, i: nat, log: seq<Commit>, get: Getter)
    requires Served(env, states, i, log) && i < |states| && (forall k :: Answered(states, i, get, k))
    ensures World(env, get, log)
  {
    ServedAtOnce(env, states, i, log);
    hide Served, Answered, Honest, TrueBody, IsTrue, Refs;
    forall r | 1 <= r <= |log|
      ensures ServedAt(env, get, log, r)
    {
      assert Answered(states, i, get, LogKey(r));
      AnsweredCommit(env, states, i, log, get, r);
      var refs := Refs(log[r - 1].frontier);
      forall n | 0 <= n < |refs|
        ensures InLog(log, refs[n].level, refs[n].start) && Serves(env, get, log, refs[n])
      {
        assert Answered(states, i, get, refs[n].key);
        AnsweredRef(env, states, i, log, get, r, refs[n]);
        TrueInLog(env, log, refs[n]);
      }
    }
  }

  lemma TrueInLog(env: Env, log: seq<Commit>, x: ObjectRef)
    requires IsTrue(env, log, x)
    ensures InLog(log, x.level, x.start)
  {
  }

  /** Any reader of any root some state of the run published, fetching while the run goes on,
      gets exactly the requested records of that root's log. */
  lemma ReadersAgree(env: Env, states: seq<State>, i: nat, get: Getter, head: int, r: Range, cheaper: Cheaper, ctl: Control)
    returns (log: seq<Commit>)
    requires ValidEnv(env) && Run(env, states) && i < |states| && (forall k :: Answered(states, i, get, k))
    requires Willing(ctl) && ValidRange(r) && (head == 0 || LogKey(head) in states[i].store)
    ensures IsLog(states[i].store, log) && 0 <= head <= |log|
    ensures
      var res := ScanLog(env, get, SnapshotAt(log, head), r, cheaper, ctl);
      res.out == Requested(log, head, r) && res.err == None
  {
    log := StillServed(env, states, i);
    assert 0 <= head <= |log|;
    hide *;
    AnswersIntact(env, states, i, log, get);
    ScanDelivers(env, get, log, head, r, cheaper, ctl);
  }

  /** When some reads fail besides, and the reader may be stopped at any point, it has got a
      prefix of those records. */
  lemma ReadersNeverMisled(env: Env, states: seq<State>, i: nat, get: Getter, head: int, r: Range, cheaper: Cheaper, ctl: Control)
    returns (log: seq<Commit>)
    requires ValidEnv(env) && Run(env, states) && i < |states|
    requires forall k :: get(k).Ok? ==> Answered(states, i, get, k)
    requires ValidRange(r) && (head == 0 || LogKey(head) in states[i].store)
    ensures IsLog(states[i].store, log) && 0 <= head <= |log|
    ensures
      var res := ScanLog(env, get, SnapshotAt(log, head), r, cheaper, ctl);
      res.out <= Requested(log, head, r) && (res.err.None? ==> res.out == Requested(log, head, r))
  {
    log := StillServed(env, states, i);
    assert 0 <= head <= |log|;
    hide *;
    AnswersReliable(env, states, i, log, get);
    ScanNeverLies(env, get, log, head, r, cheaper, ctl);
  }

  lemma AnswersReliable(env: Env, states: seq<State>, i: nat, log: seq<Commit>, get: Getter)
    requires Served(env, states, i, log) && i < |states| && (forall k :: get(k).Ok? ==> Answered(states, i, get, k))
    ensures Reliable(env, get, log)
  {
    ServedAtOnce(env, states, i, log);
    hide Served, Answered, Honest, TrueBody, IsTrue, Refs;
    forall r | 1 <= r <= |log|
      ensures UndamagedAt(env, get, log, r)
    {
      if get(LogKey(r)).Ok? {
        AnsweredCommit(env, states, i, log, get, r);
      }
      forall x | x in Refs(log[r - 1].frontier)
        ensures TrueOrError(env, get, log, x)
      {
        if get(x.key).Ok? {
          AnsweredRef(env, states, i, log, get, r, x);
          TrueInLog(env, log, x);
        }
      }
    }
  }

  // ---- One invocation ----

  /** However its creates were lost, retried or delayed, an invocation never has commits at
      two revisions. */
  lemma AtMostOnce(env: Env, states: seq<State>, i: nat, id: Bytes, q: int, r: int)
    requires ValidEnv(env) && Run(env, states) && i < |states|
    requires Holds(states[i].store, id, q) && Holds(states[i].store, id, r)
    ensures q == r
  {
    var logs := RunKeeps(env, states);
    var s, hist := states[i], logs[i];
    hide Run, Inv, IsLog, World;
    InvIsLog(env, s, hist);
    HoldsAt(s.store, hist, id, q);
    HoldsAt(s.store, hist, id, r);
    KnownAt(env, s, hist, id, q);
    WriterParts(env, s, hist, id);
  }

  lemma HoldsAt(store: Store, hist: seq<Commit>, id: Bytes, r: int)
    requires IsLog(store, hist)
    ensures Holds(store, id, r) <==> At(hist, id, r)
  {
  }

  lemma KnownAt(env: Env, s: State, hist: seq<Commit>, id: Bytes, r: int)
    requires Inv(env, s, hist) && At(hist, id, r)
    ensures id in s.writers
  {
    hide StoreOK, WritersOK, InflightOK;
  }

  /** A reported success is a commit at the reported revision with the invocation's batch;
      for AppendTo that is the base's successor. */
  lemma SuccessIsCommitted(env: Env, states: seq<State>, i: nat, id: Bytes)
    requires ValidEnv(env) && Run(env, states) && i < |states|
    requires id in states[i].writers && states[i].writers[id].pc.Done?
    ensures
      var s, w := states[i], states[i].writers[id];
      var r := w.pc.revision;
      Holds(s.store, id, r) && s.store[LogKey(r)].commit.event == w.event && (w.base.Some? ==> r == w.base.value + 1)
  {
    var logs := RunKeeps(env, states);
    RunAuthored(env, states);
    var s, hist := states[i], logs[i];
    hide Run, Inv, IsLog, World, AllAuthored;
    InvIsLog(env, s, hist);
    WriterParts(env, s, hist, id);
    DoneAt(s.inflight, hist, id, s.writers[id].pc);
    HoldsAt(s.store, hist, id, s.writers[id].pc.revision);
    AuthoredStored(s, id, s.writers[id].pc.revision);
  }

  lemma DoneAt(inflight: set<(Key, Body)>, hist: seq<Commit>, id: Bytes, pc: Pc)
    requires pc.Done? && Placed(inflight, hist, id, pc)
    ensures At(hist, id, pc.revision)
  {
  }

  lemma AuthoredStored(s: State, id: Bytes, r: int)
    requires AllAuthored(s) && Holds(s.store, id, r)
    ensures id in s.writers && s.store[LogKey(r)].commit.event == s.writers[id].event
    ensures s.writers[id].pc.Done? && s.writers[id].base.Some? ==> s.writers[id].pc.revision == s.writers[id].base.value + 1
  {
    assert Authored(s.writers, s.store[LogKey(r)].commit);
    assert WriterAuthored(id, s.writers[id]);
  }

  lemma FinishedStays(env: Env, s: State, t: State, id: Bytes)
    requires Step(env, s, t) && id in s.writers && Finished(s.writers[id].pc)
    ensures id in t.writers && t.writers[id] == s.writers[id]
  {
    var e :| Enabled(env, s, e) && t == Apply(env, s, e);
    hide Next, Enter, LoadRoot, Prepared;
  }

  lemma {:induction false} FinishedForGood(env: Env, states: seq<State>, i: nat, j: nat, id: Bytes)
    requires Run(env, states) && i <= j < |states|
    requires id in states[i].writers && Finished(states[i].writers[id].pc)
    ensures id in states[j].writers && states[j].writers[id] == states[i].writers[id]
    decreases j - i
  {
    hide *;
    if i < j {
      RunStep(env, states, j);
      FinishedForGood(env, states, i, j - 1, id);
      FinishedHere(states[j - 1], states[i], id);
      FinishedStays(env, states[j - 1], states[j], id);
    }
  }

  lemma RunStep(env: Env, states: seq<State>, j: nat)
    requires Run(env, states) && 0 < j < |states|
    ensures Step(env, states[j - 1], states[j])
  {
    hide Step;
  }

  lemma FinishedHere(s: State, t: State, id: Bytes)
    requires id in s.writers && id in t.writers && s.writers[id] == t.writers[id] && Finished(t.writers[id].pc)
    ensures Finished(s.writers[id].pc)
  {
  }

  /** A reported conflict means the invocation has no commit in the log, now or ever. */
  lemma ConflictIsFinal(env: Env, states: seq<State>, i: nat, j: nat, id: Bytes, r: int)
    requires ValidEnv(env) && Run(env, states) && i <= j < |states|
    requires id in states[i].writers && states[i].writers[id].pc.Conflicted?
    ensures !Holds(states[j].store, id, r)
  {
    var logs := RunKeeps(env, states);
    FinishedForGood(env, states, i, j, id);
    hide Run, Inv, IsLog, World;
    InvIsLog(env, states[j], logs[j]);
    WriterParts(env, states[j], logs[j], id);
    NeverAt(states[j].inflight, logs[j], id);
    HoldsAt(states[j].store, logs[j], id, r);
  }

  /** No writer ever mistakes the protocol's own objects for corruption. */
  lemma WritersNeverSeeCorruption(env: Env, states: seq<State>, i: nat, id: Bytes)
    requires ValidEnv(env) && Run(env, states) && i < |states|
    requires id in states[i].writers && states[i].writers[id].pc.Failed?
    ensures
      var e := states[i].writers[id].pc.error;
      e == Io || e == Exhausted || e == Callback
  {
    var logs := RunKeeps(env, states);
    hide Run, Inv;
    WriterParts(env, states[i], logs[i], id);
    FailedError(env, states[i].store, logs[i], id, states[i].writers[id].pc);
  }

  lemma FailedError(env: Env, store: Store, hist: seq<Commit>, id: Bytes, pc: Pc)
    requires pc.Failed? && PcOK(env, store, hist, id, pc)
    ensures pc.error == Io || pc.error == Exhausted || pc.error == Callback
  {
  }
}
