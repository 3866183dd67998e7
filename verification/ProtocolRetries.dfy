/**
 How often an append tries. An attempt is lost only to another commit at the revision it
 aimed for, and a conflict is reported exactly when the last attempt allowed is lost.
 */
module ProtocolRetries {
  import opened Wrappers
  import opened Wire
  import opened Carry
  import opened Segment
  import opened ScanIntact
  import opened Protocol
  import opened ProtocolSafe
  import opened ProtocolRuns
  import opened ProtocolResults
  import Frontier

  /** The step loses an attempt of the invocation: it found another's commit where it tried
      to create its own, and lists again or gives up. */
  predicate Loses(s: State, t: State, id: Bytes) {
    && id in s.writers && id in t.writers && s.writers[id].pc.Check?
    && (t.writers[id].pc.Listing? || t.writers[id].pc.Conflicted?)
  }

  /** Attempts the invocation lost between two states. */
  function Losses(states: seq<State>, id: Bytes, i: nat, j: nat): nat
    requires i <= j < |states|
    decreases j
  {
    if i == j then 0 else Losses(states, id, i, j - 1) + if Loses(states[j - 1], states[j], id) then 1 else 0
  }

  /** Attempts lost so far by a writer that was given n retries. */
  function Spent(w: Writer, n: nat): int {
    n - w.retries + if w.pc.Conflicted? then 1 else 0
  }

  /** The revision a writer builds on is past `from`, the head or base of its first attempt,
      by at least the attempts it has lost. */
  predicate Ahead(w: Writer, n: nat, from: int, head: int) {
    && w.retries <= n && from + Spent(w, n) <= head
    && match w.pc
       case Listing => true
       case Listed(h) => from + Spent(w, n) <= h
       case Carrying(b, _, _, _) => from + Spent(w, n) <= b.commit.revision
       case Packing(b, _, _, _, _, _) => from + Spent(w, n) <= b.commit.revision
       case SegmentCreate(b, _, _, _, _, _) => from + Spent(w, n) <= b.commit.revision
       case SegmentCheck(b, _, _, _, _, _) => from + Spent(w, n) <= b.commit.revision
       case Publish(c) => from + Spent(w, n) < c.revision
       case Check(c, _) => from + Spent(w, n) < c.revision
       case Done(r) => from + Spent(w, n) < r
       case Conflicted => w.retries == 0
       case Failed(_) => true
  }

  lemma AheadGrows(w: Writer, n: nat, from: int, head: int, more: int)
    requires Ahead(w, n, from, head) && head <= more
    ensures Ahead(w, n, from, more)
  {
  }

  /** Another attempt was lost by w2, or none. */
  predicate Tried(w: Writer, w2: Writer, n: nat) {
    Spent(w2, n) == Spent(w, n) + if w.pc.Check? && (w2.pc.Listing? || w2.pc.Conflicted?) then 1 else 0
  }

  // ---- One writer's steps ----

  lemma BuildAhead(env: Env, id: Bytes, w: Writer, base: Option<Commit>, frontier: seq<FrontierLevel>, n: nat, from: int, head: int)
    requires w.retries <= n && from + n - w.retries <= head
    requires from + n - w.retries <= if base.Some? then base.value.revision else 0
    ensures
      var pc := Build(env, id, w.event, base, frontier);
      Ahead(w.(pc := pc), n, from, head) && (pc.Publish? || pc.Failed?)
  {
    hide FrontierOK, DecodeCommit;
  }

  lemma EnterAhead(env: Env, id: Bytes, w: Writer, base: Option<Snapshot>, n: nat, from: int, head: int)
    requires w.retries <= n && from + n - w.retries <= head
    requires from + n - w.retries <= if base.Some? then base.value.commit.revision else 0
    ensures
      var pc := Enter(env, id, w.event, base);
      Ahead(w.(pc := pc), n, from, head) && (pc.Publish? || pc.Failed? || pc.Carrying?)
  {
    hide Build, Spread;
    if base.None? {
      BuildAhead(env, id, w, None, [], n, from, head);
    }
  }

  /** A root that loads is stored, and of the revision asked for. */
  lemma RootIsThere(env: Env, store: Store, revision: int, missing: Error)
    requires LoadRoot(env, store, revision, missing).Ok?
    ensures LogKey(revision) in store && LoadRoot(env, store, revision, missing).value.commit.revision == revision
  {
    hide ValidProjection, FrontierOK;
  }

  lemma NextAhead(env: Env, store: Store, hist: seq<Commit>, id: Bytes, w: Writer, n: nat, from: int)
    requires IsLog(store, hist) && Ahead(w, n, from, |hist|) && !Finished(w.pc) && !w.pc.Listing?
    ensures var w2 := Next(env, store, id, w).0; Ahead(w2, n, from, |hist|) && Tried(w, w2, n)
  {
    hide *;
    match w.pc
    case Listed(_) => ListedAhead(env, store, hist, id, w, n, from);
    case Carrying(_, _, _, _) => CarriedAhead(env, store, hist, id, w, n, from);
    case Check(_, _) => CheckedAhead(env, store, hist, id, w, n, from);
    case _ => OthersAhead(env, store, hist, id, w, n, from);
  }

  lemma ListedAhead(env: Env, store: Store, hist: seq<Commit>, id: Bytes, w: Writer, n: nat, from: int)
    requires w.pc.Listed? && Ahead(w, n, from, |hist|)
    ensures var w2 := Next(env, store, id, w).0; Ahead(w2, n, from, |hist|) && Tried(w, w2, n)
  {
    hide LoadRoot, Enter;
    if LoadRoot(env, store, w.pc.head, Corrupt).Ok? {
      RootIsThere(env, store, w.pc.head, Corrupt);
      EnterAhead(env, id, w, Some(LoadRoot(env, store, w.pc.head, Corrupt).value), n, from, |hist|);
    }
  }

  lemma CarriedAhead(env: Env, store: Store, hist: seq<Commit>, id: Bytes, w: Writer, n: nat, from: int)
    requires w.pc.Carrying? && Ahead(w, n, from, |hist|)
    ensures var w2 := Next(env, store, id, w).0; Ahead(w2, n, from, |hist|) && Tried(w, w2, n)
  {
    hide Build, Frontier.Gather;
    var base, lv, ref, level := w.pc.base, w.pc.lv, w.pc.ref, w.pc.level;
    BuildAhead(env, id, w, Some(base.commit), Frontier.Gather(lv, 16), n, from, |hist|);
    if level < 16 {
      BuildAhead(env, id, w, Some(base.commit), Frontier.Gather(Push(lv, level, ref), 16), n, from, |hist|);
    }
  }

  /** Another's commit at the attempted revision is in the log. */
  lemma CheckedAhead(env: Env, store: Store, hist: seq<Commit>, id: Bytes, w: Writer, n: nat, from: int)
    requires IsLog(store, hist) && w.pc.Check? && Ahead(w, n, from, |hist|)
    ensures var w2 := Next(env, store, id, w).0; Ahead(w2, n, from, |hist|) && Tried(w, w2, n)
  {
    hide LoadRoot;
    var r, missing := w.pc.commit.revision, if w.pc.existed then Corrupt else Io;
    if LoadRoot(env, store, r, missing).Ok? {
      RootIsThere(env, store, r, missing);
    }
  }

  lemma OthersAhead(env: Env, store: Store, hist: seq<Commit>, id: Bytes, w: Writer, n: nat, from: int)
    requires !w.pc.Listed? && !w.pc.Carrying? && !w.pc.Check? && !Finished(w.pc) && !w.pc.Listing? && Ahead(w, n, from, |hist|)
    ensures var w2 := Next(env, store, id, w).0; Ahead(w2, n, from, |hist|) && Tried(w, w2, n)
  {
    hide NextPack, SegmentChecked;
    match w.pc
    case Packing(_, lv, ref, level, _, _) =>
      if level < 16 && |Children(lv, ref, level)| == 16 {
        PackKeepsBase(env, store, w.pc);
      }
    case SegmentCheck(_, _, _, level, _, _) =>
      if level < 16 {
        CheckKeepsBase(env, store, w.pc);
      }
    case _ =>
  }

  // ---- Every step of a run ----

  lemma EventAhead(env: Env, s: State, hist: seq<Commit>, e: Event, longer: seq<Commit>, id: Bytes, n: nat, from: int)
    requires Enabled(env, s, e) && IsLog(s.store, hist) && hist <= longer
    requires id in s.writers && Ahead(s.writers[id], n, from, |hist|)
    ensures
      var t := Apply(env, s, e);
      id in t.writers && Ahead(t.writers[id], n, from, |longer|) && Tried(s.writers[id], t.writers[id], n)
  {
    assert Concerns(e, id) <==> !e.Land? && e.id == id;
    hide *;
    var w := s.writers[id];
    AheadGrows(w, n, from, |hist|, |longer|);
    if !Concerns(e, id) {
      Unmoved(env, s, e, id);
      NothingTried(w, n);
    } else {
      match e
      case Append(_, _, _) => FreshOnly(env, s, e);
      case AppendTo(_, _, _) => FreshOnly(env, s, e);
      case List(_, _) => ListAhead(env, s, hist, e, n, from);
      case Advance(_) =>
        AdvanceMoves(env, s, e);
        NextAhead(env, s.store, hist, id, w, n, from);
      case Lose(_) => LoseAhead(env, s, hist, e, n, from);
      case Fail(_) => FailAhead(env, s, hist, e, n, from);
      AheadGrows(Apply(env, s, e).writers[id], n, from, |hist|, |longer|);
    }
  }

  /** The event is a step of this invocation. */
  predicate Concerns(e: Event, id: Bytes) {
    !e.Land? && e.id == id
  }

  lemma Unmoved(env: Env, s: State, e: Event, id: Bytes)
    requires Enabled(env, s, e) && !Concerns(e, id) && id in s.writers
    ensures id in Apply(env, s, e).writers && Apply(env, s, e).writers[id] == s.writers[id]
  {
    hide Next, Enter, LoadRoot;
  }

  lemma NothingTried(w: Writer, n: nat)
    ensures Tried(w, w, n)
  {
  }

  lemma FreshOnly(env: Env, s: State, e: Event)
    requires Enabled(env, s, e) && (e.Append? || e.AppendTo?)
    ensures e.id !in s.writers
  {
  }

  lemma AdvanceMoves(env: Env, s: State, e: Event)
    requires Enabled(env, s, e) && e.Advance?
    ensures e.id in s.writers && !Finished(s.writers[e.id].pc) && !s.writers[e.id].pc.Listing?
    ensures e.id in Apply(env, s, e).writers && Apply(env, s, e).writers[e.id] == Next(env, s.store, e.id, s.writers[e.id]).0
  {
    hide Next;
  }

  lemma ListAhead(env: Env, s: State, hist: seq<Commit>, e: Event, n: nat, from: int)
    requires Enabled(env, s, e) && e.List? && IsLog(s.store, hist)
    requires e.id in s.writers && Ahead(s.writers[e.id], n, from, |hist|)
    ensures e.id in Apply(env, s, e).writers && Ahead(Apply(env, s, e).writers[e.id], n, from, |hist|)
    ensures Tried(s.writers[e.id], Apply(env, s, e).writers[e.id], n)
  {
    hide Enter, IsLog, IsHead;
    assert IsHead(s.store, e.head);
    HeadIsLast(s.store, hist, e.head);
    if e.head == 0 {
      EnterAhead(env, e.id, s.writers[e.id], None, n, from, |hist|);
    }
  }

  lemma LoseAhead(env: Env, s: State, hist: seq<Commit>, e: Event, n: nat, from: int)
    requires Enabled(env, s, e) && e.Lose? && e.id in s.writers && Ahead(s.writers[e.id], n, from, |hist|)
    ensures e.id in Apply(env, s, e).writers && Ahead(Apply(env, s, e).writers[e.id], n, from, |hist|)
    ensures Tried(s.writers[e.id], Apply(env, s, e).writers[e.id], n)
  {
  }

  lemma FailAhead(env: Env, s: State, hist: seq<Commit>, e: Event, n: nat, from: int)
    requires Enabled(env, s, e) && e.Fail? && e.id in s.writers && Ahead(s.writers[e.id], n, from, |hist|)
    ensures e.id in Apply(env, s, e).writers && Ahead(Apply(env, s, e).writers[e.id], n, from, |hist|)
    ensures Tried(s.writers[e.id], Apply(env, s, e).writers[e.id], n)
  {
  }

  // ---- Whole runs ----

  /** The invocation begins with this step: the retries it is given, and the head it may
      build on at the earliest. */
  ghost predicate Begins(env: Env, s: State, t: State, id: Bytes, n: nat, from: int) {
    exists e :: Enabled(env, s, e) && t == Apply(env, s, e) && BeginsWith(s, e, id, n, from)
  }

  ghost predicate BeginsWith(s: State, e: Event, id: Bytes, n: nat, from: int) {
    match e
    case Append(i, _, retries) => i == id && retries == n && IsHead(s.store, from)
    case AppendTo(i, _, base) => i == id && n == 0 && base == from
    case _ => false
  }

  lemma BeginAhead(env: Env, s: State, hist: seq<Commit>, t: State, id: Bytes, n: nat, from: int)
    requires Begins(env, s, t, id, n, from) && IsLog(s.store, hist)
    ensures id in t.writers && Ahead(t.writers[id], n, from, |hist|) && Spent(t.writers[id], n) == 0
  {
    var e :| Enabled(env, s, e) && t == Apply(env, s, e) && BeginsWith(s, e, id, n, from);
    hide Enter, LoadRoot, IsLog, IsHead, Prepared;
    if e.Append? {
      HeadIsLast(s.store, hist, from);
    } else {
      var root := if e.base == 0 then None else Some(LoadRoot(env, s.store, e.base, NotFound).value);
      if e.base != 0 {
        RootIsThere(env, s.store, e.base, NotFound);
        StoredBelow(s.store, hist, e.base);
      }
      EnterAhead(env, id, Writer(e.event, 0, Some(e.base), Listing), root, 0, from, |hist|);
    }
  }

  lemma StoredBelow(store: Store, hist: seq<Commit>, r: int)
    requires IsLog(store, hist) && LogKey(r) in store
    ensures 1 <= r <= |hist|
  {
  }

  lemma StepAhead(env: Env, s: State, hist: seq<Commit>, t: State, longer: seq<Commit>, id: Bytes, n: nat, from: int)
    requires Step(env, s, t) && IsLog(s.store, hist) && hist <= longer
    requires id in s.writers && Ahead(s.writers[id], n, from, |hist|)
    ensures id in t.writers && Ahead(t.writers[id], n, from, |longer|)
    ensures Spent(t.writers[id], n) == Spent(s.writers[id], n) + if Loses(s, t, id) then 1 else 0
  {
    var e :| Enabled(env, s, e) && t == Apply(env, s, e);
    hide Enabled, Apply, IsLog, Ahead, Spent;
    EventAhead(env, s, hist, e, longer, id, n, from);
  }

  lemma {:induction false} RunAhead(env: Env, states: seq<State>, logs: seq<seq<Commit>>, i: nat, j: nat, id: Bytes, n: nat, from: int)
    requires Run(env, states) && 0 < i <= j < |states| == |logs|
    requires (forall k :: 0 <= k < |logs| ==> IsLog(states[k].store, logs[k])) && forall k, m :: 0 <= k <= m < |logs| ==> logs[k] <= logs[m]
    requires Begins(env, states[i - 1], states[i], id, n, from)
    ensures id in states[j].writers && Ahead(states[j].writers[id], n, from, |logs[j]|)
    ensures Losses(states, id, i, j) == Spent(states[j].writers[id], n)
    decreases j
  {
    hide Run, IsLog, Begins, Ahead, Spent, Loses;
    if i == j {
      BeginAhead(env, states[i - 1], logs[i - 1], states[i], id, n, from);
      AheadGrows(states[i].writers[id], n, from, |logs[i - 1]|, |logs[i]|);
    } else {
      RunAhead(env, states, logs, i, j - 1, id, n, from);
      RunStep(env, states, j);
      StepAhead(env, states[j - 1], logs[j - 1], states[j], logs[j], id, n, from);
    }
  }

  /** An append with n retries loses at most n + 1 attempts, and ends in a conflict exactly
      when it has lost them all. The log has grown by at least one commit for each of them:
      past the head at the call for Append, past the base for AppendTo, which has one
      attempt. A success is a revision beyond all of those. */
  lemma AttemptsCounted(env: Env, states: seq<State>, i: nat, j: nat, id: Bytes, n: nat, from: int, head: int)
    requires ValidEnv(env) && Run(env, states) && 0 < i <= j < |states|
    requires Begins(env, states[i - 1], states[i], id, n, from) && IsHead(states[j].store, head)
    ensures id in states[j].writers
    ensures
      var lost, pc := Losses(states, id, i, j), states[j].writers[id].pc;
      lost <= n + 1 && (pc.Conflicted? <==> lost == n + 1) && head >= from + lost && (pc.Done? ==> pc.revision > from + lost)
  {
    hide *;
    var logs := RunLogs(env, states);
    RunAhead(env, states, logs, i, j, id, n, from);
    HeadIsLast(states[j].store, logs[j], head);
    AheadMeans(states[j].writers[id], n, from, head);
  }

  lemma AheadMeans(w: Writer, n: nat, from: int, head: int)
    requires Ahead(w, n, from, head)
    ensures Spent(w, n) <= n + 1 && (w.pc.Conflicted? <==> Spent(w, n) == n + 1) && head >= from + Spent(w, n)
    ensures w.pc.Done? ==> w.pc.revision > from + Spent(w, n)
  {
  }

  lemma RunLogs(env: Env, states: seq<State>) returns (logs: seq<seq<Commit>>)
    requires ValidEnv(env) && Run(env, states)
    ensures |logs| == |states| && forall k :: 0 <= k < |logs| ==> IsLog(states[k].store, logs[k])
    ensures forall k, m :: 0 <= k <= m < |logs| ==> logs[k] <= logs[m]
  {
    hide *;
    logs := RunKeeps(env, states);
    forall k | 0 <= k < |logs|
      ensures IsLog(states[k].store, logs[k])
    {
      InvIsLog(env, states[k], logs[k]);
    }
  }

  // ---- A base that is no longer the head ----

  ghost predicate BeginsOn(env: Env, s: State, t: State, id: Bytes, base: int) {
    exists event :: Enabled(env, s, AppendTo(id, event, base)) && t == Apply(env, s, AppendTo(id, event, base))
  }

  lemma BeginsFresh(env: Env, s: State, t: State, id: Bytes, base: int)
    requires BeginsOn(env, s, t, id, base)
    ensures id !in s.writers && id in t.writers && t.writers[id].base == Some(base)
  {
    hide Enter, LoadRoot, Prepared;
  }

  /** A writer keeps its batch and its base from step to step. */
  lemma CallKept(env: Env, s: State, t: State, id: Bytes)
    requires Step(env, s, t) && AllAuthored(s) && id in s.writers
    ensures id in t.writers && SameCall(s.writers[id], t.writers[id])
  {
    var e :| Enabled(env, s, e) && t == Apply(env, s, e);
    assert WriterAuthored(id, s.writers[id]);
    assert Concerns(e, id) <==> !e.Land? && e.id == id;
    hide *;
    SameSelf(s.writers[id]);
    if !Concerns(e, id) {
      Unmoved(env, s, e, id);
    } else {
      match e
      case Append(_, _, _) => FreshOnly(env, s, e);
      case AppendTo(_, _, _) => FreshOnly(env, s, e);
      case Advance(_) =>
        AdvanceMoves(env, s, e);
        NextAuthored(env, s.store, id, s.writers[id]);
      case _ => OthersKeep(env, s, e);
    }
  }

  lemma SameSelf(w: Writer)
    ensures SameCall(w, w)
  {
  }

  lemma OthersKeep(env: Env, s: State, e: Event)
    requires Enabled(env, s, e) && (e.List? || e.Lose? || e.Fail?)
    ensures e.id in s.writers && e.id in Apply(env, s, e).writers && SameCall(s.writers[e.id], Apply(env, s, e).writers[e.id])
  {
    hide Enter;
  }

  lemma {:induction false} BaseKept(env: Env, states: seq<State>, i: nat, j: nat, id: Bytes)
    requires Run(env, states) && i <= j < |states| && id in states[i].writers
    ensures id in states[j].writers && SameCall(states[i].writers[id], states[j].writers[id])
    decreases j
  {
    hide *;
    if i == j {
      SameSelf(states[i].writers[id]);
    } else {
      BaseKept(env, states, i, j - 1, id);
      RunStep(env, states, j);
      RunAuthored(env, states);
      CallKept(env, states[j - 1], states[j], id);
      SameThen(states[i].writers[id], states[j - 1].writers[id], states[j].writers[id]);
    }
  }

  lemma SameThen(a: Writer, b: Writer, c: Writer)
    requires SameCall(a, b) && SameCall(b, c)
    ensures SameCall(a, c)
  {
  }

  /** AppendTo appends to its base or not at all: once another commit has followed the base,
      it has no commit in any later state. */
  lemma StaleBaseNever(env: Env, states: seq<State>, i: nat, j: nat, id: Bytes, base: int, head: int, r: int)
    requires ValidEnv(env) && Run(env, states) && 0 < i <= j < |states|
    requires BeginsOn(env, states[i - 1], states[i], id, base) && IsHead(states[i - 1].store, head) && 0 <= base < head
    ensures !Holds(states[j].store, id, r)
  {
    hide *;
    var logs := RunKeeps(env, states);
    BeginsFresh(env, states[i - 1], states[i], id, base);
    InvIsLog(env, states[i - 1], logs[i - 1]);
    InvIsLog(env, states[j], logs[j]);
    HeadIsLast(states[i - 1].store, logs[i - 1], head);
    if Holds(states[j].store, id, r) {
      HoldsAt(states[j].store, logs[j], id, r);
      RunAuthored(env, states);
      BaseKept(env, states, i, j, id);
      StoredRevision(env, states[j].store, logs[j], id, r);
      OnlyOnBase(states[j], states[i].writers[id], id, base, r);
      AtEarlier(logs[i - 1], logs[j], id, r);
      KnownAt(env, states[i - 1], logs[i - 1], id, r);
    }
  }

  lemma StoredRevision(env: Env, store: Store, hist: seq<Commit>, id: Bytes, r: int)
    requires IsLog(store, hist) && World(env, Reader(store), hist) && Holds(store, id, r)
    ensures LogKey(r) in store && store[LogKey(r)].CommitBody? && store[LogKey(r)].commit.revision == r
  {
    assert 1 <= r <= |hist|;
    hide World;
    RootRevision(env, Reader(store), hist, r);
  }

  lemma OnlyOnBase(s: State, w: Writer, id: Bytes, base: int, r: int)
    requires AllAuthored(s) && Holds(s.store, id, r) && id in s.writers && SameCall(w, s.writers[id]) && w.base == Some(base)
    requires LogKey(r) in s.store && s.store[LogKey(r)].CommitBody? && s.store[LogKey(r)].commit.revision == r
    ensures r == base + 1
  {
    assert Authored(s.writers, s.store[LogKey(r)].commit);
  }

  lemma AtEarlier(hist: seq<Commit>, later: seq<Commit>, id: Bytes, r: int)
    requires hist <= later && At(later, id, r) && r <= |hist|
    ensures At(hist, id, r)
  {
  }
}
