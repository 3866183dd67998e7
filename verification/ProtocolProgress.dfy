/**
 An append makes progress: from the current head, and left alone, it always reaches its
 commit. Only a log at its last revision or the caller's codec can keep it from that.
 */
module ProtocolProgress {
  import opened Wrappers
  import opened Radix
  import opened Wire
  import opened Protocol
  import opened ProtocolSafe
  import opened ProtocolSteps
  import opened ProtocolRuns
  import opened ProtocolResults

  /** A writer that is about to list, or that builds on the current head and knows the
      outcome of every create it made. */
  predicate Current(pc: Pc, head: int) {
    match pc
    case Listing => true
    case Listed(h) => h == head
    case Carrying(b, _, _, _) => b.commit.revision == head
    case Packing(b, _, _, _, _, _) => b.commit.revision == head
    case SegmentCreate(b, _, _, _, _, _) => b.commit.revision == head
    case SegmentCheck(b, _, _, _, _, existed) => existed && b.commit.revision == head
    case Publish(c) => c.revision == head + 1
    case _ => false
  }

  /** How an append that is left alone ends. */
  predicate Ends(env: Env, event: Bytes, head: int, pc: Pc) {
    || pc == Done(head + 1)
    || (pc == Failed(Callback) && !env.decodable(event))
    || (pc == Failed(Exhausted) && head == MAX_REVISION)
  }

  /** Steps left at most. */
  function Left(pc: Pc): nat {
    match pc
    case Listing => 1000
    case Listed(_) => 999
    case Carrying(_, _, _, level) => Above(level) + 31
    case Packing(_, _, _, level, _, n) => Above(level) + if n <= 16 then 20 - n else 3
    case SegmentCreate(_, _, _, level, _, _) => Above(level) + 2
    case SegmentCheck(_, _, _, level, _, _) => Above(level) + 1
    case Publish(_) => 1
    case _ => 0
  }

  function Above(level: nat): nat {
    if level <= 17 then (17 - level) * 40 + 1 else 1
  }

  predicate Own(e: Event, id: Bytes) {
    e == Advance(id) || (e.List? && e.id == id)
  }

  /** The append went on, or has come to its end. */
  ghost predicate Goes(env: Env, s: State, hist: seq<Commit>, id: Bytes, t: State) {
    && id in s.writers && id in t.writers && SameCall(s.writers[id], t.writers[id])
    && (Ends(env, s.writers[id].event, |hist|, t.writers[id].pc) ||
        (Current(t.writers[id].pc, |hist|) && Left(t.writers[id].pc) < Left(s.writers[id].pc) && Inv(env, t, hist)))
  }

  // ---- Each position ----

  lemma ListGoes(env: Env, s: State, hist: seq<Commit>, id: Bytes)
    requires ValidEnv(env) && Inv(env, s, hist) && id in s.writers && s.writers[id].pc.Listing?
    ensures var e := List(id, |hist|); Enabled(env, s, e) && Goes(env, s, hist, id, Apply(env, s, e))
  {
    var e, w := List(id, |hist|), s.writers[id];
    hide *;
    InvIsLog(env, s, hist);
    HeadIsLast(s.store, hist, |hist|);
    InvParts(env, s, hist);
    WriterParts(env, s, hist, id);
    ListEnabled(env, s, id, |hist|);
    ListOK(env, s, hist, e);
    ListForm(env, s, e);
    ListKeeps(env, s, e);
    FirstOK(env, s.store, hist, id, w.event);
    var t := Apply(env, s, e);
    ListedPc(env, s, hist, id, t);
  }

  lemma ListEnabled(env: Env, s: State, id: Bytes, head: int)
    requires id in s.writers && s.writers[id].pc.Listing? && IsHead(s.store, head)
    ensures Enabled(env, s, List(id, head))
  {
    hide IsHead;
  }

  lemma ListKeeps(env: Env, s: State, e: Event)
    requires Enabled(env, s, e) && e.List?
    ensures e.id in s.writers && e.id in Apply(env, s, e).writers && SameCall(s.writers[e.id], Apply(env, s, e).writers[e.id])
  {
    hide Enter;
  }

  lemma ListedPc(env: Env, s: State, hist: seq<Commit>, id: Bytes, t: State)
    requires id in s.writers && id in t.writers && SameCall(s.writers[id], t.writers[id]) && s.writers[id].pc.Listing?
    requires
      var event := s.writers[id].event;
      t.writers[id].pc == if |hist| == 0 then Enter(env, id, event, None) else Listed(|hist|)
    requires Built(env, Enter(env, id, s.writers[id].event, None), s.writers[id].event, 1)
    requires Inv(env, t, hist)
    ensures Goes(env, s, hist, id, t)
  {
    hide Inv, Enter, Above;
  }

  /** A step that creates nothing. */
  lemma QuietGoes(env: Env, s: State, hist: seq<Commit>, id: Bytes)
    requires ValidEnv(env) && Inv(env, s, hist) && id in s.writers
    requires !Finished(s.writers[id].pc) && !s.writers[id].pc.Listing?
    requires
      var n := Next(env, s.store, id, s.writers[id]);
      n.1.None? && SameCall(s.writers[id], n.0) &&
      (Ends(env, s.writers[id].event, |hist|, n.0.pc) || (Current(n.0.pc, |hist|) && Left(n.0.pc) < Left(s.writers[id].pc)))
    ensures Enabled(env, s, Advance(id)) && Goes(env, s, hist, id, Apply(env, s, Advance(id)))
  {
    AdvanceEnabled(env, s, id);
    hide *;
    AdvanceQuiet(env, s, hist, id);
    AdvanceForm(env, s, Advance(id));
    var w := Next(env, s.store, id, s.writers[id]).0;
    QuietPc(env, s, hist, id, w);
  }

  lemma AdvanceEnabled(env: Env, s: State, id: Bytes)
    requires id in s.writers && !Finished(s.writers[id].pc) && !s.writers[id].pc.Listing?
    ensures Enabled(env, s, Advance(id))
  {
  }

  lemma Running(pc: Pc)
    ensures pc.Listed? || pc.Carrying? || pc.Packing? || pc.SegmentCreate? || pc.SegmentCheck? || pc.Publish? ==> !Finished(pc)
  {
  }

  lemma QuietPc(env: Env, s: State, hist: seq<Commit>, id: Bytes, w: Writer)
    requires id in s.writers && Inv(env, With(s, id, w), hist) && SameCall(s.writers[id], w)
    requires Ends(env, s.writers[id].event, |hist|, w.pc) || (Current(w.pc, |hist|) && Left(w.pc) < Left(s.writers[id].pc))
    ensures Goes(env, s, hist, id, With(s, id, w))
  {
    hide Inv, Current, Left, Ends;
  }

  lemma NextKeeps(env: Env, store: Store, id: Bytes, w: Writer)
    requires w.pc.Listed? || w.pc.Carrying? || w.pc.Packing? || w.pc.SegmentCheck?
    ensures var n := Next(env, store, id, w); n.1.None? && SameCall(w, n.0)
  {
    hide LoadRoot, Enter, NextCarry, NextPack, SegmentChecked;
  }

  lemma ListedGoes(env: Env, s: State, hist: seq<Commit>, id: Bytes)
    requires ValidEnv(env) && Inv(env, s, hist) && id in s.writers && s.writers[id].pc == Listed(|hist|)
    ensures Enabled(env, s, Advance(id)) && Goes(env, s, hist, id, Apply(env, s, Advance(id)))
  {
    var w := s.writers[id];
    hide *;
    Running(w.pc);
    InvParts(env, s, hist);
    WriterParts(env, s, hist, id);
    ListedFacts(env, s.store, hist, id, |hist|);
    RootLoads(env, s.store, hist, |hist|, Corrupt);
    EnterOK(env, s.store, hist, |hist|, id, w.event);
    NextListed(env, s.store, id, w);
    NextKeeps(env, s.store, id, w);
    EnteredPc(env, w.event, |hist|, Next(env, s.store, id, w).0.pc);
    QuietGoes(env, s, hist, id);
  }

  lemma EnteredPc(env: Env, event: Bytes, head: int, pc: Pc)
    requires if head == MAX_REVISION then pc == Failed(Exhausted) else pc.Carrying? && pc.base.commit.revision == head && pc.level == 0
    ensures Ends(env, event, head, pc) || (Current(pc, head) && Left(pc) < Left(Listed(head)))
  {
  }

  lemma CarryingGoes(env: Env, s: State, hist: seq<Commit>, id: Bytes)
    requires ValidEnv(env) && Inv(env, s, hist) && id in s.writers
    requires s.writers[id].pc.Carrying? && s.writers[id].pc.base.commit.revision == |hist|
    ensures Enabled(env, s, Advance(id)) && Goes(env, s, hist, id, Apply(env, s, Advance(id)))
  {
    var w := s.writers[id];
    hide *;
    Running(w.pc);
    InvParts(env, s, hist);
    WriterParts(env, s, hist, id);
    CarryingFacts(env, s.store, hist, id, w.pc);
    CarryStepOK(env, s.store, hist, id, w.event, w.pc.base, w.pc.lv, w.pc.ref, w.pc.level);
    NextCarrying(env, s.store, id, w);
    NextKeeps(env, s.store, id, w);
    CarriedPc(env, w.event, |hist|, w.pc, Next(env, s.store, id, w).0.pc);
    QuietGoes(env, s, hist, id);
  }

  lemma CarriedPc(env: Env, event: Bytes, head: int, pc: Pc, next: Pc)
    requires pc.Carrying? && pc.base.commit.revision == head && pc.level <= 13
    requires Built(env, next, event, head + 1) || next == Packing(pc.base, pc.lv, pc.ref, pc.level, [], 0)
    ensures Ends(env, event, head, next) || (Current(next, head) && Left(next) < Left(pc))
  {
  }

  lemma PackingGoes(env: Env, s: State, hist: seq<Commit>, id: Bytes)
    requires ValidEnv(env) && Inv(env, s, hist) && id in s.writers
    requires s.writers[id].pc.Packing? && s.writers[id].pc.base.commit.revision == |hist|
    ensures Enabled(env, s, Advance(id)) && Goes(env, s, hist, id, Apply(env, s, Advance(id)))
  {
    var w := s.writers[id];
    hide *;
    Running(w.pc);
    InvParts(env, s, hist);
    WriterParts(env, s, hist, id);
    PackingFacts(env, s.store, hist, id, w.pc);
    PackStepOK(env, s.store, hist, id, w.pc);
    NextPacking(env, s.store, id, w);
    NextKeeps(env, s.store, id, w);
    PackedPc(env, w.event, |hist|, w.pc, NextPack(env, s.store, w.pc));
    QuietGoes(env, s, hist, id);
  }

  lemma PackedPc(env: Env, event: Bytes, head: int, pc: Pc, next: Pc)
    requires pc.Packing? && pc.base.commit.revision == head && pc.n <= 16 && PacksOn(pc, next)
    ensures Current(next, head) && Left(next) < Left(pc)
  {
  }

  lemma CheckGoes(env: Env, s: State, hist: seq<Commit>, id: Bytes)
    requires ValidEnv(env) && Inv(env, s, hist) && id in s.writers
    requires s.writers[id].pc.SegmentCheck? && s.writers[id].pc.existed && s.writers[id].pc.base.commit.revision == |hist|
    ensures Enabled(env, s, Advance(id)) && Goes(env, s, hist, id, Apply(env, s, Advance(id)))
  {
    var w := s.writers[id];
    hide *;
    Running(w.pc);
    InvParts(env, s, hist);
    WriterParts(env, s, hist, id);
    SegmentFacts(env, s.store, hist, id, w.pc);
    SegmentCheckedOK(env, s.store, hist, id, w.pc);
    NextSegmentCheck(env, s.store, id, w);
    NextKeeps(env, s.store, id, w);
    CarriedOver(|hist|, w.pc);
    QuietGoes(env, s, hist, id);
  }

  lemma CarriedOver(head: int, pc: Pc)
    requires (pc.SegmentCreate? || pc.SegmentCheck?) && pc.level < 16 && pc.base.commit.revision == head
    ensures Current(CarryOver(pc), head) && Left(CarryOver(pc)) < Left(pc)
  {
  }

  lemma CreateGoes(env: Env, s: State, hist: seq<Commit>, id: Bytes)
    requires ValidEnv(env) && Inv(env, s, hist) && id in s.writers
    requires s.writers[id].pc.SegmentCreate? && s.writers[id].pc.base.commit.revision == |hist|
    ensures Enabled(env, s, Advance(id)) && Goes(env, s, hist, id, Apply(env, s, Advance(id)))
  {
    var w, pc := s.writers[id], s.writers[id].pc;
    hide *;
    Running(pc);
    InvParts(env, s, hist);
    WriterParts(env, s, hist, id);
    SegmentFacts(env, s.store, hist, id, pc);
    CreateForm(env, s.store, id, w);
    if pc.segment.key in s.store {
      ExistsPc(|hist|, pc);
      QuietGoes(env, s, hist, id);
    } else {
      AdvanceEnabled(env, s, id);
      AdvanceForm(env, s, Advance(id));
      AdvanceSegment(env, s, hist, id);
      CarriedOver(|hist|, pc);
      CreatedPc(env, s, hist, id, s.store[pc.segment.key := pc.body]);
    }
  }

  lemma CreateForm(env: Env, store: Store, id: Bytes, w: Writer)
    requires w.pc.SegmentCreate? && w.pc.level < 16
    ensures
      var pc := w.pc;
      Next(env, store, id, w) ==
      (if pc.segment.key in store then (w.(pc := SegmentCheck(pc.base, pc.lv, pc.ref, pc.level, pc.segment, true)), None)
       else (w.(pc := CarryOver(pc)), Some((pc.segment.key, pc.body))))
    ensures forall pc :: SameCall(w, w.(pc := pc))
  {
    hide CarryOver;
  }

  lemma ExistsPc(head: int, pc: Pc)
    requires pc.SegmentCreate? && pc.base.commit.revision == head
    ensures
      var next := SegmentCheck(pc.base, pc.lv, pc.ref, pc.level, pc.segment, true);
      Current(next, head) && Left(next) < Left(pc)
  {
  }

  lemma CreatedPc(env: Env, s: State, hist: seq<Commit>, id: Bytes, store: Store)
    requires id in s.writers && s.writers[id].pc.SegmentCreate? && s.writers[id].pc.level < 16
    requires
      var next := CarryOver(s.writers[id].pc);
      Current(next, |hist|) && Left(next) < Left(s.writers[id].pc) && Inv(env, With(s.(store := store), id, s.writers[id].(pc := next)), hist)
    ensures Goes(env, s, hist, id, With(s.(store := store), id, s.writers[id].(pc := CarryOver(s.writers[id].pc))))
  {
    hide Inv, Current, Left, CarryOver;
  }

  lemma PublishGoes(env: Env, s: State, hist: seq<Commit>, id: Bytes)
    requires ValidEnv(env) && Inv(env, s, hist) && id in s.writers
    requires s.writers[id].pc.Publish? && s.writers[id].pc.commit.revision == |hist| + 1
    ensures Enabled(env, s, Advance(id)) && Goes(env, s, hist, id, Apply(env, s, Advance(id)))
  {
    var w := s.writers[id];
    hide *;
    Running(w.pc);
    InvParts(env, s, hist);
    if LogKey(|hist| + 1) in s.store {
      LogKeyInRange(env, s.store, hist, |hist| + 1);
    }
    AdvanceEnabled(env, s, id);
    PublishForm(env, s, hist, id);
  }

  lemma PublishForm(env: Env, s: State, hist: seq<Commit>, id: Bytes)
    requires id in s.writers && s.writers[id].pc.Publish? && s.writers[id].pc.commit.revision == |hist| + 1
    requires LogKey(|hist| + 1) !in s.store && Enabled(env, s, Advance(id))
    ensures Goes(env, s, hist, id, Apply(env, s, Advance(id)))
  {
    hide Inv;
  }

  // ---- All positions ----

  lemma SoloStep(env: Env, s: State, hist: seq<Commit>, id: Bytes) returns (e: Event)
    requires ValidEnv(env) && Inv(env, s, hist) && id in s.writers && Current(s.writers[id].pc, |hist|)
    ensures Own(e, id) && Enabled(env, s, e) && Goes(env, s, hist, id, Apply(env, s, e))
  {
    assert Own(Advance(id), id) && Own(List(id, |hist|), id);
    e := if s.writers[id].pc.Listing? then List(id, |hist|) else Advance(id);
    hide Inv, Enabled, Apply, Goes;
    match s.writers[id].pc
    case Listing => ListGoes(env, s, hist, id);
    case Listed(_) => ListedGoes(env, s, hist, id);
    case Carrying(_, _, _, _) => CarryingGoes(env, s, hist, id);
    case Packing(_, _, _, _, _, _) => PackingGoes(env, s, hist, id);
    case SegmentCreate(_, _, _, _, _, _) => CreateGoes(env, s, hist, id);
    case SegmentCheck(_, _, _, _, _, _) => CheckGoes(env, s, hist, id);
    case Publish(_) => PublishGoes(env, s, hist, id);
  }

  /** A step of this invocation alone. */
  ghost predicate Alone(env: Env, s: State, t: State, id: Bytes) {
    exists e :: Own(e, id) && Enabled(env, s, e) && t == Apply(env, s, e)
  }

  ghost predicate AllAlone(env: Env, states: seq<State>, id: Bytes) {
    forall i :: 0 < i < |states| ==> Alone(env, states[i - 1], states[i], id)
  }

  lemma {:induction false} Solo(env: Env, s: State, hist: seq<Commit>, id: Bytes) returns (states: seq<State>)
    requires ValidEnv(env) && Inv(env, s, hist) && id in s.writers && Current(s.writers[id].pc, |hist|)
    ensures states != [] && states[0] == s && AllAlone(env, states, id)
    ensures
      var t := states[|states| - 1];
      id in t.writers && SameCall(s.writers[id], t.writers[id]) && Ends(env, s.writers[id].event, |hist|, t.writers[id].pc)
    decreases Left(s.writers[id].pc)
  {
    var e := SoloStep(env, s, hist, id);
    hide Inv, Enabled, Apply, Current, Left, Ends, Own;
    var t := Apply(env, s, e);
    assert Alone(env, s, t, id);
    if Ends(env, s.writers[id].event, |hist|, t.writers[id].pc) {
      states := [s, t];
    } else {
      var rest := Solo(env, t, hist, id);
      states := [s] + rest;
      AloneThen(env, s, rest, id);
    }
    hide Alone;
  }

  lemma AloneThen(env: Env, s: State, rest: seq<State>, id: Bytes)
    requires rest != [] && Alone(env, s, rest[0], id) && AllAlone(env, rest, id)
    ensures AllAlone(env, [s] + rest, id)
  {
    hide Alone;
    var all := [s] + rest;
    forall i | 0 < i < |all|
      ensures Alone(env, all[i - 1], all[i], id)
    {
      if i > 1 {
        assert all[i - 1] == rest[i - 2] && all[i] == rest[i - 1];
      }
    }
  }

  lemma {:induction false} RunGoesOn(env: Env, states: seq<State>, more: seq<State>, id: Bytes)
    requires Run(env, states) && more != [] && states[|states| - 1] == more[0] && AllAlone(env, more, id)
    ensures Run(env, states + more[1..])
  {
    hide Step, Alone;
    var all, n := states + more[1..], |states|;
    forall i | 0 < i < |all|
      ensures Step(env, all[i - 1], all[i])
    {
      if i >= n {
        assert all[i] == more[i - n + 1] && all[i - 1] == more[i - n];
        AloneIsStep(env, all[i - 1], all[i], id);
      }
    }
  }

  lemma AloneIsStep(env: Env, s: State, t: State, id: Bytes)
    requires Alone(env, s, t, id)
    ensures Step(env, s, t)
  {
    hide Enabled, Apply, Own;
  }

  /** From any state of any run, an append that is about to list, or that stands on the
      current head, comes to an end when it runs on alone without faults: its batch is
      committed as the revision after the head, unless the log is full or the caller's codec
      refuses the batch. It never takes more than its own steps. */
  lemma AppendCompletes(env: Env, states: seq<State>, id: Bytes, head: int) returns (more: seq<State>)
    requires ValidEnv(env) && Run(env, states)
    requires
      var s := states[|states| - 1];
      IsHead(s.store, head) && id in s.writers && Current(s.writers[id].pc, head)
    ensures more != [] && more[0] == states[|states| - 1] && AllAlone(env, more, id) && Run(env, states + more[1..])
    ensures
      var w, t := more[0].writers[id], more[|more| - 1];
      id in t.writers && Ends(env, w.event, head, t.writers[id].pc) &&
      (env.decodable(w.event) && head < MAX_REVISION ==>
         t.writers[id].pc == Done(head + 1) && Holds(t.store, id, head + 1) && t.store[LogKey(head + 1)].commit.event == w.event)
  {
    hide *;
    var logs := RunKeeps(env, states);
    var n := |states| - 1;
    RunNotEmpty(env, states);
    InvIsLog(env, states[n], logs[n]);
    HeadIsLast(states[n].store, logs[n], head);
    more := Solo(env, states[n], logs[n], id);
    RunGoesOn(env, states, more, id);
    var t, w := more[|more| - 1], states[n].writers[id];
    var all := states + more[1..];
    assert all[|all| - 1] == t;
    if env.decodable(w.event) && head < MAX_REVISION {
      EndsDone(env, w.event, head, t.writers[id].pc);
      SuccessIsCommitted(env, all, |all| - 1, id);
      SameEvent(w, t.writers[id]);
    }
  }

  lemma RunNotEmpty(env: Env, states: seq<State>)
    requires Run(env, states)
    ensures states != []
  {
  }

  lemma EndsDone(env: Env, event: Bytes, head: int, pc: Pc)
    requires Ends(env, event, head, pc) && env.decodable(event) && head < MAX_REVISION
    ensures pc == Done(head + 1)
  {
  }

  lemma SameEvent(w: Writer, w2: Writer)
    requires SameCall(w, w2)
    ensures w2.event == w.event
  {
  }
}
