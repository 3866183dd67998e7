/**
 Any number of writers appending through a shared create-only store. Each step is one
 List, Get or Create, or one purely local check. A Create whose caller sees an error may
 take effect later, or never; any read may fail and any caller may be cancelled.
 */
module Protocol {
  import opened Wrappers
  import opened Radix
  import opened Wire
  import opened Carry
  import opened Segment
  import Frontier

  type Store = map<Key, Body>

  function Reader(store: Store): Getter {
    key => if key in store then Ok(store[key]) else Err(NotFound)
  }

  /** Where an append stands. From Carrying to SegmentCheck the writer holds the root it
      builds on, the level array, the reference being carried and its level. */
  datatype Pc =
    | Listing
    | Listed(head: int)
    | Carrying(base: Snapshot, lv: Levels, ref: ObjectRef, level: nat)
    | Packing(base: Snapshot, lv: Levels, ref: ObjectRef, level: nat, loaded: seq<Projection>, n: nat)
    | SegmentCreate(base: Snapshot, lv: Levels, ref: ObjectRef, level: nat, segment: ObjectRef, body: Body)
    | SegmentCheck(base: Snapshot, lv: Levels, ref: ObjectRef, level: nat, segment: ObjectRef, existed: bool)
    | Publish(commit: Commit)
    | Check(commit: Commit, existed: bool)
    | Done(revision: int)
    | Conflicted
    | Failed(error: Error)

  /** One invocation of Append or AppendTo, with the conflicts it may still retry. */
  datatype Writer = Writer(event: Bytes, retries: nat, base: Option<int>, pc: Pc)

  /** Invocations are named by their commit ID. */
  datatype State = State(store: Store, inflight: set<(Key, Body)>, writers: map<Bytes, Writer>)

  datatype Event =
    | Append(id: Bytes, event: Bytes, retries: nat)
    | AppendTo(id: Bytes, event: Bytes, base: int)
    | List(id: Bytes, head: int)
    | Advance(id: Bytes)
    | Lose(id: Bytes)
    | Fail(id: Bytes)
    | Land(key: Key, body: Body)

  // ---- One writer ----

  /** The tail of appendPrepared before publication. */
  function Build(env: Env, id: Bytes, event: Bytes, base: Option<Commit>, frontier: seq<FrontierLevel>): Pc {
    var revision := if base.Some? then base.value.revision + 1 else 1;
    var previous := if base.Some? then Some(Previous(LogKey(base.value.revision), base.value.recordHash)) else None;
    var prevHash := if base.Some? then base.value.recordHash else ZERO_HASH;
    if revision < 1 || !FrontierOK(frontier, revision, prevHash) then Failed(Corrupt)
    else
      var c := Commit(COMMIT_FORMAT, revision, id, previous, event, RecordHash(env, revision, id, prevHash, event), frontier);
      if DecodeCommit(env, LogKey(revision), EncodeCommit(c)).Err? then Failed(Corrupt)
      else if !env.decodable(event) then Failed(Callback)
      else Publish(c)
  }

  /** appendPrepared up to the carry. */
  function Enter(env: Env, id: Bytes, event: Bytes, base: Option<Snapshot>): Pc {
    match base
    case None => Build(env, id, event, None, [])
    case Some(b) =>
      if b.commit.revision == MAX_REVISION then Failed(Exhausted)
      else Carrying(b, Spread(b.commit.frontier), CommitRef(env, b.commit, b.body), 0)
  }

  /** Fetching and decoding a root. */
  function LoadRoot(env: Env, store: Store, revision: int, missing: Error): Result<Snapshot> {
    match Reader(store)(LogKey(revision))
    case Err(_) => Err(missing)
    case Ok(body) =>
      match DecodeCommit(env, LogKey(revision), body)
      case Err(e) => Err(e)
      case Ok(c) => if env.decodable(c.event) then Ok(Snapshot(c, body)) else Err(Callback)
  }

  function Children(lv: Levels, ref: ObjectRef, level: nat): seq<ObjectRef>
    requires level < 16
  {
    lv[level] + [ref]
  }

  /** The next step of the carry loop. */
  function NextCarry(env: Env, id: Bytes, event: Bytes, base: Snapshot, lv: Levels, ref: ObjectRef, level: nat): Pc {
    if level >= 16 then Build(env, id, event, Some(base.commit), Frontier.Gather(lv, 16))
    else if |Children(lv, ref, level)| < 16 then
      Build(env, id, event, Some(base.commit), Frontier.Gather(Push(lv, level, ref), 16))
    else if |Children(lv, ref, level)| > 16 then Failed(Corrupt)
    else Packing(base, lv, ref, level, [], 0)
  }

  /** createSegment: replays the next child, or finishes the stream. */
  function NextPack(env: Env, store: Store, pc: Pc): Pc
    requires pc.Packing? && pc.level < 16 && |Children(pc.lv, pc.ref, pc.level)| == 16
  {
    var children := Children(pc.lv, pc.ref, pc.level);
    var first := children[0];
    if pc.n < 16 then
      match LoadRecords(env, Reader(store), Some(pc.base), children[pc.n])
      case Err(e) => Failed(e)
      case Ok(ps) =>
        if Adjacent(ps, first.start + |pc.loaded|, LastHash(pc.loaded, first.firstPrevHash))
        then pc.(loaded := pc.loaded + ps, n := pc.n + 1) else Failed(Corrupt)
    else if first.start < 0 || children[15].end < 0 || !Packable(env, children, pc.loaded) then Failed(Corrupt)
    else
      var segment := SegmentRef(env, children, pc.loaded);
      SegmentCreate(pc.base, pc.lv, pc.ref, pc.level, segment, EncodeSegment(segment.level, segment.start, segment.end, pc.loaded))
  }

  function CarryOver(pc: Pc): (next: Pc)
    requires (pc.SegmentCreate? || pc.SegmentCheck?) && pc.level < 16
    ensures next.Carrying? && next.level == pc.level + 1 && next.ref == pc.segment
  {
    Carrying(pc.base, pc.lv[pc.level := []], pc.segment, pc.level + 1)
  }

  /** createAggregate's look at a segment whose creation it cannot vouch for. */
  function SegmentChecked(env: Env, store: Store, pc: Pc): Pc
    requires pc.SegmentCheck? && pc.level < 16
  {
    match Reader(store)(pc.segment.key)
    case Err(_) => Failed(if pc.existed then Corrupt else Io)
    case Ok(body) => if DecodeSegment(env, pc.segment, body).Ok? then CarryOver(pc) else Failed(Corrupt)
  }

  /** appendPrepared's look at the key it tried to create. */
  function CommitChecked(env: Env, store: Store, id: Bytes, w: Writer): Writer
    requires w.pc.Check?
  {
    var c := w.pc.commit;
    match LoadRoot(env, store, c.revision, if w.pc.existed then Corrupt else Io)
    case Err(e) => w.(pc := Failed(e))
    case Ok(winner) =>
      if winner.commit.commitId == id then
        w.(pc := if winner.commit.recordHash == c.recordHash then Done(c.revision) else Failed(Corrupt))
      else if w.retries > 0 then Writer(w.event, w.retries - 1, w.base, Listing)
      else w.(pc := Conflicted)
  }

  predicate Finished(pc: Pc) {
    pc.Done? || pc.Conflicted? || pc.Failed?
  }

  /** A writer's own next step, and the object it creates in taking it. */
  function Next(env: Env, store: Store, id: Bytes, w: Writer): (Writer, Option<(Key, Body)>) {
    match w.pc
    case Listed(head) =>
      (match LoadRoot(env, store, head, Corrupt)
       case Err(e) => (w.(pc := Failed(e)), None)
       case Ok(b) => (w.(pc := Enter(env, id, w.event, Some(b))), None))
    case Carrying(base, lv, ref, level) => (w.(pc := NextCarry(env, id, w.event, base, lv, ref, level)), None)
    case Packing(_, lv, ref, level, _, _) =>
      if level < 16 && |Children(lv, ref, level)| == 16 then (w.(pc := NextPack(env, store, w.pc)), None) else (w, None)
    case SegmentCreate(base, lv, ref, level, segment, body) =>
      if level >= 16 then (w, None)
      else if segment.key in store then (w.(pc := SegmentCheck(base, lv, ref, level, segment, true)), None)
      else (w.(pc := CarryOver(w.pc)), Some((segment.key, body)))
    case SegmentCheck(_, _, _, level, _, _) =>
      if level < 16 then (w.(pc := SegmentChecked(env, store, w.pc)), None) else (w, None)
    case Publish(c) =>
      if LogKey(c.revision) in store then (w.(pc := Check(c, true)), None)
      else (w.(pc := Done(c.revision)), Some((LogKey(c.revision), EncodeCommit(c))))
    case Check(_, _) => (CommitChecked(env, store, id, w), None)
    case _ => (w, None)
  }

  // ---- The system ----

  /** What LoadHead's one-key List finds: the greatest revision present, 0 when none is. */
  ghost predicate IsHead(store: Store, head: int) {
    && (head == 0 || LogKey(head) in store)
    && (forall r :: LogKey(r) in store ==> r <= head)
  }

  /** What prepare yields for a nonempty batch and a new invocation. */
  ghost predicate Prepared(env: Env, id: Bytes, event: Bytes) {
    |id| == 16 && |event| >= 3 && event[0] == 91 && event[|event| - 1] == 93 && env.canonical(event)
  }

  function Put(s: State, created: Option<(Key, Body)>): Store {
    if created.Some? && created.value.0 !in s.store then s.store[created.value.0 := created.value.1] else s.store
  }

  ghost predicate Enabled(env: Env, s: State, e: Event) {
    match e
    case Append(id, event, _) => id !in s.writers && Prepared(env, id, event)
    case AppendTo(id, event, base) =>
      id !in s.writers && Prepared(env, id, event) && (base == 0 || LoadRoot(env, s.store, base, NotFound).Ok?)
    case List(id, head) => id in s.writers && s.writers[id].pc.Listing? && IsHead(s.store, head)
    case Advance(id) => id in s.writers && !Finished(s.writers[id].pc) && !s.writers[id].pc.Listing?
    case Lose(id) => id in s.writers && (s.writers[id].pc.SegmentCreate? || s.writers[id].pc.Publish?)
    case Fail(id) => id in s.writers && !Finished(s.writers[id].pc)
    case Land(key, body) => (key, body) in s.inflight && key !in s.store
  }

  function With(s: State, id: Bytes, w: Writer): State {
    s.(writers := s.writers[id := w])
  }

  function Apply(env: Env, s: State, e: Event): State
    requires Enabled(env, s, e)
  {
    match e
    case Append(id, event, retries) => With(s, id, Writer(event, retries, None, Listing))
    case AppendTo(id, event, base) =>
      var root := if base == 0 then None else Some(LoadRoot(env, s.store, base, NotFound).value);
      With(s, id, Writer(event, 0, Some(base), Enter(env, id, event, root)))
    case List(id, head) =>
      var w := s.writers[id];
      With(s, id, w.(pc := if head == 0 then Enter(env, id, w.event, None) else Listed(head)))
    case Advance(id) =>
      var n := Next(env, s.store, id, s.writers[id]);
      With(s.(store := Put(s, n.1)), id, n.0)
    case Lose(id) =>
      var w := s.writers[id];
      (match w.pc
       case SegmentCreate(base, lv, ref, level, segment, body) =>
         With(s.(inflight := s.inflight + {(segment.key, body)}), id, w.(pc := SegmentCheck(base, lv, ref, level, segment, false)))
       case Publish(c) =>
         With(s.(inflight := s.inflight + {(LogKey(c.revision), EncodeCommit(c))}), id, w.(pc := Check(c, false)))
       case _ => s)
    case Fail(id) => With(s, id, s.writers[id].(pc := Failed(Io)))
    case Land(key, body) => s.(store := Put(s, Some((key, body))))
  }

  ghost predicate Step(env: Env, s: State, t: State) {
    exists e :: Enabled(env, s, e) && t == Apply(env, s, e)
  }

  const INITIAL := State(map[], {}, map[])

  ghost predicate Run(env: Env, states: seq<State>) {
    && states != [] && states[0] == INITIAL
    && forall i :: 0 < i < |states| ==> Step(env, states[i - 1], states[i])
  }
}
