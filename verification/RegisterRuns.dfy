/**
 Clients running the register loop of the State example against one shared log, in every
 interleaving with each other and with the protocol's own steps.
 */
module RegisterRuns {
  import opened Wrappers
  import opened Radix
  import opened Wire
  import opened Segment
  import opened History
  import opened ReadPlan
  import opened Scan
  import opened ScanIntact
  import opened ScanSound
  import opened Protocol
  import opened ProtocolSafe
  import opened ProtocolRuns
  import opened ProtocolResults
  import StateSync
  import opened Register

  datatype ClientPc =
    | Idle
    | Wanting(name: string)
    | Synced(name: string)
    | Waiting(name: string, userId: int, call: Bytes)
    | Broken

  /** A client: its State's index and revision, and where its register call stands. */
  datatype Client = Client(index: Index, position: int, pc: ClientPc)

  datatype System = System(log: State, clients: map<int, Client>)

  datatype Action =
    | Ask(k: int, name: string)
    | Sync(k: int, head: int, read: Reading)
    | Decide(k: int, call: Bytes, event: Bytes)
    | Observe(k: int, read: Reading)
    | Internal(e: Event)

  type Reg = Bytes -> Registration

  /** How one catch-up reads: the answers it gets, its plan, and where it is stopped. */
  datatype Reading = Reading(get: Getter, cheaper: Cheaper, ctl: Control)

  /** Any answer may be an error; the others are what the store holds. */
  ghost predicate Answers(get: Getter, store: Store) {
    forall k :: get(k).Ok? ==> get(k) == Reader(store)(k)
  }

  /** The scan of a catch-up from position to a root. */
  function Batches(env: Env, store: Store, position: int, head: int, read: Reading): ScanResult {
    var snap := if LogKey(head) in store && store[LogKey(head)].CommitBody? then Some(store[LogKey(head)].commit) else None;
    ScanLog(env, read.get, snap, After(position), read.cheaper, read.ctl)
  }

  function RegsIn(reg: Reg, ps: seq<Projection>): (regs: seq<Registration>)
    ensures |regs| == |ps|
  {
    seq(|ps|, i requires 0 <= i < |ps| => reg(ps[i].event))
  }

  /** SyncTo of a client's State: it applies what its scan delivers, and goes on to `after`
      only if the scan ended without an error. */
  function CatchUp(env: Env, reg: Reg, store: Store, c: Client, head: int, read: Reading, after: ClientPc): Client {
    if head < c.position then c.(pc := Idle)
    else
      var res := Batches(env, store, c.position, head, read);
      match StateSync.Fold(Register.Apply, c.index, RegsIn(reg, res.out))
      case None => c.(pc := Broken)
      case Some(idx) => Client(idx, c.position + |res.out|, if res.err.None? then after else Idle)
  }

  ghost predicate Can(env: Env, reg: Reg, s: System, a: Action) {
    match a
    case Ask(k, name) => name != "" && (k in s.clients ==> s.clients[k].pc.Idle?)
    case Sync(k, head, read) =>
      k in s.clients && s.clients[k].pc.Wanting? && IsHead(s.log.store, head) && Answers(read.get, s.log.store)
    case Decide(k, call, event) =>
      k in s.clients && s.clients[k].pc.Synced? &&
      var c := s.clients[k];
      Taken(c) || (reg(event) == Registration(c.pc.name, c.index.maxId + 1) && Enabled(env, s.log, AppendTo(call, event, c.position)))
    case Observe(k, read) =>
      Answers(read.get, s.log.store) && k in s.clients && s.clients[k].pc.Waiting? && s.clients[k].pc.call in s.log.writers &&
      Finished(s.log.writers[s.clients[k].pc.call].pc)
    case Internal(e) => Enabled(env, s.log, e) && !e.Append? && !e.AppendTo?
  }

  /** The name is in use, or there is no further ID. */
  predicate Taken(c: Client)
    requires c.pc.Synced?
  {
    c.pc.name in c.index.byName || c.index.maxId >= MAX_REVISION
  }

  function WithClient(s: System, k: int, c: Client): System {
    s.(clients := s.clients[k := c])
  }

  function Do(env: Env, reg: Reg, s: System, a: Action): System
    requires Can(env, reg, s, a)
  {
    match a
    case Ask(k, name) =>
      var c := if k in s.clients then s.clients[k] else Client(EMPTY_INDEX, 0, Idle);
      WithClient(s, k, c.(pc := Wanting(name)))
    case Sync(k, head, read) =>
      var c := s.clients[k];
      WithClient(s, k, CatchUp(env, reg, s.log.store, c, head, read, Synced(c.pc.name)))
    case Decide(k, call, event) =>
      var c := s.clients[k];
      if Taken(c) then WithClient(s, k, c.(pc := Idle))
      else
        WithClient(s.(log := Protocol.Apply(env, s.log, AppendTo(call, event, c.position))), k,
             c.(pc := Waiting(c.pc.name, c.index.maxId + 1, call)))
    case Observe(k, read) =>
      var c := s.clients[k];
      (match s.log.writers[c.pc.call].pc
       case Conflicted => WithClient(s, k, c.(pc := Wanting(c.pc.name)))
       case Done(r) => WithClient(s, k, CatchUp(env, reg, s.log.store, c, r, read, Idle))
       case _ => WithClient(s, k, c.(pc := Idle)))
    case Internal(e) => s.(log := Protocol.Apply(env, s.log, e))
  }

  ghost predicate Move(env: Env, reg: Reg, s: System, t: System) {
    exists a :: Can(env, reg, s, a) && t == Do(env, reg, s, a)
  }

  const FIRST := System(INITIAL, map[])

  ghost predicate Play(env: Env, reg: Reg, systems: seq<System>) {
    && systems != [] && systems[0] == FIRST
    && forall i :: 0 < i < |systems| ==> Move(env, reg, systems[i - 1], systems[i])
  }

  // ---- The invariant ----

  /** The registrations of a log, one per commit. */
  function Regs(reg: Reg, hist: seq<Commit>): (regs: seq<Registration>)
    ensures |regs| == |hist|
  {
    seq(|hist|, i requires 0 <= i < |hist| => reg(hist[i].event))
  }

  /** The call appends to a log its registration may follow. */
  ghost predicate Conforms(reg: Reg, hist: seq<Commit>, w: Writer) {
    w.base.Some? && 0 <= w.base.value <= |hist| && Proper(Regs(reg, hist[..w.base.value]) + [reg(w.event)])
  }

  /** A client's index is the replay of the log through its position. */
  ghost predicate ClientOK(reg: Reg, hist: seq<Commit>, c: Client) {
    && 0 <= c.position <= |hist| && !c.pc.Broken?
    && StateSync.Fold(Register.Apply, EMPTY_INDEX, Regs(reg, hist[..c.position])) == Some(c.index)
    && (c.pc.Wanting? || c.pc.Synced? || c.pc.Waiting? ==> c.pc.name != "")
  }

  /** A waiting client's call carries its registration. */
  predicate Called(reg: Reg, writers: map<Bytes, Writer>, pc: ClientPc) {
    pc.Waiting? ==> pc.call in writers && reg(writers[pc.call].event) == Registration(pc.name, pc.userId)
  }

  ghost predicate SystemOK(env: Env, reg: Reg, s: System, hist: seq<Commit>) {
    && Inv(env, s.log, hist) && AllAuthored(s.log)
    && (forall id :: id in s.log.writers ==> Conforms(reg, hist, s.log.writers[id]))
    && (forall k :: k in s.clients ==> ClientOK(reg, hist, s.clients[k]) && Called(reg, s.log.writers, s.clients[k].pc))
  }

  lemma ConformsGrows(reg: Reg, hist: seq<Commit>, more: seq<Commit>, w: Writer)
    requires Conforms(reg, hist, w) && hist <= more
    ensures Conforms(reg, more, w)
  {
    hide Proper;
    PrefixPart(hist, more, w.base.value);
  }

  lemma ClientGrows(reg: Reg, hist: seq<Commit>, more: seq<Commit>, c: Client)
    requires ClientOK(reg, hist, c) && hist <= more
    ensures ClientOK(reg, more, c)
  {
    PrefixPart(hist, more, c.position);
  }

  /** When every call conforms, so does the whole log. */
  lemma {:induction false} LogProper(env: Env, reg: Reg, s: System, hist: seq<Commit>, n: nat)
    requires SystemOK(env, reg, s, hist) && n <= |hist|
    ensures Proper(Regs(reg, hist[..n]))
  {
    hide *;
    if n == 0 {
      NoRegs(reg, hist);
    } else {
      LogProper(env, reg, s, hist, n - 1);
      CommitConforms(env, reg, s, hist, n);
      RegsNext(reg, hist, n);
    }
  }

  lemma NoRegs(reg: Reg, hist: seq<Commit>)
    ensures Proper(Regs(reg, hist[..0]))
  {
  }

  lemma RegsNext(reg: Reg, hist: seq<Commit>, n: nat)
    requires 0 < n <= |hist|
    ensures Regs(reg, hist[..n]) == Regs(reg, hist[..n - 1]) + [reg(hist[n - 1].event)]
  {
  }

  /** A commit of the log carries a registration proper after those before it. */
  lemma CommitConforms(env: Env, reg: Reg, s: System, hist: seq<Commit>, r: int)
    requires SystemOK(env, reg, s, hist) && 1 <= r <= |hist|
    ensures Proper(Regs(reg, hist[..r - 1]) + [reg(hist[r - 1].event)])
  {
    hide Inv, AllAuthored, Conforms, ClientOK, Proper, World;
    InvIsLog(env, s.log, hist);
    var c := hist[r - 1];
    assert LogKey(r) in s.log.store;
    StoredAuthored(s.log, r);
    RevisionAt(env, s.log, hist, r);
    var w := s.log.writers[c.commitId];
    assert Conforms(reg, hist, w);
    ConformsBase(reg, hist, w);
  }

  lemma ConformsBase(reg: Reg, hist: seq<Commit>, w: Writer)
    requires Conforms(reg, hist, w)
    ensures w.base.Some? && 0 <= w.base.value <= |hist| && Proper(Regs(reg, hist[..w.base.value]) + [reg(w.event)])
  {
  }

  lemma StoredAuthored(s: State, r: int)
    requires AllAuthored(s) && LogKey(r) in s.store && s.store[LogKey(r)].CommitBody?
    ensures Authored(s.writers, s.store[LogKey(r)].commit)
  {
  }

  lemma RevisionAt(env: Env, s: State, hist: seq<Commit>, r: int)
    requires Inv(env, s, hist) && 1 <= r <= |hist|
    ensures hist[r - 1].revision == r
  {
    InvParts(env, s, hist);
    hide Inv, StoreOK;
    RootRevision(env, Reader(s.store), hist, r);
  }

  // ---- Catching up ----

  /** From a root of the log a catch-up is given the batches after its position, all of
      them when its scan ends without an error. */
  lemma BatchesAre(env: Env, reg: Reg, s: System, hist: seq<Commit>, position: int, head: int, read: Reading)
    requires SystemOK(env, reg, s, hist) && Answers(read.get, s.log.store) && 0 <= position <= head <= |hist|
    ensures
      var res := Batches(env, s.log.store, position, head, read);
      |res.out| <= head - position && (res.err.None? ==> |res.out| == head - position) &&
      RegsIn(reg, res.out) == Regs(reg, hist[..position + |res.out|])[position..]
  {
    hide *;
    SystemLog(env, reg, s, hist);
    SnapshotFound(env, s.log.store, hist, position, head, read);
    if head > 0 {
      RootRevision(env, Reader(s.log.store), hist, head);
    }
    AfterValid(hist, position, head);
    AnswersReliable(env, s.log.store, read.get, hist);
    ScanNeverLies(env, read.get, hist, head, After(position), read.cheaper, read.ctl);
    NextRegs(reg, hist, position, head, Batches(env, s.log.store, position, head, read).out);
  }

  /** A sound store read with errors is an undamaged one. */
  lemma AnswersReliable(env: Env, store: Store, get: Getter, hist: seq<Commit>)
    requires World(env, Reader(store), hist) && Answers(get, store)
    ensures Reliable(env, get, hist)
  {
    forall r | 1 <= r <= |hist|
      ensures UndamagedAt(env, get, hist, r)
    {
      AnswersAt(env, store, get, hist, r);
    }
    hide UndamagedAt;
  }

  lemma AnswersAt(env: Env, store: Store, get: Getter, hist: seq<Commit>, r: int)
    requires World(env, Reader(store), hist) && Answers(get, store) && 1 <= r <= |hist|
    ensures UndamagedAt(env, get, hist, r)
  {
    CommitServed(env, Reader(store), hist, r);
    FrontierGood(env, Reader(store), hist, r);
    hide World, Honest, Intact, TrueBody, DecodeCommit;
    forall x | x in Refs(hist[r - 1].frontier)
      ensures TrueOrError(env, get, hist, x)
    {
      assert Good(env, Reader(store), hist, x);
      hide TrueRef, ValidRef;
    }
  }

  lemma SystemLog(env: Env, reg: Reg, s: System, hist: seq<Commit>)
    requires SystemOK(env, reg, s, hist)
    ensures IsLog(s.log.store, hist) && World(env, Reader(s.log.store), hist) && Inv(env, s.log, hist) && AllAuthored(s.log)
  {
    hide Inv, AllAuthored, Conforms, ClientOK, IsLog, World;
    InvIsLog(env, s.log, hist);
  }

  lemma SnapshotFound(env: Env, store: Store, hist: seq<Commit>, position: int, head: int, read: Reading)
    requires IsLog(store, hist) && 0 <= head <= |hist|
    ensures Batches(env, store, position, head, read)
            == ScanLog(env, read.get, SnapshotAt(hist, head), After(position), read.cheaper, read.ctl)
  {
    hide ScanLog;
  }

  lemma AfterValid(hist: seq<Commit>, position: int, head: int)
    requires 0 <= position <= head && (head > 0 ==> ValidRevision(head))
    ensures ValidRange(After(position))
  {
  }

  lemma NextRegs(reg: Reg, hist: seq<Commit>, position: int, head: int, out: seq<Projection>)
    requires 0 <= position <= head <= |hist| && (head > 0 ==> ValidRevision(head)) && ValidRange(After(position))
    requires out <= Requested(hist, head, After(position))
    ensures |Requested(hist, head, After(position))| == head - position
    ensures |out| <= head - position && RegsIn(reg, out) == Regs(reg, hist[..position + |out|])[position..]
  {
    hide ValidRange;
    var want := Requested(hist, head, After(position));
    assert |want| == head - position && forall i :: 0 <= i < |want| ==> want[i].event == hist[position + i].event;
    assert forall i :: 0 <= i < |out| ==> out[i] == want[i];
  }

  lemma CatchUpOK(env: Env, reg: Reg, s: System, hist: seq<Commit>, c: Client, head: int, read: Reading, after: ClientPc)
    requires SystemOK(env, reg, s, hist) && Answers(read.get, s.log.store) && ClientOK(reg, hist, c) && 0 <= head <= |hist|
    requires after.Idle? || (after.Synced? && after.name != "")
    ensures ClientOK(reg, hist, CatchUp(env, reg, s.log.store, c, head, read, after))
    ensures CatchUp(env, reg, s.log.store, c, head, read, after).pc.Idle? ||
            CatchUp(env, reg, s.log.store, c, head, read, after).pc == after
  {
    hide *;
    ClientFacts(reg, hist, c);
    if c.position <= head {
      BatchesAre(env, reg, s, hist, c.position, head, read);
      var n := |Batches(env, s.log.store, c.position, head, read).out|;
      LogProper(env, reg, s, hist, c.position + n);
      CatchUpFold(reg, hist, c, n);
    }
    CatchUpForm(env, reg, s.log.store, hist, c, head, read, after);
  }

  lemma ClientFacts(reg: Reg, hist: seq<Commit>, c: Client)
    requires ClientOK(reg, hist, c)
    ensures 0 <= c.position <= |hist| && StateSync.Fold(Register.Apply, EMPTY_INDEX, Regs(reg, hist[..c.position])) == Some(c.index)
  {
    hide StateSync.Fold, Regs;
  }

  lemma CatchUpFold(reg: Reg, hist: seq<Commit>, c: Client, n: nat)
    requires 0 <= c.position && c.position + n <= |hist|
    requires StateSync.Fold(Register.Apply, EMPTY_INDEX, Regs(reg, hist[..c.position])) == Some(c.index)
    requires Proper(Regs(reg, hist[..c.position + n]))
    ensures
      var all := Regs(reg, hist[..c.position + n]);
      StateSync.Fold(Register.Apply, EMPTY_INDEX, all).Some? &&
      StateSync.Fold(Register.Apply, c.index, all[c.position..]) == StateSync.Fold(Register.Apply, EMPTY_INDEX, all)
  {
    var all := Regs(reg, hist[..c.position + n]);
    assert all[..c.position] == Regs(reg, hist[..c.position]) && all == all[..c.position] + all[c.position..];
    hide Proper, Regs, Register.Apply;
    ReplayProper(all);
    StateSync.FoldConcat(Register.Apply, EMPTY_INDEX, all[..c.position], all[c.position..]);
  }

  lemma CatchUpForm(env: Env, reg: Reg, store: Store, hist: seq<Commit>, c: Client, head: int, read: Reading, after: ClientPc)
    requires after.Idle? || (after.Synced? && after.name != "")
    requires ClientOK(reg, hist, c)
    requires
      var n := |Batches(env, store, c.position, head, read).out|;
      c.position <= head ==>
        (0 <= c.position && c.position + n <= |hist| &&
         var all := Regs(reg, hist[..c.position + n]);
         RegsIn(reg, Batches(env, store, c.position, head, read).out) == all[c.position..] &&
         StateSync.Fold(Register.Apply, EMPTY_INDEX, all).Some? &&
         StateSync.Fold(Register.Apply, c.index, all[c.position..]) == StateSync.Fold(Register.Apply, EMPTY_INDEX, all))
    ensures
      var c2 := CatchUp(env, reg, store, c, head, read, after);
      ClientOK(reg, hist, c2) && (c2.pc.Idle? || c2.pc == after)
  {
    hide StateSync.Fold, Regs, RegsIn, Batches;
  }

  // ---- Every action ----

  /** Only one client moved. */
  lemma ClientMoves(env: Env, reg: Reg, s: System, hist: seq<Commit>, k: int, c: Client)
    requires SystemOK(env, reg, s, hist) && ClientOK(reg, hist, c) && Called(reg, s.log.writers, c.pc)
    ensures SystemOK(env, reg, WithClient(s, k, c), hist)
  {
    hide Inv, AllAuthored, Conforms, ClientOK, Called;
  }

  lemma ClientAt(env: Env, reg: Reg, s: System, hist: seq<Commit>, k: int)
    requires SystemOK(env, reg, s, hist) && k in s.clients
    ensures ClientOK(reg, hist, s.clients[k]) && Called(reg, s.log.writers, s.clients[k].pc)
  {
    hide Inv, AllAuthored, Conforms, ClientOK, Called;
  }

  lemma Reposition(reg: Reg, hist: seq<Commit>, writers: map<Bytes, Writer>, c: Client, pc: ClientPc)
    requires ClientOK(reg, hist, c)
    requires pc.Idle? || ((pc.Wanting? || pc.Synced?) && pc.name != "")
    ensures ClientOK(reg, hist, c.(pc := pc)) && Called(reg, writers, pc)
  {
    hide StateSync.Fold, Regs;
  }

  lemma NewClient(reg: Reg, hist: seq<Commit>)
    ensures ClientOK(reg, hist, Client(EMPTY_INDEX, 0, Idle))
  {
    assert Regs(reg, hist[..0]) == [];
  }

  lemma AskOK(env: Env, reg: Reg, s: System, hist: seq<Commit>, a: Action)
    requires SystemOK(env, reg, s, hist) && a.Ask? && Can(env, reg, s, a)
    ensures SystemOK(env, reg, Do(env, reg, s, a), hist)
  {
    hide SystemOK, ClientOK, Called, Enabled;
    var c := if a.k in s.clients then s.clients[a.k] else Client(EMPTY_INDEX, 0, Idle);
    if a.k in s.clients {
      ClientAt(env, reg, s, hist, a.k);
    } else {
      NewClient(reg, hist);
    }
    Reposition(reg, hist, s.log.writers, c, Wanting(a.name));
    ClientMoves(env, reg, s, hist, a.k, c.(pc := Wanting(a.name)));
  }

  lemma SyncOK(env: Env, reg: Reg, s: System, hist: seq<Commit>, a: Action)
    requires SystemOK(env, reg, s, hist) && a.Sync? && Can(env, reg, s, a)
    ensures SystemOK(env, reg, Do(env, reg, s, a), hist)
  {
    hide SystemOK, ClientOK, Called, Enabled, IsHead, CatchUp, IsLog, World;
    SystemLog(env, reg, s, hist);
    HeadIsLast(s.log.store, hist, a.head);
    ClientAt(env, reg, s, hist, a.k);
    var c := s.clients[a.k];
    ClientName(reg, hist, c);
    CatchUpOK(env, reg, s, hist, c, a.head, a.read, Synced(c.pc.name));
    NotWaiting(reg, s.log.writers, CatchUp(env, reg, s.log.store, c, a.head, a.read, Synced(c.pc.name)).pc);
    ClientMoves(env, reg, s, hist, a.k, CatchUp(env, reg, s.log.store, c, a.head, a.read, Synced(c.pc.name)));
  }

  lemma NotWaiting(reg: Reg, writers: map<Bytes, Writer>, pc: ClientPc)
    requires !pc.Waiting?
    ensures Called(reg, writers, pc)
  {
  }

  lemma ClientName(reg: Reg, hist: seq<Commit>, c: Client)
    requires ClientOK(reg, hist, c) && (c.pc.Wanting? || c.pc.Synced? || c.pc.Waiting?)
    ensures c.pc.name != ""
  {
    hide StateSync.Fold, Regs;
  }

  lemma ObserveOK(env: Env, reg: Reg, s: System, hist: seq<Commit>, a: Action)
    requires SystemOK(env, reg, s, hist) && a.Observe? && Can(env, reg, s, a)
    ensures SystemOK(env, reg, Do(env, reg, s, a), hist)
  {
    hide SystemOK, ClientOK, Called, Enabled, IsHead, CatchUp, IsLog, World;
    SystemLog(env, reg, s, hist);
    ClientAt(env, reg, s, hist, a.k);
    var c := s.clients[a.k];
    ClientName(reg, hist, c);
    var pc := s.log.writers[c.pc.call].pc;
    if pc.Done? {
      DoneInLog(env, s.log, hist, c.pc.call);
      CatchUpOK(env, reg, s, hist, c, pc.revision, a.read, Idle);
      var c2 := CatchUp(env, reg, s.log.store, c, pc.revision, a.read, Idle);
      NotWaiting(reg, s.log.writers, c2.pc);
      ClientMoves(env, reg, s, hist, a.k, c2);
    } else {
      var next := if pc.Conflicted? then Wanting(c.pc.name) else Idle;
      Reposition(reg, hist, s.log.writers, c, next);
      ClientMoves(env, reg, s, hist, a.k, c.(pc := next));
    }
  }

  lemma DoneInLog(env: Env, s: State, hist: seq<Commit>, id: Bytes)
    requires Inv(env, s, hist) && id in s.writers && s.writers[id].pc.Done?
    ensures 1 <= s.writers[id].pc.revision <= |hist| && hist[s.writers[id].pc.revision - 1].commitId == id
  {
    hide Inv;
    WriterParts(env, s, hist, id);
    DoneAt(s.inflight, hist, id, s.writers[id].pc);
  }

  lemma DecideOK(env: Env, reg: Reg, s: System, hist: seq<Commit>, a: Action)
    requires ValidEnv(env) && SystemOK(env, reg, s, hist) && a.Decide? && Can(env, reg, s, a)
    ensures SystemOK(env, reg, Do(env, reg, s, a), hist)
  {
    hide *;
    DecideForm(env, reg, s, a);
    ClientAt(env, reg, s, hist, a.k);
    var c := s.clients[a.k];
    if Taken(c) {
      Reposition(reg, hist, s.log.writers, c, Idle);
      ClientMoves(env, reg, s, hist, a.k, c.(pc := Idle));
    } else {
      var e := AppendTo(a.call, a.event, c.position);
      SystemLog(env, reg, s, hist);
      var same := EventKeeps(env, s.log, hist, e);
      StepAuthored(env, s.log, e);
      BeginForm(env, s.log, hist, e);
      var log2 := Protocol.Apply(env, s.log, e);
      ClientFacts(reg, hist, c);
      ClientName(reg, hist, c);
      FreshName(c);
      DecisionProper(Regs(reg, hist[..c.position]), c.pc.name);
      NewCallConforms(env, s.log, e, reg, hist, c);
      NewCall(env, reg, s, hist, a.call, log2);
      var pc := Waiting(c.pc.name, c.index.maxId + 1, a.call);
      WaitingOK(reg, hist, log2.writers, c, pc);
      ClientMoves(env, reg, s.(log := log2), hist, a.k, c.(pc := pc));
    }
  }

  lemma DecideForm(env: Env, reg: Reg, s: System, a: Action)
    requires a.Decide? && Can(env, reg, s, a)
    ensures a.k in s.clients && s.clients[a.k].pc.Synced?
    ensures
      var c := s.clients[a.k];
      if Taken(c) then Do(env, reg, s, a) == WithClient(s, a.k, c.(pc := Idle))
      else
        reg(a.event) == Registration(c.pc.name, c.index.maxId + 1) &&
        Enabled(env, s.log, AppendTo(a.call, a.event, c.position)) &&
        Do(env, reg, s, a) == WithClient(s.(log := Protocol.Apply(env, s.log, AppendTo(a.call, a.event, c.position))), a.k,
                                   c.(pc := Waiting(c.pc.name, c.index.maxId + 1, a.call)))
  {
    hide Enabled, Protocol.Apply;
  }

  lemma FreshName(c: Client)
    requires c.pc.Synced? && !Taken(c)
    ensures c.pc.name !in c.index.byName && c.index.maxId < MAX_REVISION
  {
  }

  lemma NewCallConforms(env: Env, s: State, e: Event, reg: Reg, hist: seq<Commit>, c: Client)
    requires Enabled(env, s, e) && e.AppendTo? && e.base == c.position && 0 <= c.position <= |hist|
    requires Proper(Regs(reg, hist[..c.position]) + [reg(e.event)])
    ensures e.id !in s.writers && e.id in Protocol.Apply(env, s, e).writers
    ensures Protocol.Apply(env, s, e).writers == s.writers[e.id := Protocol.Apply(env, s, e).writers[e.id]]
    ensures Conforms(reg, hist, Protocol.Apply(env, s, e).writers[e.id]) && Protocol.Apply(env, s, e).writers[e.id].event == e.event
  {
    hide Enter, LoadRoot, Prepared, Proper, Regs;
  }

  /** A new conforming call joins the writers. */
  lemma NewCall(env: Env, reg: Reg, s: System, hist: seq<Commit>, call: Bytes, log2: State)
    requires SystemOK(env, reg, s, hist) && Inv(env, log2, hist) && AllAuthored(log2)
    requires call !in s.log.writers && call in log2.writers && log2.writers == s.log.writers[call := log2.writers[call]]
    requires Conforms(reg, hist, log2.writers[call])
    ensures SystemOK(env, reg, s.(log := log2), hist)
  {
    hide Inv, AllAuthored, Conforms, ClientOK;
  }

  lemma WaitingOK(reg: Reg, hist: seq<Commit>, writers: map<Bytes, Writer>, c: Client, pc: ClientPc)
    requires ClientOK(reg, hist, c) && pc.Waiting? && pc.name != "" && pc.call in writers
    requires reg(writers[pc.call].event) == Registration(pc.name, pc.userId)
    ensures ClientOK(reg, hist, c.(pc := pc)) && Called(reg, writers, pc)
  {
    hide StateSync.Fold, Regs;
  }

  lemma CallsKept(env: Env, s: State, e: Event)
    requires AllAuthored(s) && Enabled(env, s, e) && !e.Append? && !e.AppendTo?
    ensures Protocol.Apply(env, s, e).writers.Keys == s.writers.Keys
    ensures forall id :: id in s.writers ==> SameCall(s.writers[id], Protocol.Apply(env, s, e).writers[id])
  {
    hide Next, Enter, Authored;
    if e.Advance? {
      assert WriterAuthored(e.id, s.writers[e.id]);
      NextAuthored(env, s.store, e.id, s.writers[e.id]);
    }
    hide WriterAuthored;
  }

  lemma InternalOK(env: Env, reg: Reg, s: System, hist: seq<Commit>, e: Event) returns (longer: seq<Commit>)
    requires ValidEnv(env) && SystemOK(env, reg, s, hist) && Enabled(env, s.log, e) && !e.Append? && !e.AppendTo?
    ensures SystemOK(env, reg, s.(log := Protocol.Apply(env, s.log, e)), longer)
    ensures longer == hist || (|longer| == |hist| + 1 && longer[..|hist|] == hist)
  {
    hide *;
    SystemLog(env, reg, s, hist);
    longer := EventKeeps(env, s.log, hist, e);
    StepAuthored(env, s.log, e);
    CallsKept(env, s.log, e);
    SystemGrows(env, reg, s, hist, Protocol.Apply(env, s.log, e), longer);
  }

  lemma SystemGrows(env: Env, reg: Reg, s: System, hist: seq<Commit>, log2: State, longer: seq<Commit>)
    requires SystemOK(env, reg, s, hist) && Inv(env, log2, longer) && AllAuthored(log2) && hist <= longer
    requires log2.writers.Keys == s.log.writers.Keys
    requires forall id :: id in s.log.writers ==> SameCall(s.log.writers[id], log2.writers[id])
    ensures SystemOK(env, reg, s.(log := log2), longer)
  {
    hide Inv, AllAuthored, ClientOK, Proper, Regs;
    forall id | id in log2.writers
      ensures Conforms(reg, longer, log2.writers[id])
    {
      assert SameCall(s.log.writers[id], log2.writers[id]);
      assert Conforms(reg, hist, s.log.writers[id]);
      ConformsGrows(reg, hist, longer, s.log.writers[id]);
    }
    forall k | k in s.clients
      ensures ClientOK(reg, longer, s.clients[k]) && Called(reg, log2.writers, s.clients[k].pc)
    {
      ClientGrows(reg, hist, longer, s.clients[k]);
      assert s.clients[k].pc.Waiting? ==> SameCall(s.log.writers[s.clients[k].pc.call], log2.writers[s.clients[k].pc.call]);
    }
  }

  lemma MoveKeeps(env: Env, reg: Reg, s: System, hist: seq<Commit>, t: System) returns (longer: seq<Commit>)
    requires ValidEnv(env) && SystemOK(env, reg, s, hist) && Move(env, reg, s, t)
    ensures SystemOK(env, reg, t, longer)
    ensures longer == hist || (|longer| == |hist| + 1 && longer[..|hist|] == hist)
  {
    var a :| Can(env, reg, s, a) && t == Do(env, reg, s, a);
    hide *;
    longer := hist;
    match a
    case Ask(_, _) => AskOK(env, reg, s, hist, a);
    case Sync(_, _, _) => SyncOK(env, reg, s, hist, a);
    case Decide(_, _, _) => DecideOK(env, reg, s, hist, a);
    case Observe(_, _) => ObserveOK(env, reg, s, hist, a);
    case Internal(e) =>
      InternalForm(env, reg, s, e);
      longer := InternalOK(env, reg, s, hist, e);
  }

  lemma InternalForm(env: Env, reg: Reg, s: System, e: Event)
    requires Can(env, reg, s, Internal(e))
    ensures Enabled(env, s.log, e) && !e.Append? && !e.AppendTo?
    ensures Do(env, reg, s, Internal(e)) == s.(log := Protocol.Apply(env, s.log, e))
  {
    hide Enabled, Protocol.Apply;
  }

  lemma FirstSystem(env: Env, reg: Reg)
    ensures SystemOK(env, reg, FIRST, [])
  {
    Begins(env);
    StartAuthored();
    hide Inv, AllAuthored;
  }

  /** Every system of a play keeps the invariant over a log later ones extend. */
  lemma {:induction false} PlayKeeps(env: Env, reg: Reg, systems: seq<System>) returns (logs: seq<seq<Commit>>)
    requires ValidEnv(env) && Play(env, reg, systems)
    ensures |logs| == |systems| && forall i :: 0 <= i < |systems| ==> SystemOK(env, reg, systems[i], logs[i])
    ensures forall i, j :: 0 <= i <= j < |logs| ==> logs[i] <= logs[j]
  {
    hide SystemOK, Move;
    var n := |systems| - 1;
    if n == 0 {
      FirstSystem(env, reg);
      logs := [[]];
    } else {
      var before := PlayKeeps(env, reg, systems[..n]);
      assert Move(env, reg, systems[n - 1], systems[n]);
      var longer := MoveKeeps(env, reg, systems[n - 1], before[n - 1], systems[n]);
      logs := before + [longer];
      assert before[n - 1] <= longer;
    }
  }

  /** In every interleaving the registrations in the log have distinct names and IDs
      exactly 1..n in order, and replaying them from the empty index succeeds. */
  lemma NamesAndIdsUnique(env: Env, reg: Reg, systems: seq<System>, i: nat) returns (hist: seq<Commit>)
    requires ValidEnv(env) && Play(env, reg, systems) && i < |systems|
    ensures IsLog(systems[i].log.store, hist)
    ensures Proper(Regs(reg, hist))
    ensures StateSync.Fold(Register.Apply, EMPTY_INDEX, Regs(reg, hist)).Some?
  {
    hide *;
    var logs := PlayKeeps(env, reg, systems);
    hist := logs[i];
    SystemLog(env, reg, systems[i], hist);
    WholeProper(env, reg, systems[i], hist);
    ReplayProper(Regs(reg, hist));
  }

  lemma WholeProper(env: Env, reg: Reg, s: System, hist: seq<Commit>)
    requires SystemOK(env, reg, s, hist)
    ensures Proper(Regs(reg, hist))
  {
    hide *;
    LogProper(env, reg, s, hist, |hist|);
    assert hist[..|hist|] == hist;
  }

  /** No client's State is ever poisoned, and its ByName and ByID are always inverse and
      list exactly a prefix of the log. */
  lemma ClientsConsistent(env: Env, reg: Reg, systems: seq<System>, i: nat, k: int) returns (hist: seq<Commit>)
    requires ValidEnv(env) && Play(env, reg, systems) && i < |systems| && k in systems[i].clients
    ensures IsLog(systems[i].log.store, hist)
    ensures
      var c := systems[i].clients[k];
      !c.pc.Broken? && Inverse(c.index) && 0 <= c.position <= |hist| && Lists(c.index, Regs(reg, hist[..c.position]))
  {
    hide *;
    var logs := PlayKeeps(env, reg, systems);
    hist := logs[i];
    var s, c := systems[i], systems[i].clients[k];
    SystemLog(env, reg, s, hist);
    ClientAt(env, reg, s, hist, k);
    ClientFacts(reg, hist, c);
    NotBroken(reg, hist, c);
    LogProper(env, reg, s, hist, c.position);
    ReplayProper(Regs(reg, hist[..c.position]));
    ListsInverse(c.index, Regs(reg, hist[..c.position]));
  }

  lemma NotBroken(reg: Reg, hist: seq<Commit>, c: Client)
    requires ClientOK(reg, hist, c)
    ensures !c.pc.Broken?
  {
    hide StateSync.Fold, Regs;
  }

  /** The registration with this ID has this name, and no other has either. */
  ghost predicate OnlyRegistration(regs: seq<Registration>, name: string, userId: int) {
    1 <= userId <= |regs| && regs[userId - 1] == Registration(name, userId) &&
    forall m :: 0 <= m < |regs| && (regs[m].username == name || regs[m].userId == userId) ==> m == userId - 1
  }

  /** A client's call has succeeded: its append is in the log. */
  predicate Succeeded(s: System, k: int) {
    && k in s.clients && s.clients[k].pc.Waiting? && s.clients[k].pc.call in s.log.writers
    && s.log.writers[s.clients[k].pc.call].pc.Done?
  }

  /** From then on, in every later system, its name has its ID in the log and no other
      registration has either. */
  lemma SuccessRegisters(env: Env, reg: Reg, systems: seq<System>, i: nat, j: nat, k: int) returns (later: seq<Commit>)
    requires ValidEnv(env) && Play(env, reg, systems) && i <= j < |systems| && Succeeded(systems[i], k)
    ensures IsLog(systems[j].log.store, later)
    ensures
      OnlyRegistration(Regs(reg, later), systems[i].clients[k].pc.name, systems[i].clients[k].pc.userId)
  {
    assert systems[i].clients[k].pc.Waiting?;
    hide *;
    var logs := PlayKeeps(env, reg, systems);
    later := logs[j];
    SystemLog(env, reg, systems[j], later);
    StaysRegistered(env, reg, systems[i], logs[i], systems[j], later, k);
  }

  lemma StaysRegistered(env: Env, reg: Reg, s: System, hist: seq<Commit>, t: System, later: seq<Commit>, k: int)
    requires SystemOK(env, reg, s, hist) && SystemOK(env, reg, t, later) && hist <= later && Succeeded(s, k)
    ensures
      OnlyRegistration(Regs(reg, later), s.clients[k].pc.name, s.clients[k].pc.userId)
  {
    var pc := s.clients[k].pc;
    hide *;
    WholeProper(env, reg, t, later);
    var r := SuccessAt(env, reg, s, hist, k);
    SamePrefix(reg, hist, later, r);
    OnlyOne(Regs(reg, later), r, pc);
  }

  lemma SuccessAt(env: Env, reg: Reg, s: System, hist: seq<Commit>, k: int) returns (r: int)
    requires SystemOK(env, reg, s, hist) && Succeeded(s, k)
    ensures 1 <= r <= |hist| && s.log.writers[s.clients[k].pc.call].pc == Done(r)
    ensures Regs(reg, hist)[r - 1] == Registration(s.clients[k].pc.name, s.clients[k].pc.userId)
  {
    var pc := s.clients[k].pc;
    assert s.log.writers[pc.call].pc.Done?;
    r := s.log.writers[pc.call].pc.revision;
    hide *;
    SystemLog(env, reg, s, hist);
    ClientAt(env, reg, s, hist, k);
    DoneInLog(env, s.log, hist, pc.call);
    CommittedEvent(s.log, hist, pc.call, r);
    TheRegistration(reg, hist, s.log.writers, pc, r);
  }

  lemma SamePrefix(reg: Reg, hist: seq<Commit>, later: seq<Commit>, r: int)
    requires hist <= later && 1 <= r <= |hist|
    ensures Regs(reg, later)[r - 1] == Regs(reg, hist)[r - 1]
  {
  }

  lemma OnlyOne(regs: seq<Registration>, r: int, pc: ClientPc)
    requires Proper(regs) && pc.Waiting? && 1 <= r <= |regs| && regs[r - 1] == Registration(pc.name, pc.userId)
    ensures OnlyRegistration(regs, pc.name, pc.userId)
  {
  }

  lemma CommittedEvent(s: State, hist: seq<Commit>, id: Bytes, r: int)
    requires AllAuthored(s) && IsLog(s.store, hist) && 1 <= r <= |hist| && hist[r - 1].commitId == id
    ensures id in s.writers && hist[r - 1].event == s.writers[id].event
  {
    assert LogKey(r) in s.store && s.store[LogKey(r)] == EncodeCommit(hist[r - 1]);
    assert Authored(s.writers, s.store[LogKey(r)].commit);
  }

  lemma TheRegistration(reg: Reg, hist: seq<Commit>, writers: map<Bytes, Writer>, pc: ClientPc, r: int)
    requires pc.Waiting? && Called(reg, writers, pc)
    requires 1 <= r <= |hist| && pc.call in writers && hist[r - 1].event == writers[pc.call].event
    ensures Regs(reg, hist)[r - 1] == Registration(pc.name, pc.userId)
  {
  }

  // ---- When a client is turned away ----

  predicate Registered(regs: seq<Registration>, name: string) {
    exists i :: 0 <= i < |regs| && regs[i].username == name
  }

  /** The registrations through a client's position rule its name out: it is registered, or
      there is no further ID. */
  predicate RuledOut(reg: Reg, hist: seq<Commit>, c: Client)
    requires c.pc.Synced? && 0 <= c.position <= |hist|
  {
    Registered(Regs(reg, hist[..c.position]), c.pc.name) || c.position >= MAX_REVISION
  }

  lemma TakenIsRuledOut(reg: Reg, hist: seq<Commit>, c: Client)
    requires c.pc.Synced? && 0 <= c.position <= |hist| && Lists(c.index, Regs(reg, hist[..c.position]))
    ensures Taken(c) <==> RuledOut(reg, hist, c)
    ensures c.index.maxId == c.position
  {
    var regs, name := Regs(reg, hist[..c.position]), c.pc.name;
    hide Regs;
    if name in c.index.byName {
      assert Named(c.index, regs, name);
    }
    if i :| 0 <= i < |regs| && regs[i].username == name {
      assert Entry(c.index, regs, i + 1);
    }
  }

  /** A client that has caught up may decide, and starts no append exactly when the log
      through its position rules the name out. Otherwise it appends the name with the next
      ID on the root of that position, and waits for that call. */
  lemma DecidesByTheLog(env: Env, reg: Reg, systems: seq<System>, j: nat, k: int, call: Bytes, event: Bytes) returns (hist: seq<Commit>)
    requires ValidEnv(env) && Play(env, reg, systems) && j < |systems|
    requires k in systems[j].clients && systems[j].clients[k].pc.Synced?
    ensures IsLog(systems[j].log.store, hist) && 0 <= systems[j].clients[k].position <= |hist|
    ensures
      var s, c := systems[j], systems[j].clients[k];
      var a := Decide(k, call, event);
      if RuledOut(reg, hist, c) then
        Can(env, reg, s, a) && Do(env, reg, s, a) == s.(clients := s.clients[k := c.(pc := Idle)])
      else
        (Can(env, reg, s, a) <==> reg(event) == Registration(c.pc.name, c.position + 1) && Enabled(env, s.log, AppendTo(call, event, c.position))) &&
        (Can(env, reg, s, a) ==>
           var t := Do(env, reg, s, a);
           call !in s.log.writers && call in t.log.writers &&
           t.log.writers[call].event == event && t.log.writers[call].base == Some(c.position) &&
           t.clients == s.clients[k := c.(pc := Waiting(c.pc.name, c.position + 1, call))])
  {
    assert systems[j].clients[k].pc.Synced?;
    hide *;
    hist := ClientsConsistent(env, reg, systems, j, k);
    var c := systems[j].clients[k];
    TakenIsRuledOut(reg, hist, c);
    DecisionForm(env, reg, systems[j], k, call, event);
  }

  lemma DecisionForm(env: Env, reg: Reg, s: System, k: int, call: Bytes, event: Bytes)
    requires k in s.clients && s.clients[k].pc.Synced?
    ensures
      var c, a := s.clients[k], Decide(k, call, event);
      if Taken(c) then Can(env, reg, s, a) && Do(env, reg, s, a) == s.(clients := s.clients[k := c.(pc := Idle)])
      else
        (Can(env, reg, s, a) <==> reg(event) == Registration(c.pc.name, c.index.maxId + 1) && Enabled(env, s.log, AppendTo(call, event, c.position))) &&
        (Can(env, reg, s, a) ==>
           var t := Do(env, reg, s, a);
           call !in s.log.writers && call in t.log.writers &&
           t.log.writers[call].event == event && t.log.writers[call].base == Some(c.position) &&
           t.clients == s.clients[k := c.(pc := Waiting(c.pc.name, c.index.maxId + 1, call))])
  {
    hide Taken, Enter, Prepared, LoadRoot;
  }
}
