/**
 The register loop makes progress: a client left alone registers any name the log does not
 have.
 */
module RegisterProgress {
  import opened Wrappers
  import opened Radix
  import opened Wire
  import opened ReadPlan
  import opened ScanIntact
  import opened ScanCaller
  import opened Protocol
  import opened ProtocolSteps
  import opened ProtocolResults
  import opened ProtocolProgress
  import StateSync
  import opened Register
  import opened RegisterRuns

  function Last(systems: seq<System>): System
    requires systems != []
  {
    systems[|systems| - 1]
  }

  /** One more action of a play. */
  lemma PlayOn(env: Env, reg: Reg, systems: seq<System>, a: Action)
    requires Play(env, reg, systems) && systems != [] && Can(env, reg, Last(systems), a)
    ensures Play(env, reg, systems + [Do(env, reg, Last(systems), a)])
  {
    var t := Do(env, reg, Last(systems), a);
    assert Move(env, reg, Last(systems), t);
    hide Move, Can, Do;
    var all := systems + [t];
    forall i | 0 < i < |all|
      ensures Move(env, reg, all[i - 1], all[i])
    {
      assert all[i - 1] == systems[i - 1];
      if i < |systems| {
        assert all[i] == systems[i];
      }
    }
  }

  // ---- Catching up without faults ----

  /** A read of the store as it is, by a client that is not stopped. */
  function Plainly(store: Store, cheaper: Cheaper): Reading {
    Reading(Reader(store), cheaper, Patient())
  }

  lemma PatientWilling()
    ensures Willing(Patient())
  {
  }

  /** Then a client gets all batches through a root at or after its position. */
  lemma CatchesUp(env: Env, reg: Reg, s: System, hist: seq<Commit>, c: Client, head: int, cheaper: Cheaper, after: ClientPc)
    requires SystemOK(env, reg, s, hist) && ClientOK(reg, hist, c) && c.position <= head <= |hist|
    requires after.Idle? || (after.Synced? && after.name != "")
    ensures
      var c2 := CatchUp(env, reg, s.log.store, c, head, Plainly(s.log.store, cheaper), after);
      c2.pc == after && c2.position == head
  {
    var read := Plainly(s.log.store, cheaper);
    assert Answers(read.get, s.log.store);
    hide *;
    ClientFacts(reg, hist, c);
    CatchUpOK(env, reg, s, hist, c, head, read, after);
    BatchesAre(env, reg, s, hist, c.position, head, read);
    BatchesEnd(env, reg, s, hist, c.position, head, cheaper);
    NotBroken(reg, hist, CatchUp(env, reg, s.log.store, c, head, read, after));
    CatchUpCases(env, reg, s.log.store, c, head, read, after);
  }

  lemma BatchesEnd(env: Env, reg: Reg, s: System, hist: seq<Commit>, position: int, head: int, cheaper: Cheaper)
    requires SystemOK(env, reg, s, hist) && 0 <= position <= head <= |hist|
    ensures Batches(env, s.log.store, position, head, Plainly(s.log.store, cheaper)).err.None?
  {
    assert Plainly(s.log.store, cheaper) == Reading(Reader(s.log.store), cheaper, Patient());
    hide *;
    SystemLog(env, reg, s, hist);
    SnapshotFound(env, s.log.store, hist, position, head, Plainly(s.log.store, cheaper));
    if head > 0 {
      RootRevision(env, Reader(s.log.store), hist, head);
    }
    AfterValid(hist, position, head);
    PatientWilling();
    ScanDelivers(env, Reader(s.log.store), hist, head, After(position), cheaper, Patient());
  }

  lemma CatchUpCases(env: Env, reg: Reg, store: Store, c: Client, head: int, read: Reading, after: ClientPc)
    requires c.position <= head && Batches(env, store, c.position, head, read).err.None?
    ensures
      var c2 := CatchUp(env, reg, store, c, head, read, after);
      c2.pc.Broken? || (c2.pc == after && c2.position == c.position + |Batches(env, store, c.position, head, read).out|)
  {
    hide Batches, StateSync.Fold;
  }

  // ---- The calls before the append ----

  lemma AskForm(env: Env, reg: Reg, s: System, k: int, name: string)
    requires name != "" && (k in s.clients ==> s.clients[k].pc.Idle?)
    ensures
      Can(env, reg, s, Ask(k, name)) &&
      var t := Do(env, reg, s, Ask(k, name));
      t.log == s.log && k in t.clients && t.clients[k].pc == Wanting(name)
  {
  }

  lemma SyncForm(env: Env, reg: Reg, s: System, k: int, head: int, cheaper: Cheaper)
    requires k in s.clients && s.clients[k].pc.Wanting? && IsHead(s.log.store, head)
    ensures
      var a := Action.Sync(k, head, Plainly(s.log.store, cheaper));
      Can(env, reg, s, a) &&
      var t := Do(env, reg, s, a);
      t.log == s.log && k in t.clients &&
      t.clients[k] == CatchUp(env, reg, s.log.store, s.clients[k], head, Plainly(s.log.store, cheaper), Synced(s.clients[k].pc.name))
  {
    hide CatchUp, IsHead;
  }

  /** A client that wants a name and reads without faults stands at the head. */
  lemma SyncReaches(env: Env, reg: Reg, systems: seq<System>, k: int, name: string, head: int, cheaper: Cheaper)
    requires ValidEnv(env) && systems != [] && Play(env, reg, systems) && IsHead(Last(systems).log.store, head)
    requires k in Last(systems).clients && Last(systems).clients[k].pc == Wanting(name)
    ensures
      var a := Action.Sync(k, head, Plainly(Last(systems).log.store, cheaper));
      Can(env, reg, Last(systems), a) &&
      var t := Do(env, reg, Last(systems), a);
      t.log == Last(systems).log && k in t.clients && t.clients[k].pc == Synced(name) && t.clients[k].position == head
  {
    hide *;
    var s := Last(systems);
    LastIs(systems);
    var logs := PlayKeeps(env, reg, systems);
    var hist := logs[|systems| - 1];
    SystemLog(env, reg, s, hist);
    HeadIsLast(s.log.store, hist, head);
    ClientAt(env, reg, s, hist, k);
    WantsName(reg, hist, s.clients[k]);
    ClientFacts(reg, hist, s.clients[k]);
    CatchesUp(env, reg, s, hist, s.clients[k], head, cheaper, Synced(name));
    SyncForm(env, reg, s, k, head, cheaper);
  }

  lemma LastIs(systems: seq<System>)
    requires systems != []
    ensures Last(systems) == systems[|systems| - 1]
  {
  }

  lemma WantsName(reg: Reg, hist: seq<Commit>, c: Client)
    requires ClientOK(reg, hist, c) && c.pc.Wanting?
    ensures c.pc.name != ""
  {
    hide StateSync.Fold, Regs;
  }

  /** No stored commit registers the name. */
  ghost predicate Free(reg: Reg, store: Store, name: string) {
    forall r :: LogKey(r) in store && store[LogKey(r)].CommitBody? ==> reg(store[LogKey(r)].commit.event).username != name
  }

  lemma FreeIsNotRuledOut(reg: Reg, store: Store, hist: seq<Commit>, c: Client)
    requires IsLog(store, hist) && c.pc.Synced? && Free(reg, store, c.pc.name) && c.position == |hist| < MAX_REVISION
    ensures !RuledOut(reg, hist, c)
  {
    var regs := Regs(reg, hist[..c.position]);
    assert hist[..c.position] == hist;
    forall i | 0 <= i < |regs|
      ensures regs[i].username != c.pc.name
    {
      assert LogKey(i + 1) in store && store[LogKey(i + 1)] == EncodeCommit(hist[i]);
    }
  }

  /** An append with a new ID may start on the head of any log. */
  lemma MayStart(env: Env, s: State, hist: seq<Commit>, call: Bytes, event: Bytes)
    requires World(env, Reader(s.store), hist) && call !in s.writers && Prepared(env, call, event)
    ensures Enabled(env, s, AppendTo(call, event, |hist|))
  {
    hide World, Prepared, LoadRoot;
    if |hist| > 0 {
      RootLoads(env, s.store, hist, |hist|, NotFound);
    }
  }

  /** And then stands on it. */
  lemma StartsOnHead(env: Env, s: State, hist: seq<Commit>, call: Bytes, event: Bytes)
    requires ValidEnv(env) && World(env, Reader(s.store), hist) && Prepared(env, call, event)
    requires Enabled(env, s, AppendTo(call, event, |hist|)) && env.decodable(event) && |hist| < MAX_REVISION
    ensures
      var t := Protocol.Apply(env, s, AppendTo(call, event, |hist|));
      call in t.writers && t.writers[call].event == event && Current(t.writers[call].pc, |hist|)
  {
    hide World, Prepared, LoadRoot, Enter;
    if |hist| > 0 {
      RootLoads(env, s.store, hist, |hist|, NotFound);
      EnterOK(env, s.store, hist, |hist|, call, event);
    } else {
      FirstOK(env, s.store, hist, call, event);
    }
  }

  // ---- The whole call ----

  /** The protocol's own steps, as actions of a play. */
  lemma {:induction false} PlaysAlone(env: Env, reg: Reg, systems: seq<System>, states: seq<State>, id: Bytes) returns (more: seq<System>)
    requires systems != [] && Play(env, reg, systems) && states != [] && states[0] == Last(systems).log && AllAlone(env, states, id)
    ensures Play(env, reg, systems + more)
    ensures Last(systems + more) == Last(systems).(log := states[|states| - 1])
    decreases |states|
  {
    hide Play, AllAlone;
    var n := |states| - 1;
    if n == 0 {
      more := [];
      assert systems + more == systems;
    } else {
      var front := states[..n];
      AloneFront(env, states, id);
      var before := PlaysAlone(env, reg, systems, front, id);
      var s := Last(systems + before);
      var e := AloneEvent(env, states[n - 1], states[n], id);
      OwnInternal(env, reg, s, e, id);
      PlayOn(env, reg, systems + before, Internal(e));
      more := before + [Do(env, reg, s, Internal(e))];
      assert systems + more == systems + before + [Do(env, reg, s, Internal(e))];
    }
  }

  lemma AloneFront(env: Env, states: seq<State>, id: Bytes)
    requires |states| > 1 && AllAlone(env, states, id)
    ensures AllAlone(env, states[..|states| - 1], id)
    ensures Alone(env, states[|states| - 2], states[|states| - 1], id)
  {
    hide Alone;
    var n := |states| - 1;
    forall i | 0 < i < n
      ensures Alone(env, states[..n][i - 1], states[..n][i], id)
    {
      assert Alone(env, states[i - 1], states[i], id);
    }
    assert Alone(env, states[n - 1], states[n], id);
  }

  lemma AloneEvent(env: Env, s: State, t: State, id: Bytes) returns (e: Event)
    requires Alone(env, s, t, id)
    ensures Own(e, id) && Enabled(env, s, e) && t == Protocol.Apply(env, s, e)
  {
    hide Own, Enabled, Protocol.Apply;
    e :| Own(e, id) && Enabled(env, s, e) && t == Protocol.Apply(env, s, e);
  }

  lemma OwnInternal(env: Env, reg: Reg, s: System, e: Event, id: Bytes)
    requires Own(e, id) && Enabled(env, s.log, e)
    ensures Can(env, reg, s, Internal(e)) && Do(env, reg, s, Internal(e)) == s.(log := Protocol.Apply(env, s.log, e))
  {
    hide Enabled, Protocol.Apply;
  }

  /** The client has decided and its append runs alone: it succeeds. */
  lemma CallCompletes(env: Env, reg: Reg, systems: seq<System>, hist: seq<Commit>, k: int, call: Bytes, event: Bytes) returns (more: seq<System>)
    requires ValidEnv(env) && systems != [] && Play(env, reg, systems)
    requires SystemOK(env, reg, Last(systems), hist)
    requires
      var s := Last(systems);
      k in s.clients && s.clients[k].pc.Waiting? && s.clients[k].pc.call == call && call in s.log.writers &&
      s.log.writers[call].event == event && Current(s.log.writers[call].pc, |hist|)
    requires env.decodable(event) && |hist| < MAX_REVISION
    ensures Play(env, reg, systems + more)
    ensures Succeeded(Last(systems + more), k) && Last(systems + more).clients == Last(systems).clients
  {
    var s := Last(systems);
    hide *;
    SystemLog(env, reg, s, hist);
    var states := Solo(env, s.log, hist, call);
    var t := states[|states| - 1];
    EndsDone(env, event, |hist|, t.writers[call].pc);
    more := PlaysAlone(env, reg, systems, states, call);
    SucceededForm(Last(systems + more), k, call);
  }

  lemma SucceededForm(s: System, k: int, call: Bytes)
    requires k in s.clients && s.clients[k].pc.Waiting? && s.clients[k].pc.call == call
    requires call in s.log.writers && s.log.writers[call].pc.Done?
    ensures Succeeded(s, k)
  {
  }

  /** A client that wants a name no stored commit registers gets it when it goes on alone, for
      as long as there are revisions, with the ID after the head. */
  lemma WantedRegisters(env: Env, reg: Reg, systems: seq<System>, k: int, name: string, head: int, cheaper: Cheaper, call: Bytes, event: Bytes)
    returns (more: seq<System>, later: seq<Commit>)
    requires ValidEnv(env) && systems != [] && Play(env, reg, systems)
    requires
      var s := Last(systems);
      k in s.clients && s.clients[k].pc == Wanting(name) && Free(reg, s.log.store, name) &&
      IsHead(s.log.store, head) && head < MAX_REVISION && call !in s.log.writers
    requires Prepared(env, call, event) && env.decodable(event) && reg(event) == Registration(name, head + 1)
    ensures Play(env, reg, systems + more)
    ensures Gets(reg, Last(systems + more), k, name, head + 1, later)
  {
    hide *;
    var s := Last(systems);
    SyncReaches(env, reg, systems, k, name, head, cheaper);
    var a := Action.Sync(k, head, Plainly(s.log.store, cheaper));
    PlayOn(env, reg, systems, a);
    var synced := systems + [Do(env, reg, s, a)];
    LastIs(synced);
    var decided := Decided(env, reg, synced, k, name, head, call, event);
    var rest;
    rest, later := Completed(env, reg, decided, k, name, head, call, event);
    more := (decided + rest)[|systems|..];
    SamePlay(systems, synced, decided, rest);
    GetsForm(reg, Last(decided + rest), k, name, head + 1, call, later);
  }

  /** The client's call has succeeded with this ID, and the name and the ID are registered in
      the log once. */
  ghost predicate Gets(reg: Reg, s: System, k: int, name: string, userId: int, hist: seq<Commit>) {
    && Succeeded(s, k) && s.clients[k].pc.Waiting? && s.clients[k].pc.name == name && s.clients[k].pc.userId == userId
    && IsLog(s.log.store, hist) && OnlyRegistration(Regs(reg, hist), name, userId)
  }

  lemma GetsForm(reg: Reg, s: System, k: int, name: string, userId: int, call: Bytes, hist: seq<Commit>)
    requires Succeeded(s, k) && k in s.clients && s.clients[k].pc == Waiting(name, userId, call)
    requires IsLog(s.log.store, hist) && OnlyRegistration(Regs(reg, hist), name, userId)
    ensures Gets(reg, s, k, name, userId, hist)
  {
    hide Succeeded, IsLog, OnlyRegistration;
  }

  lemma SamePlay(systems: seq<System>, synced: seq<System>, decided: seq<System>, rest: seq<System>)
    requires |systems| <= |synced| <= |decided| && synced[..|systems|] == systems && decided[..|synced|] == synced
    ensures systems + (decided + rest)[|systems|..] == decided + rest
  {
    var all := decided + rest;
    assert all[..|systems|] == decided[..|systems|] == synced[..|systems|];
  }

  /** In any system of any play, an idle or a new client can register any name that no stored
      commit registers. */
  lemma FreeNameRegisters(env: Env, reg: Reg, systems: seq<System>, k: int, name: string, head: int, cheaper: Cheaper, call: Bytes, event: Bytes)
    returns (more: seq<System>, later: seq<Commit>)
    requires ValidEnv(env) && systems != [] && Play(env, reg, systems)
    requires
      var s := Last(systems);
      name != "" && (k in s.clients ==> s.clients[k].pc.Idle?) && Free(reg, s.log.store, name) &&
      IsHead(s.log.store, head) && head < MAX_REVISION && call !in s.log.writers
    requires Prepared(env, call, event) && env.decodable(event) && reg(event) == Registration(name, head + 1)
    ensures Play(env, reg, systems + more)
    ensures Gets(reg, Last(systems + more), k, name, head + 1, later)
  {
    hide *;
    var s := Last(systems);
    AskForm(env, reg, s, k, name);
    var t := Do(env, reg, s, Ask(k, name));
    PlayOn(env, reg, systems, Ask(k, name));
    LastIs(systems + [t]);
    var rest;
    rest, later := WantedRegisters(env, reg, systems + [t], k, name, head, cheaper, call, event);
    more := [t] + rest;
    assert systems + more == (systems + [t]) + rest;
  }

  /** A client whose append lost the race to another commit. */
  predicate LostRace(s: System, k: int, name: string) {
    && k in s.clients && s.clients[k].pc.Waiting? && s.clients[k].pc.name == name
    && s.clients[k].pc.call in s.log.writers && s.log.writers[s.clients[k].pc.call].pc.Conflicted?
  }

  /** It tries again, and gets the name under a later ID if it is still free. */
  lemma LoserRegisters(env: Env, reg: Reg, systems: seq<System>, k: int, name: string, head: int, cheaper: Cheaper, call: Bytes, event: Bytes)
    returns (more: seq<System>, later: seq<Commit>)
    requires ValidEnv(env) && systems != [] && Play(env, reg, systems)
    requires
      var s := Last(systems);
      LostRace(s, k, name) && Free(reg, s.log.store, name) && IsHead(s.log.store, head) && head < MAX_REVISION && call !in s.log.writers
    requires Prepared(env, call, event) && env.decodable(event) && reg(event) == Registration(name, head + 1)
    ensures Play(env, reg, systems + more)
    ensures Gets(reg, Last(systems + more), k, name, head + 1, later)
  {
    hide *;
    var s := Last(systems);
    var a := Observe(k, Plainly(s.log.store, cheaper));
    RetryForm(env, reg, s, k, name, cheaper);
    var t := Do(env, reg, s, a);
    PlayOn(env, reg, systems, a);
    LastIs(systems + [t]);
    var rest;
    rest, later := WantedRegisters(env, reg, systems + [t], k, name, head, cheaper, call, event);
    more := [t] + rest;
    assert systems + more == (systems + [t]) + rest;
  }

  lemma RetryForm(env: Env, reg: Reg, s: System, k: int, name: string, cheaper: Cheaper)
    requires LostRace(s, k, name)
    ensures
      var a := Observe(k, Plainly(s.log.store, cheaper));
      Can(env, reg, s, a) &&
      var t := Do(env, reg, s, a);
      t.log == s.log && k in t.clients && t.clients[k].pc == Wanting(name)
  {
    hide CatchUp;
  }

  /** After a success and a catch-up without faults the client's own index has the name. */
  lemma SuccessObserved(env: Env, reg: Reg, systems: seq<System>, k: int, cheaper: Cheaper)
    requires ValidEnv(env) && systems != [] && Play(env, reg, systems) && Succeeded(Last(systems), k)
    ensures k in Last(systems).clients && Last(systems).clients[k].pc.Waiting?
    ensures
      var s, a := Last(systems), Observe(k, Plainly(Last(systems).log.store, cheaper));
      Can(env, reg, s, a) &&
      var t := Do(env, reg, s, a);
      k in t.clients && t.clients[k].pc == Idle &&
      var name := s.clients[k].pc.name;
      name in t.clients[k].index.byName && t.clients[k].index.byName[name] == s.clients[k].pc.userId
  {
    hide *;
    var s, a := Last(systems), Observe(k, Plainly(Last(systems).log.store, cheaper));
    LastIs(systems);
    WaitingIs(s, k);
    var logs := PlayKeeps(env, reg, systems);
    var hist := logs[|systems| - 1];
    SystemLog(env, reg, s, hist);
    var r := SuccessRevision(env, reg, s, hist, k);
    ClientAt(env, reg, s, hist, k);
    ObservedForm(env, reg, s, k, cheaper);
    var c := s.clients[k];
    if c.position <= r {
      CatchesUp(env, reg, s, hist, c, r, cheaper, Idle);
    }
    PlayOn(env, reg, systems, a);
    var t := Do(env, reg, s, a);
    LastIs(systems + [t]);
    var later := ClientsConsistent(env, reg, systems + [t], |systems|, k);
    LogUnique(s.log.store, hist, later);
    IndexHas(reg, hist, t.clients[k], r, c.pc.name, c.pc.userId);
  }

  /** The revision of the call's commit is its ID. */
  lemma SuccessRevision(env: Env, reg: Reg, s: System, hist: seq<Commit>, k: int) returns (r: int)
    requires SystemOK(env, reg, s, hist) && Succeeded(s, k)
    ensures k in s.clients && s.clients[k].pc.Waiting? && s.clients[k].pc.call in s.log.writers
    ensures s.log.writers[s.clients[k].pc.call].pc == Done(r)
    ensures 1 <= r <= |hist| && Regs(reg, hist)[r - 1] == Registration(s.clients[k].pc.name, r) && s.clients[k].pc.userId == r
  {
    WaitingIs(s, k);
    hide *;
    r := SuccessAt(env, reg, s, hist, k);
    WholeProper(env, reg, s, hist);
    ProperId(Regs(reg, hist), r);
  }

  lemma ProperId(regs: seq<Registration>, r: int)
    requires Proper(regs) && 1 <= r <= |regs|
    ensures regs[r - 1].userId == r
  {
  }

  lemma ObservedForm(env: Env, reg: Reg, s: System, k: int, cheaper: Cheaper)
    requires Succeeded(s, k)
    ensures
      var a := Observe(k, Plainly(s.log.store, cheaper));
      Can(env, reg, s, a) &&
      var t, c := Do(env, reg, s, a), s.clients[k];
      var r := s.log.writers[c.pc.call].pc.revision;
      t.log == s.log && k in t.clients && t.clients[k] == CatchUp(env, reg, s.log.store, c, r, Plainly(s.log.store, cheaper), Idle) &&
      (r < c.position ==> t.clients[k] == c.(pc := Idle))
  {
    hide StateSync.Fold, Batches;
  }

  lemma IndexHas(reg: Reg, hist: seq<Commit>, c: Client, r: int, name: string, userId: int)
    requires 1 <= r <= c.position <= |hist| && Lists(c.index, Regs(reg, hist[..c.position]))
    requires Regs(reg, hist)[r - 1] == Registration(name, r) && userId == r
    ensures name in c.index.byName && c.index.byName[name] == userId
  {
    assert Entry(c.index, Regs(reg, hist[..c.position]), r);
  }

  /** The append of a waiting client runs to its end. */
  lemma Completed(env: Env, reg: Reg, systems: seq<System>, k: int, name: string, head: int, call: Bytes, event: Bytes)
    returns (rest: seq<System>, later: seq<Commit>)
    requires ValidEnv(env) && systems != [] && Play(env, reg, systems) && env.decodable(event) && head < MAX_REVISION
    requires
      var t := Last(systems);
      k in t.clients && t.clients[k].pc == Waiting(name, head + 1, call) && IsHead(t.log.store, head) &&
      call in t.log.writers && t.log.writers[call].event == event && Current(t.log.writers[call].pc, head)
    ensures Play(env, reg, systems + rest)
    ensures Succeeded(Last(systems + rest), k) && k in Last(systems + rest).clients && Last(systems + rest).clients[k].pc == Waiting(name, head + 1, call)
    ensures IsLog(Last(systems + rest).log.store, later) && OnlyRegistration(Regs(reg, later), name, head + 1)
  {
    hide *;
    var hist := LastLog(env, reg, systems, head);
    rest := CallCompletes(env, reg, systems, hist, k, call, event);
    later := LastRegisters(env, reg, systems + rest, k);
  }

  lemma LastLog(env: Env, reg: Reg, systems: seq<System>, head: int) returns (hist: seq<Commit>)
    requires ValidEnv(env) && systems != [] && Play(env, reg, systems) && IsHead(Last(systems).log.store, head)
    ensures SystemOK(env, reg, Last(systems), hist) && |hist| == head
  {
    hide *;
    var logs := PlayKeeps(env, reg, systems);
    LastIs(systems);
    hist := logs[|systems| - 1];
    SystemLog(env, reg, Last(systems), hist);
    HeadIsLast(Last(systems).log.store, hist, head);
  }

  lemma LastRegisters(env: Env, reg: Reg, systems: seq<System>, k: int) returns (later: seq<Commit>)
    requires ValidEnv(env) && systems != [] && Play(env, reg, systems) && Succeeded(Last(systems), k)
    ensures k in Last(systems).clients && Last(systems).clients[k].pc.Waiting?
    ensures IsLog(Last(systems).log.store, later)
    ensures OnlyRegistration(Regs(reg, later), Last(systems).clients[k].pc.name, Last(systems).clients[k].pc.userId)
  {
    hide *;
    var j := |systems| - 1;
    LastIs(systems);
    WaitingIs(Last(systems), k);
    later := SuccessRegisters(env, reg, systems, j, j, k);
  }

  lemma WaitingIs(s: System, k: int)
    requires Succeeded(s, k)
    ensures k in s.clients && s.clients[k].pc.Waiting? && s.clients[k].pc.call in s.log.writers
  {
  }

  /** The decision of a client that stands at the head. */
  lemma Decided(env: Env, reg: Reg, systems: seq<System>, k: int, name: string, head: int, call: Bytes, event: Bytes) returns (all: seq<System>)
    requires ValidEnv(env) && systems != [] && Play(env, reg, systems)
    requires
      var s := Last(systems);
      k in s.clients && s.clients[k].pc == Synced(name) && s.clients[k].position == head && Free(reg, s.log.store, name) &&
      IsHead(s.log.store, head) && head < MAX_REVISION && call !in s.log.writers
    requires Prepared(env, call, event) && env.decodable(event) && reg(event) == Registration(name, head + 1)
    ensures Play(env, reg, all) && |all| == |systems| + 1 && all[..|systems|] == systems
    ensures
      var t := Last(all);
      k in t.clients && t.clients[k].pc == Waiting(name, head + 1, call) && IsHead(t.log.store, head) &&
      call in t.log.writers && t.log.writers[call].event == event && Current(t.log.writers[call].pc, head)
  {
    hide *;
    var s, j := Last(systems), |systems| - 1;
    LastIs(systems);
    var c := s.clients[k];
    var hist := DecidesByTheLog(env, reg, systems, j, k, call, event);
    var logs := PlayKeeps(env, reg, systems);
    SystemLog(env, reg, s, logs[j]);
    LogUnique(s.log.store, logs[j], hist);
    HeadIsLast(s.log.store, hist, head);
    FreeIsNotRuledOut(reg, s.log.store, hist, c);
    MayStart(env, s.log, hist, call, event);
    StartsOnHead(env, s.log, hist, call, event);
    DecideLog(env, reg, s, k, call, event);
    PlayOn(env, reg, systems, Decide(k, call, event));
    all := systems + [Do(env, reg, s, Decide(k, call, event))];
    LastIs(all);
  }

  /** The store and the writer after a decision that appends. */
  lemma DecideLog(env: Env, reg: Reg, s: System, k: int, call: Bytes, event: Bytes)
    requires Can(env, reg, s, Decide(k, call, event))
    ensures
      var t := Do(env, reg, s, Decide(k, call, event));
      k in s.clients && s.clients[k].pc.Synced? && t.log.store == s.log.store &&
      (call !in s.log.writers && call in t.log.writers ==>
         Enabled(env, s.log, AppendTo(call, event, s.clients[k].position)) &&
         t.log == Protocol.Apply(env, s.log, AppendTo(call, event, s.clients[k].position)))
  {
    hide Enter, LoadRoot, Prepared;
  }
}
