/**
 Which errors a scan may end with, and what it may deliver before, whatever the store holds.
 */
module ScanErrors {
  import opened Wrappers
  import opened Radix
  import opened Wire
  import opened Segment
  import opened ReadPlan
  import opened Scan
  import opened ScanSound

  // ---- Errors ----

  /** An error that checks, cancellation and the callback do not raise, and that the store
      does not report: for a missing object it may only report that it is missing. */
  ghost predicate Foreign(get: Getter, e: Error) {
    e != Corrupt && e != Io && e != Callback && (e == NotFound || forall k :: get(k) != Err(e))
  }

  lemma RecordErrors(env: Env, get: Getter, ref: ObjectRef, e: Error)
    requires Foreign(get, e)
    ensures ReadRecords(env, get, ref).err != Some(e) && LoadHistorical(env, get, ref) != Err(e)
  {
    assert GetReferenced(get, ref.key) != Err(e) && GetReferenced(get, LogKey(ref.end)) != Err(e);
    hide ValidRef, ValidProjection, FrontierOK, SegmentOK, SelectChildren;
  }

  lemma {:induction false} PartsErrors(env: Env, get: Getter, ref: ObjectRef, r: Range, cheaper: Cheaper, e: Error)
    requires Foreign(get, e)
    ensures Parts(env, get, ref, r, cheaper).err != Some(e)
    decreases ref.level, 1, 0
  {
    hide ValidRef, Plan, LoadHistorical, ReadRecords;
    RecordErrors(env, get, ref, e);
    if LoadHistorical(env, get, ref).Ok? {
      PartsAllErrors(env, get, LoadHistorical(env, get, ref).value.children, ref.level, r, cheaper, e);
    }
  }

  lemma {:induction false} PartsAllErrors(env: Env, get: Getter, refs: seq<ObjectRef>, bound: nat, r: Range, cheaper: Cheaper, e: Error)
    requires Foreign(get, e) && forall x :: x in refs ==> x.level < bound
    ensures PartsAll(env, get, refs, bound, r, cheaper).err != Some(e)
    decreases bound, 0, |refs|
  {
    hide Foreign, Parts;
    if refs != [] {
      PartsErrors(env, get, refs[0], r, cheaper, e);
      PartsAllErrors(env, get, refs[1..], bound, r, cheaper, e);
    }
  }

  lemma EmitErrors(env: Env, r: Range, ctl: Control, k: Sink, p: Projection, e: Error)
    requires e != Corrupt && e != Io && e != Callback
    ensures Emit(env, r, ctl, k, p).1 != Some(e)
  {
    hide ValidProjection;
  }

  lemma {:induction false} EmitAllErrors(env: Env, r: Range, ctl: Control, k: Sink, items: seq<Projection>, e: Error)
    requires e != Corrupt && e != Io && e != Callback
    ensures EmitAll(env, r, ctl, k, items).1 != Some(e)
    decreases |items|
  {
    if items != [] {
      EmitErrors(env, r, ctl, k, items[0], e);
      hide Emit;
      EmitAllErrors(env, r, ctl, Emit(env, r, ctl, k, items[0]).0, items[1..], e);
    }
  }

  lemma {:induction false} VisitErrors(env: Env, get: Getter, r: Range, cheaper: Cheaper, ctl: Control, k: Sink, cost: ReadCost, refs: seq<ObjectRef>, e: Error)
    requires Foreign(get, e)
    ensures VisitAll(env, get, r, cheaper, ctl, k, cost, refs).err != Some(e)
    decreases |refs|
  {
    hide Parts, Plan, ValidRef, Collect, EmitAll;
    if refs != [] {
      PartsErrors(env, get, refs[0], r, cheaper, e);
      EmitAllErrors(env, r, ctl, k, ReadRange(env, get, refs[0], r, cheaper).items, e);
      var v := Visit(env, get, r, cheaper, ctl, k, cost, refs[0]);
      VisitErrors(env, get, r, cheaper, ctl, v.sink, v.cost, refs[1..], e);
    }
  }

  lemma CutErrors(env: Env, get: Getter, c: Commit, r: Range, cheaper: Cheaper, ctl: Control, e: Error)
    requires Foreign(get, e)
    ensures ScanCut(env, get, c, r, cheaper, ctl).err != Some(e)
  {
    hide VisitAll, Emit, FrontierOK, Refs;
    var k0 := Sink(r.first, None, false, []);
    VisitErrors(env, get, r, cheaper, ctl, k0, FREE, Refs(c.frontier), e);
    EmitErrors(env, r, ctl, VisitAll(env, get, r, cheaper, ctl, k0, FREE, Refs(c.frontier)).sink, Project(c), e);
  }

  /** A store that does not speak about ranges. */
  ghost predicate NoRangeErrors(get: Getter) {
    forall k :: get(k) != Err(InvalidRange)
  }

  /** Whatever a store holds, a scan that is not cancelled at once rejects its range exactly
      when it is not a valid one, and then delivers and reads nothing; nor does it with a root
      out of range. */
  lemma ScanRejects(env: Env, get: Getter, snap: Option<Commit>, r: Range, cheaper: Cheaper, ctl: Control)
    requires NoRangeErrors(get) && !ctl.cancelled(0)
    ensures
      var res := ScanLog(env, get, snap, r, cheaper, ctl);
      if snap.Some? && !(1 <= snap.value.revision <= MAX_REVISION) then res == ScanResult([], Some(Corrupt), FREE)
      else (res.err == Some(InvalidRange) <==> !ValidRange(r)) && (!ValidRange(r) ==> res.out == [] && res.cost == FREE)
  {
    hide ScanCut;
    if snap.Some? {
      CutErrors(env, get, snap.value, Cut(r, snap.value.revision), cheaper, ctl, InvalidRange);
    }
  }

  /** A scan never ends with a bare not-found error: an object its root leads to and the
      store does not have makes it corrupt. */
  lemma ScanNeverNotFound(env: Env, get: Getter, snap: Option<Commit>, r: Range, cheaper: Cheaper, ctl: Control)
    ensures ScanLog(env, get, snap, r, cheaper, ctl).err != Some(NotFound)
  {
    hide ScanCut;
    if snap.Some? {
      CutErrors(env, get, snap.value, Cut(r, snap.value.revision), cheaper, ctl, NotFound);
    }
  }

  // ---- What gets out ----

  /** What a delivered record satisfies, on its own and after the one before it. */
  ghost predicate WellFormed(env: Env, out: seq<Projection>, i: nat, first: int)
    requires i < |out|
  {
    var p := out[i];
    && p.revision == first + i && 1 <= p.revision <= MAX_REVISION
    && |p.commitId| == 16 && |p.previousRecordHash| == 32 && |p.recordHash| == 32
    && |p.event| >= 3 && p.event[0] == '[' as int && p.event[|p.event| - 1] == ']' as int && env.canonical(p.event)
    && p.recordHash == env.sha(Preimage(p.revision, p.commitId, p.previousRecordHash, p.event))
    && (i > 0 ==> p.previousRecordHash == out[i - 1].recordHash)
    && (p.revision == 1 ==> forall j :: 0 <= j < 32 ==> p.previousRecordHash[j] == 0)
  }

  lemma ChainWellFormed(env: Env, out: seq<Projection>, first: int, prev: Bytes, i: nat)
    requires Chained(env, out, first, prev) && i < |out|
    ensures WellFormed(env, out, i, first)
  {
    hide *;
    assert out == out[..i] + out[i..] && out[i..][0] == out[i];
    ChainedConcat(env, out[..i], out[i..], first, prev);
    ChainedHead(env, out[i..], first + i, LastHash(out[..i], prev));
    ContinuesMeans(env, out, i, first, prev);
  }

  lemma ContinuesMeans(env: Env, out: seq<Projection>, i: nat, first: int, prev: Bytes)
    requires i < |out| && Continues(env, out[i], first + i, LastHash(out[..i], prev))
    ensures WellFormed(env, out, i, first)
  {
    hide Preimage;
  }

  /** One delivery, successful or not, keeps what is out a chain within the range. */
  ghost predicate OutChain(env: Env, r: Range, out: seq<Projection>) {
    Chained(env, out, r.first, FirstPrev(out)) && r.first + |out| <= r.last + 1
  }

  lemma EmitOut(env: Env, r: Range, ctl: Control, k: Sink, p: Projection)
    requires SinkChain(env, r, k) && OutChain(env, r, k.out)
    ensures OutChain(env, r, Emit(env, r, ctl, k, p).0.out)
  {
    EmitForm(env, r, ctl, k, p);
    hide Emit, Chained, ValidProjection;
    if Emit(env, r, ctl, k, p).0.out != k.out {
      ChainGrows(env, r, k, p);
      DeliveredOut(env, r, k, p);
    }
  }

  lemma DeliveredOut(env: Env, r: Range, k: Sink, p: Projection)
    requires SinkChain(env, r, k) && SinkChain(env, r, Delivered(r, k, p)) && !k.done && p.revision == k.next && Requests(r, p.revision)
    ensures OutChain(env, r, k.out + [p])
  {
    hide Chained;
  }

  lemma {:induction false} EmitAllOut(env: Env, r: Range, ctl: Control, k: Sink, items: seq<Projection>)
    requires SinkChain(env, r, k) && OutChain(env, r, k.out)
    ensures OutChain(env, r, EmitAll(env, r, ctl, k, items).0.out)
    decreases |items|
  {
    hide SinkChain, OutChain, Emit;
    if items != [] {
      EmitOut(env, r, ctl, k, items[0]);
      EmitChains(env, r, ctl, k, items[0]);
      var e := Emit(env, r, ctl, k, items[0]);
      if e.1.None? {
        EmitAllOut(env, r, ctl, e.0, items[1..]);
      }
    }
  }

  lemma {:induction false} VisitsOut(env: Env, get: Getter, r: Range, cheaper: Cheaper, ctl: Control, k: Sink, cost: ReadCost, refs: seq<ObjectRef>)
    requires SinkChain(env, r, k) && OutChain(env, r, k.out)
    ensures OutChain(env, r, VisitAll(env, get, r, cheaper, ctl, k, cost, refs).sink.out)
    decreases |refs|
  {
    hide SinkChain, OutChain, EmitAll, ReadRange, ValidRef;
    if refs != [] {
      EmitAllOut(env, r, ctl, k, ReadRange(env, get, refs[0], r, cheaper).items);
      EmitAllChains(env, r, ctl, k, ReadRange(env, get, refs[0], r, cheaper).items);
      var v := Visit(env, get, r, cheaper, ctl, k, cost, refs[0]);
      if v.err.None? {
        VisitsOut(env, get, r, cheaper, ctl, v.sink, v.cost, refs[1..]);
      }
    }
  }

  lemma CutOut(env: Env, get: Getter, c: Commit, r: Range, cheaper: Cheaper, ctl: Control)
    requires r.first <= r.last + 1
    ensures OutChain(env, r, ScanCut(env, get, c, r, cheaper, ctl).out)
  {
    hide VisitAll, Emit, FrontierOK, Refs, SinkChain, OutChain;
    var k0 := Sink(r.first, None, false, []);
    StartChain(env, r);
    StartOut(env, r);
    VisitsOut(env, get, r, cheaper, ctl, k0, FREE, Refs(c.frontier));
    VisitsChain(env, get, r, cheaper, ctl, k0, FREE, Refs(c.frontier));
    var v := VisitAll(env, get, r, cheaper, ctl, k0, FREE, Refs(c.frontier));
    if v.err.None? {
      EmitOut(env, r, ctl, v.sink, Project(c));
    }
  }

  lemma StartOut(env: Env, r: Range)
    requires r.first <= r.last + 1
    ensures OutChain(env, r, [])
  {
  }

  /** Whatever a store holds, whatever the root says and however a scan ends, what it has
      delivered is a chain of well-formed records of consecutive revisions from the range's
      first on, none past the range or the root. */
  lemma ScanDeliversChain(env: Env, get: Getter, snap: Option<Commit>, r: Range, cheaper: Cheaper, ctl: Control, i: nat)
    requires i < |ScanLog(env, get, snap, r, cheaper, ctl).out|
    ensures WellFormed(env, ScanLog(env, get, snap, r, cheaper, ctl).out, i, r.first)
    ensures r.first + |ScanLog(env, get, snap, r, cheaper, ctl).out| - 1 <= r.last
    ensures r.first + |ScanLog(env, get, snap, r, cheaper, ctl).out| - 1 <= HeadRevision(snap)
  {
    hide ScanCut, WellFormed, OutChain;
    var c := snap.value;
    CutOut(env, get, c, Cut(r, c.revision), cheaper, ctl);
    OutMeans(env, Cut(r, c.revision), ScanLog(env, get, snap, r, cheaper, ctl).out, i);
  }

  lemma OutMeans(env: Env, r: Range, out: seq<Projection>, i: nat)
    requires OutChain(env, r, out) && i < |out|
    ensures WellFormed(env, out, i, r.first) && r.first + |out| - 1 <= r.last
  {
    hide WellFormed, Chained;
    ChainWellFormed(env, out, r.first, FirstPrev(out), i);
  }
}
