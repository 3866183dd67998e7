/**
 State, the in-memory projection of a log: a value kept current by applying the log's
 items in order, with resumable read errors and sticky apply errors.
 */
module StateSync {
  import opened Wrappers
  import opened Wire
  import opened Segment
  import opened History
  import opened ReadPlan
  import opened Scan
  import opened ScanIntact
  import opened ScanSound
  import opened ScanCaller

  /** An event handler: the value after one item, and whether the item was acceptable. A
      handler that fails may have changed the value. */
  type Handler<!S, !T> = (S, T) -> (S, bool)

  /** The batch an event holds. */
  type Decoder<!T> = Bytes -> seq<T>

  /** The pure fold; None once an item is refused. */
  function Fold<S, T>(apply: Handler<S, T>, initial: S, items: seq<T>): Option<S> {
    if items == [] then Some(initial)
    else
      match Fold(apply, initial, items[..|items| - 1])
      case None => None
      case Some(v) =>
        var a := apply(v, items[|items| - 1]);
        if a.1 then Some(a.0) else None
  }

  lemma FoldSnoc<S, T>(apply: Handler<S, T>, initial: S, items: seq<T>, x: T)
    ensures Fold(apply, initial, items + [x]) ==
            match Fold(apply, initial, items)
            case None => None
            case Some(v) => if apply(v, x).1 then Some(apply(v, x).0) else None
  {
    assert (items + [x])[..|items|] == items;
  }

  /** All items of all batches, in revision order and then batch order. */
  function Items<T>(batch: Decoder<T>, ps: seq<Projection>): seq<T> {
    if ps == [] then [] else Items(batch, ps[..|ps| - 1]) + batch(ps[|ps| - 1].event)
  }

  /** Where an item was refused: its revision and its one-based number in the batch. */
  datatype Poison = Poison(revision: int, item: int)

  /** What a State may hold over a log. Usable: the fold of exactly the batches through its
      revision. Poisoned: one item further the handler refused. */
  ghost predicate Holds<S, T>(apply: Handler<S, T>, batch: Decoder<T>, initial: S, hist: seq<Commit>, value: S, revision: int, err: Option<Poison>) {
    0 <= revision <= |hist| &&
    match err
    case None => Fold(apply, initial, Items(batch, Recs(hist, 1, revision))) == Some(value)
    case Some(p) =>
      p.revision == revision + 1 <= |hist| &&
      var items := batch(hist[revision].event);
      1 <= p.item <= |items| &&
      match Fold(apply, initial, Items(batch, Recs(hist, 1, revision)) + items[..p.item - 1])
      case None => false
      case Some(v) => apply(v, items[p.item - 1]) == (value, false)
  }

  /** Later commits do not change what a State holds. */
  lemma HoldsGrows<S, T>(apply: Handler<S, T>, batch: Decoder<T>, initial: S, hist: seq<Commit>, more: seq<Commit>, value: S, revision: int, err: Option<Poison>)
    requires Holds(apply, batch, initial, hist, value, revision, err) && hist <= more
    ensures Holds(apply, batch, initial, more, value, revision, err)
  {
    RecsPrefix(hist, more, 1, revision);
  }

  // ---- The callback and the scan ----

  /** The batches of the records delivered so far are all acceptable. */
  predicate Accepts<S, T>(apply: Handler<S, T>, batch: Decoder<T>, value: S, out: seq<Projection>) {
    Fold(apply, value, Items(batch, out)).Some?
  }

  /** SyncTo as the caller of its scan. */
  function Caller<S, T>(cancelled: nat -> bool, apply: Handler<S, T>, batch: Decoder<T>, from: S): Control {
    Control(cancelled, out => Accepts(apply, batch, from, out))
  }

  lemma HeadSome(snap: Option<Commit>)
    ensures HeadRevision(snap) != 0 ==> snap.Some?
  {
  }

  predicate PrefixesAccepted(ctl: Control, out: seq<Projection>, n: int) {
    forall i :: 0 < i <= n && i <= |out| ==> ctl.accept(out[..i])
  }

  /** All records delivered were accepted, except perhaps the last when there is an error. */
  predicate StopsAtRefusal(ctl: Control, out: seq<Projection>, err: Option<Error>) {
    PrefixesAccepted(ctl, out, if err.None? then |out| else |out| - 1)
  }

  lemma EmitStops(env: Env, r: Range, ctl: Control, k: Sink, p: Projection)
    requires PrefixesAccepted(ctl, k.out, |k.out|)
    ensures var e := Emit(env, r, ctl, k, p); StopsAtRefusal(ctl, e.0.out, e.1)
  {
    hide ValidProjection;
    var out := k.out + [p];
    assert forall i :: 0 < i <= |k.out| ==> out[..i] == k.out[..i];
    assert out[..|out|] == out;
  }

  lemma {:induction false} EmitAllStops(env: Env, r: Range, ctl: Control, k: Sink, items: seq<Projection>)
    requires PrefixesAccepted(ctl, k.out, |k.out|)
    ensures var e := EmitAll(env, r, ctl, k, items); StopsAtRefusal(ctl, e.0.out, e.1)
    decreases |items|
  {
    if items != [] {
      EmitStops(env, r, ctl, k, items[0]);
      var e := Emit(env, r, ctl, k, items[0]);
      hide Emit;
      if e.1.None? {
        EmitAllStops(env, r, ctl, e.0, items[1..]);
      }
    }
  }

  lemma {:induction false} VisitsStop(env: Env, get: Getter, r: Range, cheaper: Cheaper, ctl: Control, k: Sink, cost: ReadCost, refs: seq<ObjectRef>)
    requires PrefixesAccepted(ctl, k.out, |k.out|)
    ensures var v := VisitAll(env, get, r, cheaper, ctl, k, cost, refs);
      StopsAtRefusal(ctl, v.sink.out, v.err) || PrefixesAccepted(ctl, v.sink.out, |v.sink.out|)
    ensures var v := VisitAll(env, get, r, cheaper, ctl, k, cost, refs);
      v.err.None? ==> PrefixesAccepted(ctl, v.sink.out, |v.sink.out|)
    decreases |refs|
  {
    hide PrefixesAccepted, ReadRange, EmitAll, ValidRef;
    if refs != [] {
      EmitAllStops(env, r, ctl, k, ReadRange(env, get, refs[0], r, cheaper).items);
      var v := Visit(env, get, r, cheaper, ctl, k, cost, refs[0]);
      if v.err.None? {
        VisitsStop(env, get, r, cheaper, ctl, v.sink, v.cost, refs[1..]);
      }
    }
  }

  /** Whatever happens during a scan, its callback is never called again after a refusal. */
  lemma ScanStopsAtRefusal(env: Env, get: Getter, snap: Option<Commit>, r: Range, cheaper: Cheaper, ctl: Control)
    ensures var res := ScanLog(env, get, snap, r, cheaper, ctl);
      PrefixesAccepted(ctl, res.out, |res.out| - 1) && (res.err.None? ==> PrefixesAccepted(ctl, res.out, |res.out|))
  {
    hide ScanCut;
    if snap.Some? {
      ScanCutStops(env, get, snap.value, Cut(r, snap.value.revision), cheaper, ctl);
    }
  }

  lemma ScanCutStops(env: Env, get: Getter, c: Commit, r: Range, cheaper: Cheaper, ctl: Control)
    ensures var res := ScanCut(env, get, c, r, cheaper, ctl);
      PrefixesAccepted(ctl, res.out, |res.out| - 1) && (res.err.None? ==> PrefixesAccepted(ctl, res.out, |res.out|))
  {
    hide VisitAll, Emit, FrontierOK, Refs;
    var k0 := Sink(r.first, None, false, []);
    VisitsStop(env, get, r, cheaper, ctl, k0, FREE, Refs(c.frontier));
    var v := VisitAll(env, get, r, cheaper, ctl, k0, FREE, Refs(c.frontier));
    if v.err.None? {
      EmitStops(env, r, ctl, v.sink, Project(c));
    }
  }

  /** Applying one batch after the accepted ones. */
  lemma ItemsSnoc<T>(batch: Decoder<T>, hist: seq<Commit>, r: int)
    requires 0 <= r < |hist|
    ensures Items(batch, Recs(hist, 1, r + 1)) == Items(batch, Recs(hist, 1, r)) + batch(hist[r].event)
  {
    var a := Recs(hist, 1, r + 1);
    assert a[..r] == Recs(hist, 1, r) && a[r] == Project(hist[r]);
  }

  lemma {:induction false} FoldConcat<S, T>(apply: Handler<S, T>, initial: S, a: seq<T>, b: seq<T>)
    ensures Fold(apply, initial, a + b) ==
            match Fold(apply, initial, a)
            case None => None
            case Some(v) => Fold(apply, v, b)
  {
    if b == [] {
      assert a + b == a;
    } else {
      var n := |b| - 1;
      assert (a + b)[..|a + b| - 1] == a + b[..n];
      FoldConcat(apply, initial, a, b[..n]);
    }
  }

  /** Every record but perhaps the last was accepted. */
  predicate AcceptedBefore<S, T>(apply: Handler<S, T>, batch: Decoder<T>, from: S, out: seq<Projection>) {
    forall i :: 0 < i < |out| ==> Accepts(apply, batch, from, out[..i])
  }

  lemma AcceptedSoFar<S, T>(env: Env, get: Getter, snap: Option<Commit>, r: Range, cheaper: Cheaper, cancelled: nat -> bool, apply: Handler<S, T>, batch: Decoder<T>, from: S)
    ensures
      var ctl := Caller(cancelled, apply, batch, from);
      var res := ScanLog(env, get, snap, r, cheaper, ctl);
      AcceptedBefore(apply, batch, from, res.out)
  {
    var ctl := Caller(cancelled, apply, batch, from);
    ScanStopsAtRefusal(env, get, snap, r, cheaper, ctl);
    hide ScanLog, Accepts;
    var out := ScanLog(env, get, snap, r, cheaper, ctl).out;
    forall i | 0 < i < |out|
      ensures Accepts(apply, batch, from, out[..i])
    {
      assert ctl.accept(out[..i]);
    }
  }

  lemma NothingApplied<S, T>(apply: Handler<S, T>, batch: Decoder<T>, from: S, out: seq<Projection>)
    ensures Fold(apply, from, Items(batch, out[..0])) == Some(from)
  {
  }

  lemma AcceptedBatch<S, T>(apply: Handler<S, T>, batch: Decoder<T>, from: S, out: seq<Projection>, n: nat)
    requires n < |out|
    ensures Fold(apply, from, Items(batch, out[..n + 1])) ==
            match Fold(apply, from, Items(batch, out[..n]))
            case None => None
            case Some(v) => Fold(apply, v, batch(out[n].event))
  {
    assert out[..n + 1][..n] == out[..n] && out[..n + 1][n] == out[n];
    FoldConcat(apply, from, Items(batch, out[..n]), batch(out[n].event));
  }

  /** What a scan after revision start delivers: the next batches of the log. */
  lemma NextBatches(env: Env, get: Getter, hist: seq<Commit>, start: int, head: int, cheaper: Cheaper, ctl: Control)
    requires Reliable(env, get, hist) && 0 <= start <= head <= |hist| && (head > 0 ==> ValidRevision(head))
    ensures
      var res := ScanLog(env, get, SnapshotAt(hist, head), After(start), cheaper, ctl);
      |res.out| <= head - start && (res.err.None? ==> |res.out| == head - start) && Follows(hist, start, res.out)
  {
    hide *;
    AfterRange(hist, start, head);
    ReliableHonest(env, get, hist);
    ScanNeverLies(env, get, hist, head, After(start), cheaper, ctl);
    var out, want := ScanLog(env, get, SnapshotAt(hist, head), After(start), cheaper, ctl).out, Requested(hist, head, After(start));
    forall n | 0 <= n < |out|
      ensures Next(hist, start, out, n)
    {
      HonestRevision(env, hist, start + n + 1);
      NextIs(hist, start, head, out, want, n);
    }
    AllNext(hist, start, out);
  }

  /** The n-th record of out is the log's record of revision start + n + 1. */
  predicate Next(hist: seq<Commit>, start: int, out: seq<Projection>, n: int) {
    0 <= n < |out| && 0 <= start + n < |hist| && out[n] == Project(hist[start + n]) && out[n].revision == start + n + 1
  }

  predicate Follows(hist: seq<Commit>, start: int, out: seq<Projection>) {
    forall n :: 0 <= n < |out| ==> Next(hist, start, out, n)
  }

  lemma AllNext(hist: seq<Commit>, start: int, out: seq<Projection>)
    requires forall n :: 0 <= n < |out| ==> Next(hist, start, out, n)
    ensures Follows(hist, start, out)
  {
    hide Next;
  }

  lemma AfterRange(hist: seq<Commit>, start: int, head: int)
    requires 0 <= start <= head <= |hist| && (head > 0 ==> ValidRevision(head))
    ensures ValidRange(After(start)) && |Requested(hist, head, After(start))| == head - start
  {
  }

  lemma NextIs(hist: seq<Commit>, start: int, head: int, out: seq<Projection>, want: seq<Projection>, n: nat)
    requires 0 <= start <= head <= |hist| && (head > 0 ==> ValidRevision(head)) && ValidRange(After(start))
    requires want == Requested(hist, head, After(start)) && out <= want && n < |out|
    requires start + n < |hist| && hist[start + n].revision == start + n + 1
    ensures Next(hist, start, out, n)
  {
  }

  lemma HonestRevision(env: Env, hist: seq<Commit>, r: int)
    requires Honest(env, hist) && 1 <= r <= |hist|
    ensures hist[r - 1].revision == r
  {
    assert HonestAt(env, hist, r);
    hide ValidProjection, FrontierOK, AllTrue;
  }

  // ---- When a scan of an intact log gets through ----

  /** A fold that gets through everything gets through every part of it. */
  lemma {:induction false} FoldPrefix<S, T>(apply: Handler<S, T>, batch: Decoder<T>, from: S, ps: seq<Projection>, n: nat)
    requires n <= |ps| && Accepts(apply, batch, from, ps)
    ensures Accepts(apply, batch, from, ps[..n])
  {
    if n < |ps| {
      var m := |ps| - 1;
      AcceptedBatch(apply, batch, from, ps, m);
      assert ps[..m + 1] == ps && ps[..m][..n] == ps[..n];
      FoldPrefix(apply, batch, from, ps[..m], n);
    } else {
      assert ps[..n] == ps;
    }
  }

  /** SyncTo's scan stops at the first batch that is refused, and only there. */
  lemma {:induction false} CallerStops<S, T>(cancelled: nat -> bool, apply: Handler<S, T>, batch: Decoder<T>, from: S, want: seq<Projection>, n: nat)
    requires (forall i :: !cancelled(i)) && n <= |want| && (forall i :: 0 < i <= n ==> Accepts(apply, batch, from, want[..i]))
    ensures
      var stop := FirstStop(Caller(cancelled, apply, batch, from), want, n);
      (stop.None? ==> forall i :: 0 < i <= |want| ==> Accepts(apply, batch, from, want[..i])) &&
      (stop.Some? ==> 0 < stop.value.0 <= |want| && stop.value.1 == Callback && !Accepts(apply, batch, from, want[..stop.value.0]))
    decreases |want| - n
  {
    hide Accepts;
    var ctl := Caller(cancelled, apply, batch, from);
    if n < |want| {
      assert ctl.accept(want[..n + 1]) == Accepts(apply, batch, from, want[..n + 1]);
      if ctl.accept(want[..n + 1]) {
        CallerStops(cancelled, apply, batch, from, want, n + 1);
      }
    }
  }

  lemma TakenWhole<S, T>(cancelled: nat -> bool, apply: Handler<S, T>, batch: Decoder<T>, from: S, want: seq<Projection>)
    requires forall i :: !cancelled(i)
    ensures
      var t := Received(Caller(cancelled, apply, batch, from), want);
      if Accepts(apply, batch, from, want) then t == (want, None) else t.1 == Some(Callback) && !Accepts(apply, batch, from, t.0)
  {
    CallerStops(cancelled, apply, batch, from, want, 0);
    hide FirstStop;
    assert want[..|want|] == want;
    NothingApplied(apply, batch, from, want);
    assert want[..0] == [];
    if Accepts(apply, batch, from, want) {
      forall i | 0 <= i <= |want|
        ensures Accepts(apply, batch, from, want[..i])
      {
        FoldPrefix(apply, batch, from, want, i);
      }
    }
    hide Accepts;
  }

  lemma {:induction false} ItemsConcat<T>(batch: Decoder<T>, a: seq<Projection>, b: seq<Projection>)
    ensures Items(batch, a + b) == Items(batch, a) + Items(batch, b)
  {
    if b == [] {
      assert a + b == a;
    } else {
      var n, all := |b| - 1, a + b;
      var m := |all| - 1;
      assert all[..m] == a + b[..n] && all[m] == b[n];
      ItemsLast(batch, all);
      ItemsLast(batch, b);
      hide *;
      ItemsConcat(batch, a, b[..n]);
    }
  }

  lemma ItemsLast<T>(batch: Decoder<T>, ps: seq<Projection>)
    requires ps != []
    ensures Items(batch, ps) == Items(batch, ps[..|ps| - 1]) + batch(ps[|ps| - 1].event)
  {
  }

  /** The fold through a head gets through exactly when it does from where a State stands. */
  lemma FoldThrough<S, T>(apply: Handler<S, T>, batch: Decoder<T>, initial: S, hist: seq<Commit>, start: int, head: int, from: S)
    requires 0 <= start <= head <= |hist| && (head > 0 ==> ValidRevision(head)) && ValidRange(After(start))
    requires Fold(apply, initial, Items(batch, Recs(hist, 1, start))) == Some(from)
    ensures Fold(apply, initial, Items(batch, Recs(hist, 1, head))).Some? <==> Accepts(apply, batch, from, Requested(hist, head, After(start)))
  {
    hide Fold, Items;
    var a, b := Recs(hist, 1, start), Requested(hist, head, After(start));
    assert Recs(hist, 1, head) == a + b;
    ItemsConcat(batch, a, b);
    FoldConcat(apply, initial, Items(batch, a), Items(batch, b));
  }

  /** The batches through the head are all acceptable. */
  ghost predicate GetsThrough<S, T>(apply: Handler<S, T>, batch: Decoder<T>, initial: S, hist: seq<Commit>, head: int)
    requires 0 <= head <= |hist|
  {
    Fold(apply, initial, Items(batch, Recs(hist, 1, head))).Some?
  }

  /** On an intact log an uncancelled scan of the next batches delivers them all exactly when
      all are acceptable; otherwise what it has delivered is not. */
  lemma SyncScan<S, T>(env: Env, get: Getter, hist: seq<Commit>, start: int, head: int, cheaper: Cheaper, cancelled: nat -> bool,
                       apply: Handler<S, T>, batch: Decoder<T>, initial: S, from: S)
    requires World(env, get, hist) && 0 <= start <= head <= |hist| && (forall n :: !cancelled(n))
    requires Holds(apply, batch, initial, hist, from, start, None)
    ensures
      var res := ScanLog(env, get, SnapshotAt(hist, head), After(start), cheaper, Caller(cancelled, apply, batch, from));
      if GetsThrough(apply, batch, initial, hist, head) then res.err.None? && Accepts(apply, batch, from, res.out)
      else res.err == Some(Callback) && !Accepts(apply, batch, from, res.out)
  {
    var ctl := Caller(cancelled, apply, batch, from);
    if head > 0 {
      RootRevision(env, get, hist, head);
    }
    hide World, ScanLog, Accepts, Received, Fold, Items, Recs, Requested;
    AfterRange(hist, start, head);
    ScanExactly(env, get, hist, head, After(start), cheaper, ctl);
    TakenWhole(cancelled, apply, batch, from, Requested(hist, head, After(start)));
    FoldThrough(apply, batch, initial, hist, start, head, from);
  }

  /** And only the caller's own stops end it early. */
  lemma SyncScanErrors(env: Env, get: Getter, hist: seq<Commit>, start: int, head: int, cheaper: Cheaper, ctl: Control)
    requires World(env, get, hist) && 0 <= start <= head <= |hist|
    ensures ScanLog(env, get, SnapshotAt(hist, head), After(start), cheaper, ctl).err != Some(InvalidRange)
  {
    if head > 0 {
      RootRevision(env, get, hist, head);
    }
    hide World, ScanLog, FirstStop;
    AfterRange(hist, start, head);
    ScanExactly(env, get, hist, head, After(start), cheaper, ctl);
    StopErrors(ctl, Requested(hist, head, After(start)), 0);
  }

  // ---- The State ----

  class State<!S, !T> {
    const apply: Handler<S, T>
    const batch: Decoder<T>
    ghost const initial: S
    var value: S
    var revision: int
    var err: Option<Poison>

    ghost predicate Valid(hist: seq<Commit>)
      reads this
    {
      Holds(apply, batch, initial, hist, value, revision, err)
    }

    constructor (apply: Handler<S, T>, batch: Decoder<T>, initial: S)
      ensures Valid([]) && this.apply == apply && this.batch == batch && this.initial == initial
      ensures revision == 0 && err == None
    {
      this.apply, this.batch, this.initial := apply, batch, initial;
      value, revision, err := initial, 0, None;
    }

    /** SyncTo through the root of revision head; the scan's callback is the body of the
        loop over out. The store may be damaged and any read may fail. */
    method SyncTo(env: Env, get: Getter, ghost hist: seq<Commit>, snap: Option<Commit>, cheaper: Cheaper, cancelled: nat -> bool)
      returns (e: Option<Error>)
      requires Valid(hist) && Reliable(env, get, hist)
      requires HeadRevision(snap) >= 0 && HeadRevision(snap) <= |hist| && snap == SnapshotAt(hist, HeadRevision(snap))
      modifies this
      ensures Valid(hist) && revision >= old(revision)
      ensures e.None? ==> err.None? && revision == HeadRevision(snap)
      ensures err.Some? ==> e == Some(Callback)
      ensures old(err).Some? ==> value == old(value) && revision == old(revision) && err == old(err)
      ensures HeadRevision(snap) < old(revision) ==> e.Some? && value == old(value) && revision == old(revision) && err == old(err)
      ensures old(err).None? && cancelled(0) ==> e == Some(Io) && value == old(value) && revision == old(revision) && err == None
      ensures World(env, get, hist) && old(err).None? && (forall n :: !cancelled(n)) && HeadRevision(snap) >= old(revision) ==>
                if GetsThrough(apply, batch, initial, hist, HeadRevision(snap)) then e.None? else e == Some(Callback) && err.Some?
      ensures World(env, get, hist) ==>
                (e == Some(InvalidRange) <==> old(err).None? && !cancelled(0) && HeadRevision(snap) < old(revision))
    {
      AppliedRange(hist);
      HeadSome(snap);
      hide *;
      SnapshotValid(env, get, hist, HeadRevision(snap));
      if err.Some? {
        return Some(Callback);
      }
      if cancelled(0) {
        return Some(Io);
      }
      var head := HeadRevision(snap);
      if snap.Some? && !ValidRevision(head) {
        return Some(Corrupt);
      }
      if head < revision {
        return Some(InvalidRange);
      }
      var start, from := revision, value;
      var ctl := Caller(cancelled, apply, batch, from);
      var res := RunScan(env, get, snap, After(start), cheaper, ctl);
      NextBatches(env, get, hist, start, head, cheaper, ctl);
      AcceptedSoFar(env, get, snap, After(start), cheaper, cancelled, apply, batch, from);
      if World(env, get, hist) {
        SyncScanErrors(env, get, hist, start, head, cheaper, ctl);
        if forall n :: !cancelled(n) {
          SyncScan(env, get, hist, start, head, cheaper, cancelled, apply, batch, initial, from);
        }
      }
      var ok := ApplyBatches(hist, res.out);
      e := if ok then res.err else Some(Callback);
    }

    lemma SnapshotValid(env: Env, get: Getter, hist: seq<Commit>, head: int)
      requires 0 <= head <= |hist|
      ensures World(env, get, hist) && head > 0 ==> ValidRevision(head)
    {
      if World(env, get, hist) && head > 0 {
        RootRevision(env, get, hist, head);
      }
    }

    lemma AppliedRange(hist: seq<Commit>)
      requires Valid(hist)
      ensures 0 <= revision <= |hist|
    {
    }

    /** The calls of the scan's callback, one per record delivered. */
    method ApplyBatches(ghost hist: seq<Commit>, out: seq<Projection>) returns (ok: bool)
      requires Valid(hist) && err.None? && revision + |out| <= |hist|
      requires Follows(hist, revision, out) && AcceptedBefore(apply, batch, value, out)
      modifies this
      ensures Valid(hist) && revision >= old(revision)
      ensures ok ==> err.None? && revision == old(revision) + |out|
      ensures !ok ==> err.Some?
      ensures ok <==> Accepts(apply, batch, old(value), out)
    {
      hide Fold, Items, Recs;
      ghost var start, from := revision, value;
      NothingApplied(apply, batch, from, out);
      for n := 0 to |out|
        invariant Valid(hist) && err.None? && revision == start + n
        invariant Fold(apply, from, Items(batch, out[..n])) == Some(value)
      {
        var p := out[n];
        assert Next(hist, start, out, n);
        AcceptedBatch(apply, batch, from, out, n);
        ok := ApplyBatch(hist, batch(p.event));
        if !ok {
          // The scan delivered nothing after this record.
          assert n == |out| - 1 && out[..n + 1] == out;
          return;
        }
        ValidNext(hist, p.revision);
        revision := p.revision;
      }
      assert out[..|out|] == out;
      ok := true;
    }

    /** Once its items are applied the next batch counts as applied. */
    lemma ValidNext(hist: seq<Commit>, r: int)
      requires 1 <= r <= |hist| && err.None?
      requires Fold(apply, initial, Items(batch, Recs(hist, 1, r - 1)) + batch(hist[r - 1].event)) == Some(value)
      ensures Holds(apply, batch, initial, hist, value, r, err)
    {
      ItemsSnoc(batch, hist, r - 1);
    }

    /** One call of the scan's callback: the items of the next batch in order. */
    method ApplyBatch(ghost hist: seq<Commit>, items: seq<T>) returns (ok: bool)
      requires Valid(hist) && err.None? && revision < |hist| && items == batch(hist[revision].event)
      modifies this`value, this`err
      ensures ok ==> err.None? && Fold(apply, old(value), items) == Some(value)
      ensures ok ==> Fold(apply, initial, Items(batch, Recs(hist, 1, revision)) + items) == Some(value)
      ensures !ok ==> err.Some? && Valid(hist) && Fold(apply, old(value), items) == None
    {
      ghost var v0, before := value, Items(batch, Recs(hist, 1, revision));
      assert items[..0] == [] && Fold(apply, v0, items[..0]) == Some(value);
      for i := 0 to |items|
        invariant err.None? && Fold(apply, v0, items[..i]) == Some(value)
      {
        FoldSnoc(apply, v0, items[..i], items[i]);
        assert items[..i] + [items[i]] == items[..i + 1];
        var a := apply(value, items[i]);
        FoldConcat(apply, initial, before, items[..i]);
        value := a.0;
        if !a.1 {
          FoldConcat(apply, v0, items[..i + 1], items[i + 1..]);
          assert items[..i + 1] + items[i + 1..] == items;
          err := Some(Poison(revision + 1, i + 1));
          return false;
        }
      }
      assert items[..|items|] == items;
      FoldConcat(apply, initial, before, items);
      ok := true;
    }

    /** Sync: the head as LoadHead reports it, or its error. */
    method Sync(env: Env, get: Getter, ghost hist: seq<Commit>, loaded: Result<Option<Commit>>, cheaper: Cheaper, cancelled: nat -> bool)
      returns (base: Result<Option<Commit>>)
      requires Valid(hist) && Reliable(env, get, hist)
      requires loaded.Ok? ==> 0 <= HeadRevision(loaded.value) <= |hist| && loaded.value == SnapshotAt(hist, HeadRevision(loaded.value))
      modifies this
      ensures Valid(hist) && revision >= old(revision)
      ensures base.Ok? ==> loaded == base && err.None? && revision == HeadRevision(base.value)
      ensures err.Some? ==> base == Err(Callback)
      ensures old(err).Some? ==> value == old(value) && revision == old(revision) && err == old(err)
      ensures old(err).None? && loaded.Err? ==> base == loaded && value == old(value) && revision == old(revision) && err == None
      ensures World(env, get, hist) && old(err).None? && (forall n :: !cancelled(n)) && loaded.Ok? && HeadRevision(loaded.value) >= old(revision) ==>
                base == if GetsThrough(apply, batch, initial, hist, HeadRevision(loaded.value)) then loaded else Err(Callback)
    {
      hide World, GetsThrough, Holds, Reliable, SnapshotAt;
      if err.Some? {
        return Err(Callback);
      }
      if loaded.Err? {
        return loaded;
      }
      var e := SyncTo(env, get, hist, loaded.value, cheaper, cancelled);
      base := if e.Some? then Err(e.value) else loaded;
    }
  }

  /** LoadState: a new State brought up to the head; on a read error it is returned as far
      as it got. */
  method LoadState<S, T>(env: Env, get: Getter, ghost hist: seq<Commit>, apply: Handler<S, T>, batch: Decoder<T>, initial: S,
                         loaded: Result<Option<Commit>>, cheaper: Cheaper, cancelled: nat -> bool)
    returns (s: State<S, T>, e: Option<Error>)
    requires Reliable(env, get, hist)
    requires loaded.Ok? ==> 0 <= HeadRevision(loaded.value) <= |hist| && loaded.value == SnapshotAt(hist, HeadRevision(loaded.value))
    ensures fresh(s) && s.Valid(hist) && s.apply == apply && s.batch == batch && s.initial == initial
    ensures e.None? ==> loaded.Ok? && s.err.None? && s.revision == HeadRevision(loaded.value)
    ensures loaded.Err? ==> e == Some(loaded.error)
    ensures World(env, get, hist) && (forall n :: !cancelled(n)) && loaded.Ok? ==>
              e == if GetsThrough(apply, batch, initial, hist, HeadRevision(loaded.value)) then None else Some(Callback)
  {
    hide Reliable, SnapshotAt, World, GetsThrough;
    s := new State(apply, batch, initial);
    HoldsGrows(apply, batch, initial, [], hist, s.value, s.revision, s.err);
    var base := s.Sync(env, get, hist, loaded, cheaper, cancelled);
    e := if base.Ok? then None else Some(base.error);
  }
}
