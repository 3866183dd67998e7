/**
 What the caller of a scan decides: a scan that would end without an error stops exactly
 where its caller is cancelled or refuses a record, and nowhere else.
 */
module ScanCaller {
  import opened Wrappers
  import opened Wire
  import opened Segment
  import opened History
  import opened ReadPlan
  import opened Scan
  import opened ScanIntact

  /** A caller that is never cancelled and takes everything. */
  function Patient(): Control {
    Control(_ => false, _ => true)
  }

  /** Where a caller stops the delivery of these records once it has got the first n, and
      the error that reports it: before a record when it is cancelled, after one that its
      callback refuses. */
  function FirstStop(ctl: Control, want: seq<Projection>, n: nat): Option<(nat, Error)>
    requires n <= |want|
    decreases |want| - n
  {
    if ctl.cancelled(n) then Some((n, Io))
    else if n == |want| then None
    else if !ctl.accept(want[..n + 1]) then Some((n + 1, Callback))
    else FirstStop(ctl, want, n + 1)
  }

  /** Nothing stops the delivery of the records from n on. */
  ghost predicate Passes(ctl: Control, want: seq<Projection>, n: nat) {
    forall i :: n <= i < |want| ==> !ctl.cancelled(i) && ctl.accept(want[..i + 1])
  }

  lemma {:induction false} StopIn(ctl: Control, want: seq<Projection>, n: nat)
    requires n <= |want|
    ensures FirstStop(ctl, want, n).Some? ==> n <= FirstStop(ctl, want, n).value.0 <= |want|
    decreases |want| - n
  {
    if n < |want| {
      StopIn(ctl, want, n + 1);
    }
  }

  lemma {:induction false} StopErrors(ctl: Control, want: seq<Projection>, n: nat)
    requires n <= |want|
    ensures
      var stop := FirstStop(ctl, want, n);
      stop.Some? ==> stop.value.1 == Io || stop.value.1 == Callback
    decreases |want| - n
  {
    if n < |want| {
      StopErrors(ctl, want, n + 1);
    }
  }

  /** More records after these do not move a stop among them. */
  lemma {:induction false} StopEarly(ctl: Control, want: seq<Projection>, more: seq<Projection>, n: nat)
    requires n <= |want| && want <= more && FirstStop(ctl, want, n).Some?
    ensures FirstStop(ctl, more, n) == FirstStop(ctl, want, n)
    decreases |want| - n
  {
    if n < |want| {
      assert more[..n + 1] == want[..n + 1];
      if !ctl.cancelled(n) && ctl.accept(want[..n + 1]) {
        StopEarly(ctl, want, more, n + 1);
      }
    }
  }

  lemma {:induction false} StopLate(ctl: Control, want: seq<Projection>, more: seq<Projection>, n: nat)
    requires n <= |want| && want <= more && Passes(ctl, want, n)
    ensures FirstStop(ctl, more, n) == FirstStop(ctl, more, |want|)
    decreases |want| - n
  {
    if n < |want| {
      assert more[..n + 1] == want[..n + 1];
      StopLate(ctl, want, more, n + 1);
    }
  }

  /** Against a delivery that for a patient caller goes from k to k2: this caller got there
      as well, or it stopped on the way. */
  ghost predicate Matches(ctl: Control, k: Sink, k2: Sink, got: Sink, err: Option<Error>) {
    && k.out <= k2.out
    && match err
       case None => got == k2 && Passes(ctl, k2.out, |k.out|)
       case Some(e) => got.out <= k2.out && FirstStop(ctl, k2.out, |k.out|) == Some((|got.out|, e))
  }

  /** Deliveries one after the other. */
  lemma PassThen(ctl: Control, a: seq<Projection>, b: seq<Projection>, n: nat)
    requires n <= |a| && a <= b && Passes(ctl, a, n) && Passes(ctl, b, |a|)
    ensures Passes(ctl, b, n)
  {
    forall i | n <= i < |b|
      ensures !ctl.cancelled(i) && ctl.accept(b[..i + 1])
    {
      if i < |a| {
        assert b[..i + 1] == a[..i + 1];
      }
    }
  }

  lemma MatchThen(ctl: Control, a: Sink, b: Sink, c: Sink, got: Sink, err: Option<Error>)
    requires a.out <= b.out && Passes(ctl, b.out, |a.out|) && Matches(ctl, b, c, got, err)
    ensures Matches(ctl, a, c, got, err)
  {
    hide FirstStop, Passes;
    StopLate(ctl, b.out, c.out, |a.out|);
    if err.None? {
      PassThen(ctl, b.out, c.out, |a.out|);
    }
  }

  lemma MatchStop(ctl: Control, a: Sink, b: Sink, c: Sink, got: Sink, err: Option<Error>)
    requires Matches(ctl, a, b, got, err) && err.Some? && b.out <= c.out
    ensures Matches(ctl, a, c, got, err)
  {
    StopEarly(ctl, b.out, c.out, |a.out|);
  }

  lemma EmitMatches(env: Env, r: Range, ctl: Control, k: Sink, p: Projection)
    requires Emit(env, r, Patient(), k, p).1.None?
    ensures var e := Emit(env, r, ctl, k, p); Matches(ctl, k, Emit(env, r, Patient(), k, p).0, e.0, e.1)
  {
    hide ValidProjection;
    var k2 := Emit(env, r, Patient(), k, p).0;
    assert (k.out + [p])[..|k.out| + 1] == k.out + [p];
    assert k.out + [p] == k2.out || k.out == k2.out;
  }

  lemma {:induction false} EmitAllMatches(env: Env, r: Range, ctl: Control, k: Sink, items: seq<Projection>)
    requires EmitAll(env, r, Patient(), k, items).1.None?
    ensures var e := EmitAll(env, r, ctl, k, items); Matches(ctl, k, EmitAll(env, r, Patient(), k, items).0, e.0, e.1)
    decreases |items|
  {
    if items == [] {
      MatchSelf(ctl, k);
    } else {
      var b, c := Emit(env, r, Patient(), k, items[0]).0, EmitAll(env, r, Patient(), k, items).0;
      var e := Emit(env, r, ctl, k, items[0]);
      EmitMatches(env, r, ctl, k, items[0]);
      hide Emit;
      EmitAllMatches(env, r, ctl, b, items[1..]);
      var f := EmitAll(env, r, ctl, b, items[1..]);
      hide EmitAll, Matches;
      MatchBoth(ctl, k, b, c, e.0, e.1, f.0, f.1);
    }
  }

  lemma MatchSelf(ctl: Control, k: Sink)
    ensures Matches(ctl, k, k, k, None)
  {
  }

  /** The second delivery happens only when the first has not been stopped. */
  lemma MatchBoth(ctl: Control, a: Sink, b: Sink, c: Sink, g: Sink, e: Option<Error>, h: Sink, f: Option<Error>)
    requires Matches(ctl, a, b, g, e) && Matches(ctl, b, c, h, f)
    ensures if e.Some? then Matches(ctl, a, c, g, e) else g == b && Matches(ctl, a, c, h, f)
  {
    if e.Some? {
      MatchStop(ctl, a, b, c, g, e);
    } else {
      MatchThen(ctl, a, b, c, h, f);
    }
  }

  lemma VisitMatches(env: Env, get: Getter, r: Range, cheaper: Cheaper, ctl: Control, k: Sink, cost: ReadCost, ref: ObjectRef)
    requires Visit(env, get, r, cheaper, Patient(), k, cost, ref).err.None?
    ensures
      var v, w := Visit(env, get, r, cheaper, Patient(), k, cost, ref), Visit(env, get, r, cheaper, ctl, k, cost, ref);
      Matches(ctl, k, v.sink, w.sink, w.err) && (w.err.None? ==> w.cost == v.cost)
  {
    hide ReadRange, ValidRef, EmitAll;
    MatchSelf(ctl, k);
    var v := Visit(env, get, r, cheaper, Patient(), k, cost, ref);
    if ValidRef(ref) && !(ref.end < r.first || ref.start > r.last) {
      EmitAllMatches(env, r, ctl, k, ReadRange(env, get, ref, r, cheaper).items);
    }
    if ctl.cancelled(|k.out|) {
      CancelledHere(ctl, k, v.sink);
    }
  }

  lemma CancelledHere(ctl: Control, k: Sink, k2: Sink)
    requires ctl.cancelled(|k.out|) && k.out <= k2.out
    ensures Matches(ctl, k, k2, k, Some(Io))
  {
  }

  lemma {:induction false} VisitAllMatches(env: Env, get: Getter, r: Range, cheaper: Cheaper, ctl: Control, k: Sink, cost: ReadCost, refs: seq<ObjectRef>)
    requires VisitAll(env, get, r, cheaper, Patient(), k, cost, refs).err.None?
    ensures
      var v, w := VisitAll(env, get, r, cheaper, Patient(), k, cost, refs), VisitAll(env, get, r, cheaper, ctl, k, cost, refs);
      Matches(ctl, k, v.sink, w.sink, w.err) && (w.err.None? ==> w.cost == v.cost)
    decreases |refs|
  {
    if refs == [] {
      MatchSelf(ctl, k);
    } else {
      var a, b := Visit(env, get, r, cheaper, Patient(), k, cost, refs[0]), Visit(env, get, r, cheaper, ctl, k, cost, refs[0]);
      hide Visit, Matches;
      VisitMatches(env, get, r, cheaper, ctl, k, cost, refs[0]);
      VisitAllMatches(env, get, r, cheaper, ctl, a.sink, a.cost, refs[1..]);
      var c, d := VisitAll(env, get, r, cheaper, Patient(), a.sink, a.cost, refs[1..]), VisitAll(env, get, r, cheaper, ctl, a.sink, a.cost, refs[1..]);
      MatchBoth(ctl, k, a.sink, c.sink, b.sink, b.err, d.sink, d.err);
    }
  }

  /** What a caller has got of these records in the end. */
  function Received(ctl: Control, want: seq<Projection>): (seq<Projection>, Option<Error>) {
    StopIn(ctl, want, 0);
    match FirstStop(ctl, want, 0)
    case None => (want, None)
    case Some((n, e)) => (want[..n], Some(e))
  }

  lemma CutMatches(env: Env, get: Getter, c: Commit, r: Range, cheaper: Cheaper, ctl: Control)
    requires ScanCut(env, get, c, r, cheaper, Patient()).err.None?
    ensures
      var full, res := ScanCut(env, get, c, r, cheaper, Patient()), ScanCut(env, get, c, r, cheaper, ctl);
      (res.out, res.err) == Received(ctl, full.out)
  {
    hide VisitAll, Emit, FrontierOK, Refs, Matches, FirstStop;
    var k0 := Sink(r.first, None, false, []);
    var v, w := VisitAll(env, get, r, cheaper, Patient(), k0, FREE, Refs(c.frontier)), VisitAll(env, get, r, cheaper, ctl, k0, FREE, Refs(c.frontier));
    VisitAllMatches(env, get, r, cheaper, ctl, k0, FREE, Refs(c.frontier));
    var e, f := Emit(env, r, Patient(), v.sink, Project(c)), Emit(env, r, ctl, v.sink, Project(c));
    EmitMatches(env, r, ctl, v.sink, Project(c));
    MatchBoth(ctl, k0, v.sink, e.0, w.sink, w.err, f.0, f.1);
    if w.err.Some? {
      MatchTaken(ctl, k0, e.0, w.sink, w.err);
    } else {
      MatchTaken(ctl, k0, e.0, f.0, f.1);
    }
  }

  lemma MatchTaken(ctl: Control, k: Sink, k2: Sink, got: Sink, err: Option<Error>)
    requires k.out == [] && Matches(ctl, k, k2, got, err)
    ensures Received(ctl, k2.out) ==
            if err.Some? then (got.out, err)
            else (k2.out, if ctl.cancelled(|k2.out|) then Some(Io) else None)
    ensures err.None? ==> got == k2
  {
    if err.None? {
      StopLate(ctl, k2.out, k2.out, 0);
      assert k2.out[..|k2.out|] == k2.out;
    } else {
      assert got.out == k2.out[..|got.out|];
    }
  }

  /** If a patient caller would get all of a scan, then any caller gets it up to its own
      first stop, with the error of that stop. */
  lemma CallerDecides(env: Env, get: Getter, snap: Option<Commit>, r: Range, cheaper: Cheaper, ctl: Control)
    requires ScanLog(env, get, snap, r, cheaper, Patient()).err.None?
    ensures
      var full, res := ScanLog(env, get, snap, r, cheaper, Patient()), ScanLog(env, get, snap, r, cheaper, ctl);
      (res.out, res.err) == Received(ctl, full.out)
  {
    hide ScanCut;
    if !(r == EMPTY || r.first > HeadRevision(snap)) {
      CutMatches(env, get, snap.value, Cut(r, snap.value.revision), cheaper, ctl);
    }
  }

  /** A scan that has nothing to deliver reads nothing. */
  lemma NothingRead(env: Env, get: Getter, hist: seq<Commit>, head: int, r: Range, cheaper: Cheaper, ctl: Control)
    requires World(env, get, hist) && 0 <= head <= |hist|
    requires ValidRange(r) ==> Requested(hist, head, r) == []
    ensures ScanLog(env, get, SnapshotAt(hist, head), r, cheaper, ctl).cost == FREE
  {
    if head > 0 {
      RootRevision(env, get, hist, head);
    }
    hide World, ScanCut, Recs, HashAt, Project;
    if ValidRange(r) && r != EMPTY && r.first <= head {
      RecsFirst(hist, r.first, Cut(r, head).last);
    }
  }

  /** The complete answer of a scan of an intact log, for every range and every caller. */
  lemma ScanExactly(env: Env, get: Getter, hist: seq<Commit>, head: int, r: Range, cheaper: Cheaper, ctl: Control)
    requires World(env, get, hist) && 0 <= head <= |hist|
    ensures
      var res := ScanLog(env, get, SnapshotAt(hist, head), r, cheaper, ctl);
      (res.out, res.err) ==
      if ctl.cancelled(0) then ([], Some(Io))
      else if !ValidRange(r) then ([], Some(InvalidRange))
      else Received(ctl, Requested(hist, head, r))
  {
    if head > 0 {
      RootRevision(env, get, hist, head);
    }
    hide World, ScanCut, Requested, Received;
    if ValidRange(r) {
      ScanDelivers(env, get, hist, head, r, cheaper, Patient());
      CallerDecides(env, get, SnapshotAt(hist, head), r, cheaper, ctl);
    }
  }
}
