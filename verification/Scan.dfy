/**
 Reading a range of records: the adaptive choice of representations, the spooled chain
 check before historical records are exposed, and the delivery of records to the caller.
 */
module Scan {
  import opened Wrappers
  import opened Radix
  import opened Machine
  import opened Wire
  import opened Segment
  import opened ReadPlan

  /** What a reader passes to its consumer: records in order, then how it ended. The cost
      counts GETs made, records decoded and frontier references read. */
  datatype Stream = Stream(items: seq<Projection>, err: Option<Error>, cost: ReadCost)

  const ONE_GET := ReadCost(0, 1, 0)

  function CommitCost(c: Commit): ReadCost {
    ReadCost(1, 1, |Refs(c.frontier)|)
  }

  /** readRecords without a cached root. */
  function ReadRecords(env: Env, get: Getter, ref: ObjectRef): Stream {
    if ref.level == 0 then
      match LoadCommitRef(env, get, None, ref)
      case Err(e) => Stream([], Some(e), ONE_GET)
      case Ok(c) => Stream([Project(c)], None, CommitCost(c))
    else
      match LoadRecords(env, get, None, ref)
      case Err(e) => Stream([], Some(e), ONE_GET)
      case Ok(ps) => Stream(ps, None, ReadCost(|ps|, 1, 0))
  }

  datatype Selection = Selection(children: seq<ObjectRef>, next: int, chain: Bytes)

  /** The references at or after the segment's start, checked to continue its chain at
      smaller levels. */
  function SelectChildren(refs: seq<ObjectRef>, ref: ObjectRef, next: int, chain: Bytes): Option<Selection> {
    if refs == [] then Some(Selection([], next, chain))
    else
      var child := refs[0];
      if !ValidRef(child) then None
      else if child.end < ref.start then SelectChildren(refs[1..], ref, next, chain)
      else if child.start != next || child.level >= ref.level || child.firstPrevHash != chain then None
      else
        match SelectChildren(refs[1..], ref, child.end + 1, child.lastRecordHash)
        case None => None
        case Some(s) => Some(s.(children := [child] + s.children))
  }

  datatype Historical = Historical(commit: Commit, children: seq<ObjectRef>)

  /** The commit at a segment's end as an alternative root for it. */
  function LoadHistorical(env: Env, get: Getter, ref: ObjectRef): (h: Result<Historical>)
    ensures h.Ok? ==> forall x :: x in h.value.children ==> x.level < ref.level
  {
    match GetReferenced(get, LogKey(ref.end))
    case Err(e) => Err(e)
    case Ok(body) =>
      match DecodeCommit(env, LogKey(ref.end), body)
      case Err(e) => Err(e)
      case Ok(c) =>
        if c.recordHash != ref.lastRecordHash then Err(Corrupt)
        else
          match SelectChildren(Refs(c.frontier), ref, ref.start, ref.firstPrevHash)
          case None => Err(Corrupt)
          case Some(s) =>
            SelectedLevels(Refs(c.frontier), ref, ref.start, ref.firstPrevHash);
            if s.next != ref.end || s.chain != PrevHash(c) then Err(Corrupt) else Ok(Historical(c, s.children))
  }

  lemma {:induction false} SelectedLevels(refs: seq<ObjectRef>, ref: ObjectRef, next: int, chain: Bytes)
    requires SelectChildren(refs, ref, next, chain).Some?
    ensures forall x :: x in SelectChildren(refs, ref, next, chain).value.children ==> x.level < ref.level
    ensures forall x :: x in SelectChildren(refs, ref, next, chain).value.children ==> ValidRef(x)
    ensures Walk(SelectChildren(refs, ref, next, chain).value.children, next, chain)
            == Some((SelectChildren(refs, ref, next, chain).value.next, SelectChildren(refs, ref, next, chain).value.chain))
  {
    hide ValidRef;
    if refs != [] {
      var child := refs[0];
      if child.end < ref.start {
        SelectedLevels(refs[1..], ref, next, chain);
      } else {
        SelectedLevels(refs[1..], ref, child.end + 1, child.lastRecordHash);
        var s := SelectChildren(refs[1..], ref, child.end + 1, child.lastRecordHash).value;
        assert ([child] + s.children)[1..] == s.children;
      }
    }
  }

  /** readRangeParts: a block as one object, or recursively through its historical root. */
  function Parts(env: Env, get: Getter, ref: ObjectRef, r: Range, cheaper: Cheaper): Stream
    decreases ref.level, 1, 0
  {
    if !ValidRef(ref) then Stream([], Some(Corrupt), FREE)
    else if ref.end < r.first || ref.start > r.last then Stream([], None, FREE)
    else if !Plan(ref.start, ref.level, r, cheaper).1 then ReadRecords(env, get, ref)
    else
      match LoadHistorical(env, get, ref)
      case Err(e) => Stream([], Some(e), ONE_GET)
      case Ok(h) => AddCommit(PartsAll(env, get, h.children, ref.level, r, cheaper), h.commit)
  }

  function PartsAll(env: Env, get: Getter, refs: seq<ObjectRef>, bound: nat, r: Range, cheaper: Cheaper): Stream
    requires forall x :: x in refs ==> x.level < bound
    decreases bound, 0, |refs|
  {
    if refs == [] then Stream([], None, FREE)
    else Then(Parts(env, get, refs[0], r, cheaper), PartsAll(env, get, refs[1..], bound, r, cheaper))
  }

  /** One reader after another; the second does not run when the first fails. */
  function Then(a: Stream, b: Stream): Stream {
    if a.err.Some? then a else Stream(a.items + b.items, b.err, Plus(a.cost, b.cost))
  }

  function AddCommit(s: Stream, c: Commit): Stream {
    if s.err.Some? then s else Stream(s.items + [Project(c)], None, Plus(CommitCost(c), s.cost))
  }

  datatype Spool = Spool(items: seq<Projection>, next: int, chain: Option<Bytes>)

  /** The spool's consumer: drops records before the range, requires the rest to chain. */
  function Collect(items: seq<Projection>, first: int, k: Spool): Option<Spool> {
    if items == [] then Some(k)
    else
      var p := items[0];
      if !ValidRevision(p.revision) then None
      else if p.revision < first then Collect(items[1..], first, k)
      else if p.revision != k.next || (k.chain.Some? && p.previousRecordHash != k.chain.value) then None
      else Collect(items[1..], first, Spool(k.items + [p], p.revision + 1, Some(p.recordHash)))
  }

  /** readRangeSpool: nothing is passed on before the chain reaches the known last hash. */
  function Spooled(s: Stream, ref: ObjectRef, first: int): Stream {
    match Collect(s.items, first, Spool([], first, None))
    case None => Stream([], Some(Corrupt), s.cost)
    case Some(k) =>
      if s.err.Some? then Stream([], s.err, s.cost)
      else if k.next != ref.end + 1 || k.chain != Some(ref.lastRecordHash) then Stream([], Some(Corrupt), s.cost)
      else Stream(k.items, None, s.cost)
  }

  function ReadRange(env: Env, get: Getter, ref: ObjectRef, r: Range, cheaper: Cheaper): Stream {
    if !ValidRef(ref) then Stream([], Some(Corrupt), FREE)
    else
      var s := Parts(env, get, ref, r, cheaper);
      if !Plan(ref.start, ref.level, r, cheaper).1 || r.first == ref.end then s else Spooled(s, ref, r.first)
  }

  // ---- Delivery ----

  /** The caller: whether its context is cancelled after a number of deliveries, and
      whether its callback accepts the last of the records delivered so far. */
  datatype Control = Control(cancelled: nat -> bool, accept: seq<Projection> -> bool)

  /** Scan's captured variables and the records delivered. */
  datatype Sink = Sink(next: int, chain: Option<Bytes>, done: bool, out: seq<Projection>)

  function Emit(env: Env, r: Range, ctl: Control, k: Sink, p: Projection): (Sink, Option<Error>) {
    if ctl.cancelled(|k.out|) then (k, Some(Io))
    else if !ValidRevision(p.revision) then (k, Some(Corrupt))
    else if !Requests(r, p.revision) then (k, None)
    else if k.done || p.revision != k.next || (k.chain.Some? && p.previousRecordHash != k.chain.value) then
      (k, Some(Corrupt))
    else if !ValidProjection(env, p) || !env.decodable(p.event) then (k, Some(Corrupt))
    else
      var out := k.out + [p];
      if !ctl.accept(out) then (k.(out := out), Some(Callback))
      else if p.revision == r.last then (Sink(k.next, Some(p.recordHash), true, out), None)
      else (Sink(k.next + 1, Some(p.recordHash), k.done, out), None)
  }

  function EmitAll(env: Env, r: Range, ctl: Control, k: Sink, items: seq<Projection>): (Sink, Option<Error>)
    decreases |items|
  {
    if items == [] then (k, None)
    else
      var e := Emit(env, r, ctl, k, items[0]);
      if e.1.Some? then e else EmitAll(env, r, ctl, e.0, items[1..])
  }

  datatype Progress = Progress(sink: Sink, err: Option<Error>, cost: ReadCost)

  /** The visits to the frontier's references, in chronological order. */
  function VisitAll(env: Env, get: Getter, r: Range, cheaper: Cheaper, ctl: Control, k: Sink, cost: ReadCost, refs: seq<ObjectRef>): Progress
    decreases |refs|
  {
    if refs == [] then Progress(k, None, cost)
    else
      var v := Visit(env, get, r, cheaper, ctl, k, cost, refs[0]);
      if v.err.Some? then v else VisitAll(env, get, r, cheaper, ctl, v.sink, v.cost, refs[1..])
  }

  function Visit(env: Env, get: Getter, r: Range, cheaper: Cheaper, ctl: Control, k: Sink, cost: ReadCost, ref: ObjectRef): Progress {
    if ctl.cancelled(|k.out|) then Progress(k, Some(Io), cost)
    else if !ValidRef(ref) then Progress(k, Some(Corrupt), cost)
    else if ref.end < r.first || ref.start > r.last then Progress(k, None, cost)
    else
      var s := ReadRange(env, get, ref, r, cheaper);
      var e := EmitAll(env, r, ctl, k, s.items);
      Progress(e.0, if e.1.Some? then e.1 else s.err, Plus(cost, s.cost))
  }

  datatype ScanResult = ScanResult(out: seq<Projection>, err: Option<Error>, cost: ReadCost)

  function HeadRevision(snap: Option<Commit>): int {
    if snap.Some? then snap.value.revision else 0
  }

  /** Scan after its argument checks, on a range cut to the snapshot. */
  function ScanCut(env: Env, get: Getter, c: Commit, r: Range, cheaper: Cheaper, ctl: Control): ScanResult {
    if !FrontierOK(c.frontier, c.revision, PrevHash(c)) then ScanResult([], Some(Corrupt), FREE)
    else
      var v := VisitAll(env, get, r, cheaper, ctl, Sink(r.first, None, false, []), FREE, Refs(c.frontier));
      if v.err.Some? then ScanResult(v.sink.out, v.err, v.cost)
      else
        var e := Emit(env, r, ctl, v.sink, Project(c));
        var out := e.0.out;
        if e.1.Some? then ScanResult(out, e.1, v.cost)
        else if !e.0.done then ScanResult(out, Some(Corrupt), v.cost)
        else if ctl.cancelled(|out|) then ScanResult(out, Some(Io), v.cost)
        else ScanResult(out, None, v.cost)
  }

  function Cut(r: Range, head: int): Range {
    Range(r.first, if r.last < head then r.last else head)
  }

  function ScanLog(env: Env, get: Getter, snap: Option<Commit>, r: Range, cheaper: Cheaper, ctl: Control): ScanResult {
    if ctl.cancelled(0) then ScanResult([], Some(Io), FREE)
    else if snap.Some? && !ValidRevision(snap.value.revision) then ScanResult([], Some(Corrupt), FREE)
    else if !ValidRange(r) then ScanResult([], Some(InvalidRange), FREE)
    else if r == EMPTY || r.first > HeadRevision(snap) then ScanResult([], None, FREE)
    else ScanCut(env, get, snap.value, Cut(r, snap.value.revision), cheaper, ctl)
  }

  // ---- The loops ----

  method ReadRangeParts(env: Env, get: Getter, ref: ObjectRef, r: Range, cheaper: Cheaper) returns (s: Stream)
    ensures s == Parts(env, get, ref, r, cheaper)
    decreases ref.level, 1
  {
    if !ValidRef(ref) {
      return Stream([], Some(Corrupt), FREE);
    }
    if ref.end < r.first || ref.start > r.last {
      return Stream([], None, FREE);
    }
    var _, split := RangeReadPlan(ref.start as Int64, ref.level, r, cheaper);
    if !split {
      return ReadRecords(env, get, ref);
    }
    var h := LoadHistoricalRoot(env, get, ref);
    if h.Err? {
      return Stream([], Some(h.error), ONE_GET);
    }
    s := ReadChildren(env, get, h.value.children, ref.level, r, cheaper);
    s := AddCommit(s, h.value.commit);
  }

  method ReadChildren(env: Env, get: Getter, children: seq<ObjectRef>, bound: nat, r: Range, cheaper: Cheaper) returns (s: Stream)
    requires forall x :: x in children ==> x.level < bound
    ensures s == PartsAll(env, get, children, bound, r, cheaper)
    decreases bound, 0
  {
    hide Parts;
    s := Stream([], None, FREE);
    ThenUnit(PartsAll(env, get, children, bound, r, cheaper));
    var i := 0;
    while i < |children| && s.err.None?
      invariant 0 <= i <= |children|
      invariant PartsAll(env, get, children, bound, r, cheaper) == Then(s, PartsAll(env, get, children[i..], bound, r, cheaper))
    {
      var part := ReadRangeParts(env, get, children[i], r, cheaper);
      ThenAssociates(s, part, PartsAll(env, get, children[i + 1..], bound, r, cheaper));
      s := Then(s, part);
      i := i + 1;
    }
    ThenUnit(s);
  }

  method LoadHistoricalRoot(env: Env, get: Getter, ref: ObjectRef) returns (h: Result<Historical>)
    ensures h == LoadHistorical(env, get, ref)
  {
    var body := GetReferenced(get, LogKey(ref.end));
    if body.Err? {
      return Err(body.error);
    }
    var c := DecodeCommit(env, LogKey(ref.end), body.value);
    if c.Err? {
      return Err(c.error);
    }
    if c.value.recordHash != ref.lastRecordHash {
      return Err(Corrupt);
    }
    var s := SelectInterior(c.value.frontier, ref);
    if s.None? || s.value.next != ref.end || s.value.chain != PrevHash(c.value) {
      return Err(Corrupt);
    }
    h := Ok(Historical(c.value, s.value.children));
  }

  lemma ThenAssociates(a: Stream, b: Stream, c: Stream)
    ensures Then(Then(a, b), c) == Then(a, Then(b, c))
  {
    assert a.items + b.items + c.items == a.items + (b.items + c.items);
  }

  lemma ThenUnit(a: Stream)
    ensures Then(Stream([], None, FREE), a) == a
    ensures a.err.None? ==> Then(a, Stream([], None, FREE)) == a
  {
    assert a.items + [] == a.items && [] + a.items == a.items;
  }

  /** The frontier loop of readRangeParts that picks and checks a segment's interior. */
  method SelectInterior(f: seq<FrontierLevel>, ref: ObjectRef) returns (s: Option<Selection>)
    ensures s == SelectChildren(Refs(f), ref, ref.start, ref.firstPrevHash)
  {
    var children, next, chain := [], ref.start, ref.firstPrevHash;
    ghost var spec := SelectChildren(Refs(f), ref, next, chain);
    hide *;
    SelectedNone(spec);
    var i := |f|;
    assert f[..i] == f;
    while i > 0
      invariant 0 <= i <= |f|
      invariant spec == Selected(children, SelectChildren(Refs(f[..i]), ref, next, chain))
    {
      i := i - 1;
      var refs := f[i].refs;
      RefsLast(f, i);
      var j := 0;
      while j < |refs|
        invariant 0 <= j <= |refs|
        invariant spec == Selected(children, SelectChildren(refs[j..] + Refs(f[..i]), ref, next, chain))
      {
        var child := refs[j];
        ghost var rest := refs[j + 1..] + Refs(f[..i]);
        assert refs[j..] + Refs(f[..i]) == [child] + rest;
        SelectHead(child, rest, ref, next, chain);
        if !ValidRef(child) {
          SelectedRefused(children);
          return None;
        }
        if child.end >= ref.start {
          if child.start != next || child.level >= ref.level || child.firstPrevHash != chain {
            SelectedRefused(children);
            return None;
          }
          SelectedStep(children, child, SelectChildren(rest, ref, child.end + 1, child.lastRecordHash));
          next, chain := child.end + 1, child.lastRecordHash;
          children := children + [child];
        }
        j := j + 1;
      }
      assert refs[j..] + Refs(f[..i]) == Refs(f[..i]);
    }
    SelectedAll(children, f, ref, next, chain);
    s := Some(Selection(children, next, chain));
  }

  /** The stored levels up to i, read highest first. */
  lemma RefsLast(f: seq<FrontierLevel>, i: nat)
    requires i < |f|
    ensures Refs(f[..i + 1]) == f[i].refs + Refs(f[..i]) && f[i].refs[0..] == f[i].refs
  {
    assert f[..i + 1][..i] == f[..i];
  }

  /** SelectChildren on a list's first reference. */
  lemma SelectHead(child: ObjectRef, rest: seq<ObjectRef>, ref: ObjectRef, next: int, chain: Bytes)
    ensures SelectChildren([child] + rest, ref, next, chain) ==
            if !ValidRef(child) then None
            else if child.end < ref.start then SelectChildren(rest, ref, next, chain)
            else if child.start != next || child.level >= ref.level || child.firstPrevHash != chain then None
            else
              match SelectChildren(rest, ref, child.end + 1, child.lastRecordHash)
              case None => None
              case Some(s) => Some(s.(children := [child] + s.children))
  {
    hide ValidRef;
    assert ([child] + rest)[1..] == rest;
  }

  lemma SelectedRefused(before: seq<ObjectRef>)
    ensures Selected(before, None) == None
  {
  }

  lemma SelectedAll(before: seq<ObjectRef>, f: seq<FrontierLevel>, ref: ObjectRef, next: int, chain: Bytes)
    ensures Selected(before, SelectChildren(Refs(f[..0]), ref, next, chain)) == Some(Selection(before, next, chain))
  {
    assert before + [] == before;
  }

  ghost function Selected(before: seq<ObjectRef>, s: Option<Selection>): Option<Selection> {
    if s.None? then None else Some(s.value.(children := before + s.value.children))
  }

  lemma SelectedNone(s: Option<Selection>)
    ensures Selected([], s) == s
  {
    if s.Some? {
      assert [] + s.value.children == s.value.children;
    }
  }

  lemma SelectedStep(before: seq<ObjectRef>, child: ObjectRef, s: Option<Selection>)
    ensures Selected(before, if s.None? then None else Some(s.value.(children := [child] + s.value.children)))
            == Selected(before + [child], s)
  {
    if s.Some? {
      assert before + ([child] + s.value.children) == before + [child] + s.value.children;
    }
  }

  method ReadRangeSpool(env: Env, get: Getter, ref: ObjectRef, r: Range, cheaper: Cheaper) returns (s: Stream)
    ensures s == Spooled(Parts(env, get, ref, r, cheaper), ref, r.first)
  {
    var parts := ReadRangeParts(env, get, ref, r, cheaper);
    var next, chain, file := r.first, None, [];
    for i := 0 to |parts.items|
      invariant Collect(parts.items, r.first, Spool([], r.first, None)) == Collect(parts.items[i..], r.first, Spool(file, next, chain))
    {
      var p := parts.items[i];
      if !ValidRevision(p.revision) {
        return Stream([], Some(Corrupt), parts.cost);
      }
      if p.revision >= r.first {
        if p.revision != next || (chain.Some? && p.previousRecordHash != chain.value) {
          return Stream([], Some(Corrupt), parts.cost);
        }
        next, chain, file := p.revision + 1, Some(p.recordHash), file + [p];
      }
    }
    if parts.err.Some? {
      return Stream([], parts.err, parts.cost);
    }
    if next != ref.end + 1 || chain != Some(ref.lastRecordHash) {
      return Stream([], Some(Corrupt), parts.cost);
    }
    s := Stream(file, None, parts.cost);
  }

  method ReadRangeChosen(env: Env, get: Getter, ref: ObjectRef, r: Range, cheaper: Cheaper) returns (s: Stream)
    ensures s == ReadRange(env, get, ref, r, cheaper)
  {
    if !ValidRef(ref) {
      return Stream([], Some(Corrupt), FREE);
    }
    var _, split := RangeReadPlan(ref.start as Int64, ref.level, r, cheaper);
    if !split || r.first == ref.end {
      s := ReadRangeParts(env, get, ref, r, cheaper);
    } else {
      s := ReadRangeSpool(env, get, ref, r, cheaper);
    }
  }

  method RunVisit(env: Env, get: Getter, r: Range, cheaper: Cheaper, ctl: Control, k: Sink, cost: ReadCost, ref: ObjectRef) returns (v: Progress)
    ensures v == Visit(env, get, r, cheaper, ctl, k, cost, ref)
  {
    if ctl.cancelled(|k.out|) {
      return Progress(k, Some(Io), cost);
    }
    if !ValidRef(ref) {
      return Progress(k, Some(Corrupt), cost);
    }
    if ref.end < r.first || ref.start > r.last {
      return Progress(k, None, cost);
    }
    var s := ReadRangeChosen(env, get, ref, r, cheaper);
    var sink, total := k, Plus(cost, s.cost);
    for i := 0 to |s.items|
      invariant EmitAll(env, r, ctl, k, s.items) == EmitAll(env, r, ctl, sink, s.items[i..])
    {
      var e := Emit(env, r, ctl, sink, s.items[i]);
      sink := e.0;
      if e.1.Some? {
        return Progress(sink, e.1, total);
      }
    }
    v := Progress(sink, s.err, total);
  }

  method RunScan(env: Env, get: Getter, snap: Option<Commit>, r: Range, cheaper: Cheaper, ctl: Control) returns (res: ScanResult)
    ensures res == ScanLog(env, get, snap, r, cheaper, ctl)
  {
    if ctl.cancelled(0) {
      return ScanResult([], Some(Io), FREE);
    }
    if snap.Some? && !ValidRevision(snap.value.revision) {
      return ScanResult([], Some(Corrupt), FREE);
    }
    if r != EMPTY && (r.first <= 0 || r.first > r.last || r.last > MAX_REVISION) {
      return ScanResult([], Some(InvalidRange), FREE);
    }
    if r == EMPTY || r.first > HeadRevision(snap) {
      return ScanResult([], None, FREE);
    }
    var c := snap.value;
    var cut := Cut(r, c.revision);
    var valid := ValidateFrontier(c.frontier, c.revision, PrevHash(c));
    if !valid {
      return ScanResult([], Some(Corrupt), FREE);
    }
    var v := RunVisits(env, get, cut, cheaper, ctl, c.frontier);
    if v.err.Some? {
      return ScanResult(v.sink.out, v.err, v.cost);
    }
    var e := Emit(env, cut, ctl, v.sink, Project(c));
    if e.1.Some? {
      return ScanResult(e.0.out, e.1, v.cost);
    }
    if !e.0.done {
      return ScanResult(e.0.out, Some(Corrupt), v.cost);
    }
    res := ScanResult(e.0.out, if ctl.cancelled(|e.0.out|) then Some(Io) else None, v.cost);
  }

  /** Highest level first, references in stored order. */
  method RunVisits(env: Env, get: Getter, r: Range, cheaper: Cheaper, ctl: Control, f: seq<FrontierLevel>) returns (v: Progress)
    ensures v == VisitAll(env, get, r, cheaper, ctl, Sink(r.first, None, false, []), FREE, Refs(f))
  {
    hide *;
    v := Progress(Sink(r.first, None, false, []), None, FREE);
    ghost var spec := VisitAll(env, get, r, cheaper, ctl, v.sink, FREE, Refs(f));
    var i := |f|;
    assert f[..i] == f;
    while i > 0
      invariant 0 <= i <= |f| && v.err.None?
      invariant spec == VisitAll(env, get, r, cheaper, ctl, v.sink, v.cost, Refs(f[..i]))
    {
      i := i - 1;
      var refs := f[i].refs;
      RefsDown(f, i);
      var j := 0;
      while j < |refs|
        invariant 0 <= j <= |refs| && v.err.None?
        invariant spec == VisitAll(env, get, r, cheaper, ctl, v.sink, v.cost, refs[j..] + Refs(f[..i]))
      {
        VisitOne(env, get, r, cheaper, ctl, v.sink, v.cost, refs, j, Refs(f[..i]));
        v := RunVisit(env, get, r, cheaper, ctl, v.sink, v.cost, refs[j]);
        if v.err.Some? {
          return v;
        }
        j := j + 1;
      }
      assert refs[j..] + Refs(f[..i]) == Refs(f[..i]);
    }
    VisitNone(env, get, r, cheaper, ctl, v.sink, v.cost, f);
  }

  lemma RefsDown(f: seq<FrontierLevel>, i: nat)
    requires i < |f|
    ensures Refs(f[..i + 1]) == f[i].refs[0..] + Refs(f[..i])
  {
    assert f[..i + 1][..i] == f[..i] && f[i].refs[0..] == f[i].refs;
  }

  lemma VisitNone(env: Env, get: Getter, r: Range, cheaper: Cheaper, ctl: Control, k: Sink, cost: ReadCost, f: seq<FrontierLevel>)
    ensures VisitAll(env, get, r, cheaper, ctl, k, cost, Refs(f[..0])) == Progress(k, None, cost)
  {
  }

  lemma VisitOne(env: Env, get: Getter, r: Range, cheaper: Cheaper, ctl: Control, k: Sink, cost: ReadCost, refs: seq<ObjectRef>, j: nat, tail: seq<ObjectRef>)
    requires j < |refs|
    ensures
      var v := Visit(env, get, r, cheaper, ctl, k, cost, refs[j]);
      VisitAll(env, get, r, cheaper, ctl, k, cost, refs[j..] + tail)
      == if v.err.Some? then v else VisitAll(env, get, r, cheaper, ctl, v.sink, v.cost, refs[j + 1..] + tail)
  {
    hide Visit;
    var all := refs[j..] + tail;
    assert all[0] == refs[j] && all[1..] == refs[j + 1..] + tail;
  }
}
