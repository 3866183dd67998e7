/**
 The logical content of lokv's wire objects and the checks made when decoding them.
 Hexadecimal fields are modelled by the bytes or the integer they denote; module Keys
 covers their text form. Hash functions and JSON checks are parameters (Env).
 */
module Wire {
  import opened Wrappers
  import opened Radix

  const COMMIT_FORMAT := "lokv/commit/v3"
  const SEGMENT_FORMAT := "lokv/segment/v3"
  const ZERO_HASH: Bytes := Zeros(32)

  function Zeros(n: nat): (z: Bytes)
    ensures |z| == n && forall i :: 0 <= i < n ==> z[i] == 0
  {
    if n == 0 then [] else [0] + Zeros(n - 1)
  }

  datatype Key =
    | LogKey(revision: int)
    | TreeKey(level: nat, first: int, last: int, digest: Bytes)
    | OtherKey(text: string)

  datatype ObjectRef = ObjectRef(
    level: nat, start: int, end: int, key: Key, sha256: Bytes,
    firstPrevHash: Bytes, lastRecordHash: Bytes)

  datatype FrontierLevel = FrontierLevel(level: nat, refs: seq<ObjectRef>)

  datatype Previous = Previous(key: Key, recordHash: Bytes)

  datatype Commit = Commit(
    format: string, revision: int, commitId: Bytes, previous: Option<Previous>,
    event: Bytes, recordHash: Bytes, frontier: seq<FrontierLevel>)

  datatype Projection = Projection(
    revision: int, commitId: Bytes, previousRecordHash: Bytes, recordHash: Bytes, event: Bytes)

  /** A value inside a segment envelope. */
  datatype Value =
    | Text(text: string)
    | Number(number: int)
    | Records(records: seq<Projection>)
    | OtherValue

  datatype Field = Field(name: string, value: Value)

  /** Stored bytes, by what they decode to. Two commit bodies with the same content
      may differ in layout, and then have different digests. A segment body is its
      decompressed token stream; it may end early. */
  datatype Body =
    | CommitBody(commit: Commit, layout: nat)
    | SegmentBody(fields: seq<Field>, complete: bool)
    | OtherBody(tag: nat)

  /** What the model leaves uninterpreted: SHA-256 of a record preimage, SHA-256 of a
      stored body, and the JSON checks on an event. */
  datatype Env = Env(
    sha: Bytes -> Bytes,
    digest: Body -> Bytes,
    canonical: Bytes -> bool,
    decodable: Bytes -> bool)

  /** Both hash functions produce 32 bytes. */
  ghost predicate ValidEnv(env: Env) {
    && (forall b :: |env.sha(b)| == 32)
    && (forall b :: |env.digest(b)| == 32)
  }

  // ---- Record hashes ----

  const RECORD_DOMAIN: Bytes := [108, 111, 107, 118, 45, 114, 101, 99, 111, 114, 100, 45, 118, 49, 0]

  function BigEndian(n: nat, width: nat): (b: Bytes)
    ensures |b| == width
  {
    if width == 0 then [] else BigEndian(n / 256, width - 1) + [n % 256]
  }

  function Preimage(revision: nat, id: Bytes, prev: Bytes, event: Bytes): Bytes {
    RECORD_DOMAIN + BigEndian(revision, 8) + id + prev + BigEndian(|event|, 8) + event
  }

  function RecordHash(env: Env, revision: nat, id: Bytes, prev: Bytes, event: Bytes): Bytes {
    env.sha(Preimage(revision, id, prev, event))
  }

  function Pow256(k: nat): (r: nat)
    ensures r > 0
  {
    if k == 0 then 1 else 256 * Pow256(k - 1)
  }

  lemma {:induction false} BigEndianInjective(a: nat, b: nat, width: nat)
    requires a < Pow256(width) && b < Pow256(width)
    requires BigEndian(a, width) == BigEndian(b, width)
    ensures a == b
  {
    if width > 0 {
      var x, y := BigEndian(a, width), BigEndian(b, width);
      assert x[..width - 1] == BigEndian(a / 256, width - 1);
      assert y[..width - 1] == BigEndian(b / 256, width - 1);
      assert x[width - 1] == a % 256 && y[width - 1] == b % 256;
      BigEndianInjective(a / 256, b / 256, width - 1);
    }
  }

  /** The byte of weight 256^k stands k places before the end. */
  lemma {:induction false} BigEndianByte(n: nat, width: nat, k: nat)
    requires k < width
    ensures BigEndian(n, width)[width - 1 - k] == n / Pow256(k) % 256
  {
    if k > 0 {
      BigEndianByte(n / 256, width - 1, k - 1);
      DivDiv(n, Pow256(k - 1));
    }
  }

  lemma DivDiv(n: nat, p: nat)
    requires p > 0
    ensures n / 256 / p == n / (256 * p)
  {
    var q := n / 256 / p;
    var low := n / 256 - q * p;
    assert 0 <= low < p;
    var rest := 256 * low + n % 256;
    assert n == 256 * (q * p + low) + n % 256 && 0 <= rest < 256 * p;
    MulAssoc(q, p);
    assert n == q * (256 * p) + rest;
    QuotientUnique(n, 256 * p, q, rest);
  }

  lemma MulAssoc(q: nat, p: nat)
    ensures 256 * (q * p) == q * (256 * p)
  {
  }

  /** What a record hash is taken of: the text lokv-record-v1 and a zero byte, the revision
      in eight big-endian bytes, the commit ID, the previous hash, the batch's length in
      eight big-endian bytes, and the batch. */
  lemma PreimageLayout(revision: nat, id: Bytes, prev: Bytes, event: Bytes)
    requires |id| == 16 && |prev| == 32
    ensures
      var x := Preimage(revision, id, prev, event);
      |x| == 79 + |event| &&
      (forall i :: 0 <= i < 14 ==> x[i] == "lokv-record-v1"[i] as int) && x[14] == 0 &&
      (forall k :: 0 <= k < 8 ==> x[22 - k] == revision / Pow256(k) % 256) &&
      x[23..39] == id && x[39..71] == prev &&
      (forall k :: 0 <= k < 8 ==> x[78 - k] == |event| / Pow256(k) % 256) &&
      x[79..] == event
  {
    var x, r, n := Preimage(revision, id, prev, event), BigEndian(revision, 8), BigEndian(|event|, 8);
    assert x[..15] == RECORD_DOMAIN && x[15..23] == r && x[71..79] == n;
    DomainText();
    forall k | 0 <= k < 8
      ensures x[22 - k] == revision / Pow256(k) % 256 && x[78 - k] == |event| / Pow256(k) % 256
    {
      BigEndianByte(revision, 8, k);
      BigEndianByte(|event|, 8, k);
      assert x[22 - k] == r[7 - k] && x[78 - k] == n[7 - k];
    }
    forall i | 0 <= i < 15
      ensures x[i] == RECORD_DOMAIN[i]
    {
      assert x[i] == x[..15][i];
    }
  }

  lemma DomainText()
    ensures forall i :: 0 <= i < 14 ==> RECORD_DOMAIN[i] == "lokv-record-v1"[i] as int
  {
  }

  /** Records with different identity, predecessor or batch are hashed from different bytes. */
  lemma PreimageInjective(r1: nat, id1: Bytes, prev1: Bytes, ev1: Bytes, r2: nat, id2: Bytes, prev2: Bytes, ev2: Bytes)
    requires r1 <= MAX_REVISION && r2 <= MAX_REVISION
    requires |id1| == |id2| == 16 && |prev1| == |prev2| == 32
    requires Preimage(r1, id1, prev1, ev1) == Preimage(r2, id2, prev2, ev2)
    ensures r1 == r2 && id1 == id2 && prev1 == prev2 && ev1 == ev2
  {
    var x, y := Preimage(r1, id1, prev1, ev1), Preimage(r2, id2, prev2, ev2);
    assert x[15..23] == BigEndian(r1, 8) && y[15..23] == BigEndian(r2, 8);
    assert x[23..39] == id1 && y[23..39] == id2;
    assert x[39..71] == prev1 && y[39..71] == prev2;
    assert x[79..] == ev1 && y[79..] == ev2;
    assert MAX_REVISION < Pow256(8) by {
      assert Pow256(4) == 0x1_0000_0000;
      assert Pow256(8) == 256 * 256 * 256 * 256 * Pow256(4);
    }
    BigEndianInjective(r1, r2, 8);
  }

  // ---- Projections ----

  function PrevHash(c: Commit): Bytes {
    if c.previous.Some? then c.previous.value.recordHash else ZERO_HASH
  }

  function Project(c: Commit): Projection {
    Projection(c.revision, c.commitId, PrevHash(c), c.recordHash, c.event)
  }

  predicate ValidRevision(r: int) {
    0 < r <= MAX_REVISION
  }

  predicate ValidProjection(env: Env, p: Projection) {
    && ValidRevision(p.revision)
    && |p.commitId| == 16 && |p.previousRecordHash| == 32 && |p.recordHash| == 32
    && (p.revision == 1 ==> p.previousRecordHash == ZERO_HASH)
    && |p.event| >= 3 && p.event[0] == 91 && p.event[|p.event| - 1] == 93
    && env.canonical(p.event)
    && RecordHash(env, p.revision, p.commitId, p.previousRecordHash, p.event) == p.recordHash
  }

  // ---- References ----

  function RefKey(r: ObjectRef): Key {
    if r.level == 0 then LogKey(r.start) else TreeKey(r.level, r.start, r.end, r.sha256)
  }

  predicate ValidRef(r: ObjectRef) {
    && r.level <= 15
    && ValidRevision(r.start) && ValidRevision(r.end)
    && Aligned(r.start - 1, r.level)
    && r.start <= MAX_REVISION - (Pow16(r.level) - 1)
    && r.end == r.start + (Pow16(r.level) - 1)
    && |r.sha256| == 32 && |r.firstPrevHash| == 32 && |r.lastRecordHash| == 32
    && r.key == RefKey(r)
  }

  /** What is accepted as a reference: 16^level revisions from a multiple of that many on, all
      in range, with three 32-byte hashes, under the key that these determine. */
  lemma ReferenceMeans(r: ObjectRef)
    ensures ValidRef(r) <==>
            && r.level <= 15 && 1 <= r.start && (r.start - 1) % Pow16(r.level) == 0
            && r.end == r.start + Pow16(r.level) - 1 && r.end <= MAX_REVISION
            && |r.sha256| == 32 && |r.firstPrevHash| == 32 && |r.lastRecordHash| == 32
            && r.key == (if r.level == 0 then LogKey(r.start) else TreeKey(r.level, r.start, r.end, r.sha256))
  {
    if r.start >= 1 {
      AlignedIsRemainder(r.start - 1, r.level);
    }
    hide Aligned, Pow16;
  }

  /** Reads references left to right as adjacent blocks of one hash chain, starting at
      revision next after the record with hash chain; the position and hash reached. */
  function Walk(refs: seq<ObjectRef>, next: int, chain: Bytes): Option<(int, Bytes)> {
    if refs == [] then Some((next, chain))
    else if refs[0].start == next && refs[0].firstPrevHash == chain then
      Walk(refs[1..], refs[0].end + 1, refs[0].lastRecordHash)
    else None
  }

  lemma {:induction false} WalkConcat(a: seq<ObjectRef>, b: seq<ObjectRef>, next: int, chain: Bytes)
    ensures Walk(a + b, next, chain) ==
            match Walk(a, next, chain)
            case None => None
            case Some(w) => Walk(b, w.0, w.1)
  {
    if a == [] {
      assert a + b == b;
    } else {
      assert (a + b)[1..] == a[1..] + b;
      WalkConcat(a[1..], b, a[0].end + 1, a[0].lastRecordHash);
    }
  }

  /** A walk over valid references moves forward, so all of them end before it does. */
  lemma {:induction false} WalkForward(refs: seq<ObjectRef>, next: int, chain: Bytes)
    requires forall r :: r in refs ==> ValidRef(r)
    requires Walk(refs, next, chain).Some?
    ensures next <= Walk(refs, next, chain).value.0
    ensures forall r :: r in refs ==> next <= r.start <= r.end < Walk(refs, next, chain).value.0
  {
    if refs != [] {
      var r := refs[0];
      assert ValidRef(r);
      WalkForward(refs[1..], r.end + 1, r.lastRecordHash);
      assert refs == [r] + refs[1..];
    }
  }

  // ---- Frontiers ----

  predicate CanonicalLevels(f: seq<FrontierLevel>) {
    && (forall i :: 0 <= i < |f| ==> f[i].level <= 15 && 1 <= |f[i].refs| <= 15)
    && (forall i, j :: 0 <= i < j < |f| ==> f[i].level < f[j].level)
  }

  /** The references stored for one level. */
  function RefsAt(f: seq<FrontierLevel>, level: nat): seq<ObjectRef> {
    if f == [] then []
    else if f[|f| - 1].level == level then f[|f| - 1].refs
    else RefsAt(f[..|f| - 1], level)
  }

  type Levels = lv: seq<seq<ObjectRef>> | |lv| == 16 witness [[], [], [], [], [], [], [], [], [], [], [], [], [], [], [], []]

  /** The frontier as an array indexed by level. */
  function Spread(f: seq<FrontierLevel>): Levels {
    seq(16, level requires 0 <= level < 16 => RefsAt(f, level))
  }

  /** References of the levels below k, highest level first: chronological order. */
  function Flat(lv: Levels, k: nat): seq<ObjectRef>
    requires k <= 16
  {
    if k == 0 then [] else lv[k - 1] + Flat(lv, k - 1)
  }

  /** All references of a frontier in chronological order. */
  function Refs(f: seq<FrontierLevel>): seq<ObjectRef> {
    if f == [] then [] else f[|f| - 1].refs + Refs(f[..|f| - 1])
  }

  predicate LevelOK(refs: seq<ObjectRef>, level: nat, n: nat) {
    && |refs| == Digit(n, level)
    && (forall i :: 0 <= i < |refs| ==> ValidRef(refs[i]) && refs[i].level == level)
  }

  predicate LevelsOK(lv: Levels, revision: int, prevHash: Bytes)
    requires revision > 0
  {
    && (forall level :: 0 <= level < 16 ==> LevelOK(lv[level], level, revision - 1))
    && Walk(Flat(lv, 16), 1, ZERO_HASH) == Some((revision, prevHash))
  }

  /** What validateFrontier accepts: the canonical hash-chained partition of [1, revision). */
  predicate FrontierOK(f: seq<FrontierLevel>, revision: int, prevHash: Bytes) {
    && ValidRevision(revision)
    && CanonicalLevels(f)
    && LevelsOK(Spread(f), revision, prevHash)
  }

  lemma {:induction false} RefsAtAbsent(f: seq<FrontierLevel>, level: nat)
    requires forall i :: 0 <= i < |f| ==> f[i].level != level
    ensures RefsAt(f, level) == []
  {
    if f != [] {
      RefsAtAbsent(f[..|f| - 1], level);
    }
  }

  lemma SpreadSnoc(f: seq<FrontierLevel>, g: FrontierLevel)
    requires g.level < 16
    ensures Spread(f + [g]) == Spread(f)[g.level := g.refs]
  {
    assert (f + [g])[..|f|] == f;
  }

  lemma {:induction false} FlatValid(lv: Levels, k: nat, n: nat)
    requires k <= 16 && forall level :: 0 <= level < k ==> LevelOK(lv[level], level, n)
    ensures forall r :: r in Flat(lv, k) ==> ValidRef(r) && r.level < k
  {
    if k > 0 {
      FlatValid(lv, k - 1, n);
      assert LevelOK(lv[k - 1], k - 1, n);
    }
  }

  /** The order in which Scan visits a canonical frontier is the chronological one. */
  lemma {:induction false} RefsAreFlat(f: seq<FrontierLevel>, k: nat)
    requires CanonicalLevels(f) && k <= 16 && forall i :: 0 <= i < |f| ==> f[i].level < k
    ensures Refs(f) == Flat(Spread(f), k)
  {
    if k == 0 {
      assert f == [];
    } else if f != [] && f[|f| - 1].level == k - 1 {
      var g, top := f[..|f| - 1], f[|f| - 1];
      RefsTop(f);
      CanonicalFront(f);
      hide *;
      RefsAreFlat(g, k - 1);
      FlatTop(g, top);
      assert f == g + [top];
    } else {
      CanonicalBelow(f, k);
      hide *;
      RefsAtAbsent(f, k - 1);
      FlatStep(Spread(f), k);
      SpreadAt(f, k - 1);
      RefsAreFlat(f, k - 1);
      assert [] + Flat(Spread(f), k - 1) == Flat(Spread(f), k - 1);
    }
  }

  lemma RefsTop(f: seq<FrontierLevel>)
    requires f != []
    ensures Refs(f) == f[|f| - 1].refs + Refs(f[..|f| - 1])
  {
  }

  lemma CanonicalFront(f: seq<FrontierLevel>)
    requires CanonicalLevels(f) && f != []
    ensures CanonicalLevels(f[..|f| - 1])
    ensures var g := f[..|f| - 1]; forall i :: 0 <= i < |g| ==> g[i].level < f[|f| - 1].level
  {
  }

  lemma CanonicalBelow(f: seq<FrontierLevel>, k: nat)
    requires CanonicalLevels(f) && k > 0 && forall i :: 0 <= i < |f| ==> f[i].level < k
    requires f == [] || f[|f| - 1].level != k - 1
    ensures forall i :: 0 <= i < |f| ==> f[i].level < k - 1
  {
    if f != [] {
      CanonicalFront(f);
    }
  }

  lemma FlatStep(lv: Levels, k: nat)
    requires 0 < k <= 16
    ensures Flat(lv, k) == lv[k - 1] + Flat(lv, k - 1)
  {
  }

  lemma SpreadAt(f: seq<FrontierLevel>, level: nat)
    requires level < 16
    ensures Spread(f)[level] == RefsAt(f, level)
  {
  }

  /** Adding a level above all others puts its references in front. */
  lemma FlatTop(g: seq<FrontierLevel>, top: FrontierLevel)
    requires top.level < 16
    ensures Flat(Spread(g + [top]), top.level + 1) == top.refs + Flat(Spread(g), top.level)
  {
    SpreadSnoc(g, top);
    hide Spread;
    FlatAgree(Spread(g + [top]), Spread(g), top.level);
  }

  lemma {:induction false} FlatAgree(a: Levels, b: Levels, k: nat)
    requires k <= 16 && forall i :: 0 <= i < k ==> a[i] == b[i]
    ensures Flat(a, k) == Flat(b, k)
  {
    if k > 0 {
      FlatAgree(a, b, k - 1);
    }
  }

  // ---- The validator ----

  method ValidateFrontier(frontier: seq<FrontierLevel>, revision: int, prevHash: Bytes) returns (ok: bool)
    ensures ok <==> FrontierOK(frontier, revision, prevHash)
  {
    if revision <= 0 || revision > MAX_REVISION {
      return false;
    }
    var canonical, lv := SpreadLevels(frontier);
    if !canonical {
      return false;
    }
    ok := WalkLevels(lv, revision, prevHash);
  }

  /** First loop of validateFrontier: strictly increasing levels of 1 to 15 references. */
  method SpreadLevels(frontier: seq<FrontierLevel>) returns (ok: bool, lv: Levels)
    ensures ok <==> CanonicalLevels(frontier)
    ensures ok ==> lv == Spread(frontier)
  {
    lv := Spread([]);
    var last: int := -1;
    for i := 0 to |frontier|
      invariant CanonicalLevels(frontier[..i])
      invariant lv == Spread(frontier[..i])
      invariant last == if i == 0 then -1 else frontier[i - 1].level
    {
      var f := frontier[i];
      if f.level <= last || f.level > 15 || |f.refs| == 0 || |f.refs| > 15 {
        return false, lv;
      }
      SpreadSnoc(frontier[..i], f);
      assert frontier[..i + 1] == frontier[..i] + [f];
      last := f.level;
      lv := lv[f.level := f.refs];
    }
    assert frontier[..|frontier|] == frontier;
    ok := true;
  }

  /** What the inner loop checks of each reference besides its place in the walk. */
  predicate LevelFits(refs: seq<ObjectRef>, level: nat, revision: int) {
    forall i :: 0 <= i < |refs| ==> ValidRef(refs[i]) && refs[i].level == level && refs[i].end < revision
  }

  /** Second loop of validateFrontier: digit counts, then one pass over all blocks. */
  method WalkLevels(lv: Levels, revision: int, prevHash: Bytes) returns (ok: bool)
    requires ValidRevision(revision)
    ensures ok <==> LevelsOK(lv, revision, prevHash)
  {
    assert 0 < revision;
    hide *;
    var next, chain := 1, ZERO_HASH;
    var level := 16;
    WalkStarts(lv, revision);
    while level > 0
      invariant 0 <= level <= 16 && WalkedTo(lv, level, revision, next, chain)
    {
      level := level - 1;
      ok, next, chain := CheckLevel(lv, level, revision, prevHash, next, chain);
      if !ok {
        return false;
      }
    }
    WalkDone(lv, revision, prevHash, next, chain);
    ok := next == revision && chain == prevHash;
  }

  /** The levels from one up have passed, and the walk of all blocks goes on from here. */
  ghost predicate WalkedTo(lv: Levels, level: nat, revision: int, next: int, chain: Bytes) {
    && 0 < revision && level <= 16
    && (forall k :: level <= k < 16 ==> LevelOK(lv[k], k, revision - 1))
    && Walk(Flat(lv, 16), 1, ZERO_HASH) == Walk(Flat(lv, level), next, chain)
  }

  lemma WalkStarts(lv: Levels, revision: int)
    requires 0 < revision
    ensures WalkedTo(lv, 16, revision, 1, ZERO_HASH)
  {
    hide LevelOK, Walk, Flat;
  }

  /** One turn of the second loop: the digit count, then the level's blocks. */
  method CheckLevel(lv: Levels, level: nat, revision: int, prevHash: Bytes, start: int, prev: Bytes)
    returns (ok: bool, next: int, chain: Bytes)
    requires ValidRevision(revision) && level < 16 && WalkedTo(lv, level + 1, revision, start, prev)
    ensures ok ==> WalkedTo(lv, level, revision, next, chain)
    ensures !ok ==> !LevelsOK(lv, revision, prevHash)
  {
    assert 0 < revision && Walk(Flat(lv, 16), 1, ZERO_HASH) == Walk(Flat(lv, level + 1), start, prev);
    hide *;
    FlatStep(lv, level + 1);
    if |lv[level]| != Digit(revision - 1, level) {
      WrongCount(lv, revision, prevHash, level);
      return false, start, prev;
    }
    WalkConcat(lv[level], Flat(lv, level), start, prev);
    if LevelsOK(lv, revision, prevHash) {
      AcceptedLevel(lv, revision, prevHash, level, start, prev);
    }
    ok, next, chain := WalkLevel(lv[level], level, revision, start, prev);
    if ok {
      RightLevel(lv[level], level, revision);
      WalkedOn(lv, level, revision, start, prev, next, chain);
    }
  }

  lemma WalkedOn(lv: Levels, level: nat, revision: int, start: int, prev: Bytes, next: int, chain: Bytes)
    requires level < 16 && WalkedTo(lv, level + 1, revision, start, prev) && LevelOK(lv[level], level, revision - 1)
    requires Walk(Flat(lv, level + 1), start, prev) == Walk(Flat(lv, level), next, chain)
    ensures WalkedTo(lv, level, revision, next, chain)
  {
    hide LevelOK, Walk, Flat;
  }

  lemma WrongCount(lv: Levels, revision: int, prevHash: Bytes, level: nat)
    requires 0 < revision && level < 16 && |lv[level]| != Digit(revision - 1, level)
    ensures !LevelsOK(lv, revision, prevHash)
  {
    assert !LevelOK(lv[level], level, revision - 1);
    hide LevelOK, Walk;
  }

  lemma RightLevel(refs: seq<ObjectRef>, level: nat, revision: int)
    requires 0 < revision && |refs| == Digit(revision - 1, level) && LevelFits(refs, level, revision)
    ensures LevelOK(refs, level, revision - 1)
  {
    hide ValidRef;
  }

  lemma WalkDone(lv: Levels, revision: int, prevHash: Bytes, next: int, chain: Bytes)
    requires WalkedTo(lv, 0, revision, next, chain)
    ensures revision > 0
    ensures LevelsOK(lv, revision, prevHash) <==> next == revision && chain == prevHash
  {
    hide LevelOK;
  }

  method WalkLevel(refs: seq<ObjectRef>, level: nat, revision: int, start: int, prev: Bytes)
    returns (ok: bool, next: int, chain: Bytes)
    ensures ok <==> LevelFits(refs, level, revision) && Walk(refs, start, prev).Some?
    ensures ok ==> Walk(refs, start, prev) == Some((next, chain))
  {
    next, chain := start, prev;
    hide *;
    NoneFit(level, revision);
    assert refs[..0] == [] && refs[0..] == refs;
    for i := 0 to |refs|
      invariant LevelFits(refs[..i], level, revision)
      invariant Walk(refs, start, prev) == Walk(refs[i..], next, chain)
    {
      var ref := refs[i];
      WalkHead(refs[i..], next, chain);
      NextFits(refs, i, level, revision);
      assert refs[i..][1..] == refs[i + 1..];
      if !ValidRef(ref) || ref.level != level || ref.start != next || ref.end >= revision || ref.firstPrevHash != chain {
        return false, next, chain;
      }
      next, chain := ref.end + 1, ref.lastRecordHash;
    }
    assert refs[..|refs|] == refs && refs[|refs|..] == [];
    WalkNone(next, chain);
    ok := true;
  }

  lemma NoneFit(level: nat, revision: int)
    ensures LevelFits([], level, revision)
  {
  }

  lemma WalkNone(next: int, chain: Bytes)
    ensures Walk([], next, chain) == Some((next, chain))
  {
  }

  lemma WalkHead(refs: seq<ObjectRef>, next: int, chain: Bytes)
    requires refs != []
    ensures Walk(refs, next, chain) ==
            if refs[0].start == next && refs[0].firstPrevHash == chain
            then Walk(refs[1..], refs[0].end + 1, refs[0].lastRecordHash) else None
  {
  }

  /** One more reference passes the checks, or the whole list does not. */
  lemma NextFits(refs: seq<ObjectRef>, i: nat, level: nat, revision: int)
    requires i < |refs| && LevelFits(refs[..i], level, revision)
    ensures var x := refs[i];
      var fits := ValidRef(x) && x.level == level && x.end < revision;
      (fits ==> LevelFits(refs[..i + 1], level, revision)) && (!fits ==> !LevelFits(refs, level, revision))
  {
    hide ValidRef;
    assert forall j :: 0 <= j < i ==> refs[..i + 1][j] == refs[..i][j];
  }

  /** In an accepted frontier every level the validator reaches passes its checks. */
  lemma AcceptedLevel(lv: Levels, revision: int, prevHash: Bytes, level: nat, next: int, chain: Bytes)
    requires ValidRevision(revision) && level < 16 && LevelsOK(lv, revision, prevHash)
    requires Walk(Flat(lv, 16), 1, ZERO_HASH) == Walk(lv[level] + Flat(lv, level), next, chain)
    ensures LevelFits(lv[level], level, revision) && Walk(lv[level], next, chain).Some?
  {
    var refs := lv[level];
    assert LevelOK(refs, level, revision - 1);
    FlatValid(lv, level, revision - 1);
    var rest := refs + Flat(lv, level);
    WalkConcat(refs, Flat(lv, level), next, chain);
    WalkForward(rest, next, chain);
    assert forall i :: 0 <= i < |refs| ==> refs[i] in rest;
  }

  // ---- Commits ----

  predicate ValidCommit(env: Env, revision: int, c: Commit) {
    && ValidRevision(revision)
    && c.format == COMMIT_FORMAT && c.revision == revision
    && (if revision == 1 then c.previous.None?
        else c.previous.Some? && c.previous.value.key == LogKey(revision - 1))
    && ValidProjection(env, Project(c))
    && FrontierOK(c.frontier, revision, PrevHash(c))
  }

  function DecodeCommit(env: Env, key: Key, body: Body): Result<Commit> {
    if key.LogKey? && body.CommitBody? && ValidCommit(env, key.revision, body.commit)
    then Ok(body.commit) else Err(Corrupt)
  }

  /** The bytes json.Marshal produces for a commit. */
  function EncodeCommit(c: Commit): Body {
    CommitBody(c, 0)
  }
}
