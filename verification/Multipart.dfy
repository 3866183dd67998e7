/** Multipart uploads: the part size, and the workers that share the parts between them. */
module Multipart {
  import opened Wrappers
  import opened Radix
  import opened Machine

  const MIN_PART: Int64 := 0x50_0000
  const MAX_PART: Int64 := 0x1_4000_0000
  const MAX_PARTS: Int64 := 10_000
  const WORKERS: nat := 4

  function Max(a: Int64, b: Int64): Int64 {
    if a < b then b else a
  }

  /** Number of parts of a size: the quotient rounded up. */
  function Count(size: Int64, part: Int64): (n: Int64)
    requires 0 <= size <= 0x3000_0000_0000_0000 && 0 < part <= 0x3000_0000_0000_0000
    ensures n >= 0
  {
    QuotientBounds(size as int + part as int - 1, part as int);
    (size + part - 1) / part
  }

  lemma QuotientBounds(a: int, b: int)
    requires 0 <= a && 0 < b
    ensures 0 <= a / b <= a
  {
    var q := a / b;
    assert a == q * b + a % b;
    if q < 0 {
      MulMonotone(q, -1, b);
    } else {
      MulMonotone(1, b, q);
    }
  }

  lemma CountCovers(size: int, part: int, n: int)
    requires 0 <= size && 0 < part && n == (size + part - 1) / part
    ensures n >= 0 && n * part >= size && (n > 0 ==> (n - 1) * part < size)
    ensures n == 0 <==> size == 0
  {
    var s := size + part - 1;
    assert s == n * part + s % part;
    if n < 0 {
      MulMonotone(n, -1, part);
    }
    MulAdd(n - 1, 1, part);
    if n == 0 {
      assert s % part == s;
    }
    if size == 0 && n > 0 {
      MulMonotone(1, n, part);
    }
  }

  /** If enough parts of this size cover the object, the rounded-up count is no larger. */
  lemma CountLeast(size: int, part: int, n: int, m: int)
    requires 0 <= size && 0 < part && n == (size + part - 1) / part && 0 <= m && m * part >= size
    ensures n <= m
  {
    CountCovers(size, part, n);
    if n > m {
      MulMonotone(m, n - 1, part);
    }
  }

  /** Parts of this size are allowed, are what the caller asked for, and are enough. */
  predicate Suffices(size: int, target: int, part: int) {
    MIN_PART as int <= part && target <= part && size <= 10_000 * part
  }

  /** The size chosen is the least that suffices, and respects S3's limits for every object
      they can hold, without overflow. */
  method PartSize(size: Int64, target: Int64) returns (r: Option<Int64>)
    requires 0 <= size && MIN_PART <= target <= MAX_PART
    ensures r.None? <==> size as int > 10_000 * MAX_PART as int
    ensures r.Some? ==> MIN_PART <= r.value <= MAX_PART && r.value >= target
    ensures r.Some? ==> size <= 0x3000_0000_0000_0000 && Count(size, r.value) <= MAX_PARTS
    ensures r.Some? ==> Suffices(size as int, target as int, r.value as int)
    ensures r.Some? ==> !Suffices(size as int, target as int, r.value as int - 1)
  {
    if size > MAX_PARTS * MAX_PART {
      return None;
    }
    var least := (size + (MAX_PARTS - 1)) / MAX_PARTS;
    var part := Max(Max(MIN_PART, target), least);
    CountCovers(size as int, 10_000, least as int);
    MulMonotone(least as int, part as int, 10_000);
    CountLeast(size as int, part as int, Count(size, part) as int, 10_000);
    if Suffices(size as int, target as int, part as int - 1) {
      CountLeast(size as int, 10_000, least as int, part as int - 1);
    }
    r := Some(part);
  }

  // ---- Tiling ----

  function Min(a: int, b: int): int {
    if a < b then a else b
  }

  /** The i-th part: length min(part, size - offset) at offset i * part. */
  function Part(value: Bytes, part: nat, i: nat): Bytes
    requires i * part <= |value|
  {
    value[i * part..i * part + Min(part, |value| - i * part)]
  }

  predicate Covers(value: Bytes, part: nat, n: nat) {
    part > 0 && n * part >= |value| && (n > 0 ==> (n - 1) * part < |value|) && (n == 0 ==> value == [])
  }

  /** The number of parts uploadParts allocates covers the object exactly. */
  lemma CountTiles(value: Bytes, part: Int64)
    requires |value| <= 0x3000_0000_0000_0000 && 0 < part <= 0x3000_0000_0000_0000
    ensures Covers(value, part as nat, Count(|value| as Int64, part) as nat)
  {
    CountCovers(|value|, part as int, Count(|value| as Int64, part) as int);
  }

  lemma PartInside(value: Bytes, part: nat, n: nat, i: nat)
    requires Covers(value, part, n) && i < n
    ensures i * part < |value|
  {
    MulMonotone(i, n - 1, part);
  }

  /** The first n parts, concatenated. */
  function Joined(parts: seq<Bytes>): Bytes {
    if parts == [] then [] else Joined(parts[..|parts| - 1]) + parts[|parts| - 1]
  }

  /** Parts uploaded in order make up the object. */
  lemma {:induction false} PartsTile(value: Bytes, part: nat, n: nat, parts: seq<Bytes>)
    requires Covers(value, part, n) && |parts| <= n
    requires forall i :: 0 <= i < |parts| ==> i * part <= |value| && parts[i] == Part(value, part, i)
    ensures Joined(parts) == value[..Min(|parts| * part, |value|)]
  {
    if parts == [] {
      assert 0 * part == 0;
    } else {
      var m := |parts| - 1;
      assert parts[m] == Part(value, part, m);
      hide Covers, Joined;
      PartsTile(value, part, n, parts[..m]);
      PartInside(value, part, n, m);
      MulAdd(m, 1, part);
      OnePart(value, part, m);
      assert Joined(parts) == Joined(parts[..m]) + parts[m] by {
        JoinedLast(parts);
      }
    }
  }

  lemma JoinedLast(parts: seq<Bytes>)
    requires parts != []
    ensures Joined(parts) == Joined(parts[..|parts| - 1]) + parts[|parts| - 1]
  {
  }

  lemma OnePart(value: Bytes, part: nat, m: nat)
    requires m * part <= |value| && (m + 1) * part == m * part + part
    ensures value[..Min(m * part, |value|)] + Part(value, part, m) == value[..Min((m + 1) * part, |value|)]
  {
  }

  // ---- The workers ----

  /** Where each worker is, what has been uploaded under each part number and how often. */
  datatype Upload = Upload(next: seq<nat>, parts: seq<Bytes>, times: seq<nat>, failed: bool)

  function Start(n: nat): Upload {
    Upload(seq(Min(WORKERS, n), w requires 0 <= w < Min(WORKERS, n) => w as nat), seq(n, _ => []), seq(n, _ => 0), false)
  }

  /** Worker w uploads its next part; a failure makes every worker stop. */
  function WorkerStep(value: Bytes, part: nat, u: Upload, w: nat, ok: bool): Upload
    requires w < |u.next| && |u.parts| == |u.times|
  {
    var i := u.next[w];
    if u.failed || i >= |u.parts| then u
    else if !ok || i * part > |value| then u.(failed := true)
    else Upload(u.next[w := i + WORKERS], u.parts[i := Part(value, part, i)], u.times[i := u.times[i] + 1], false)
  }

  /** The turns taken so far: which worker moved, and whether its upload succeeded. */
  function Schedule(value: Bytes, part: nat, n: nat, turns: seq<(nat, bool)>): (u: Upload)
    ensures |u.parts| == |u.times| == n && |u.next| == Min(WORKERS, n)
  {
    if turns == [] then Start(n)
    else
      var u := Schedule(value, part, n, turns[..|turns| - 1]);
      var t := turns[|turns| - 1];
      if t.0 < |u.next| then WorkerStep(value, part, u, t.0, t.1) else u
  }

  /** After a failed part no worker uploads another. */
  lemma {:induction false} FailureStops(value: Bytes, part: nat, n: nat, turns: seq<(nat, bool)>, more: seq<(nat, bool)>)
    requires Schedule(value, part, n, turns).failed
    ensures Schedule(value, part, n, turns + more) == Schedule(value, part, n, turns)
  {
    if more == [] {
      assert turns + more == turns;
    } else {
      var k := |more| - 1;
      var all := turns + more;
      assert all[..|all| - 1] == turns + more[..k];
      FailureStops(value, part, n, turns, more[..k]);
    }
  }

  predicate Placed(value: Bytes, part: nat, u: Upload, i: nat)
    requires |u.parts| == |u.times| && i < |u.parts| && i % WORKERS < |u.next|
  {
    if i < u.next[i % WORKERS] then u.times[i] == 1 && i * part <= |value| && u.parts[i] == Part(value, part, i)
    else u.times[i] == 0
  }

  predicate UploadOK(value: Bytes, part: nat, n: nat, u: Upload) {
    && |u.parts| == |u.times| == n && |u.next| == Min(WORKERS, n)
    && (forall w :: 0 <= w < |u.next| ==> u.next[w] % WORKERS == w)
    && (forall i :: 0 <= i < n ==> i % WORKERS < |u.next| && Placed(value, part, u, i))
  }

  lemma StepOK(value: Bytes, part: nat, n: nat, u: Upload, w: nat, ok: bool)
    requires Covers(value, part, n) && UploadOK(value, part, n, u) && w < |u.next|
    ensures UploadOK(value, part, n, WorkerStep(value, part, u, w, ok))
    ensures ok && u.next[w] < n && !u.failed ==> !WorkerStep(value, part, u, w, ok).failed
  {
    var t, i := WorkerStep(value, part, u, w, ok), u.next[w];
    if i < n {
      PartInside(value, part, n, i);
    }
    Strides(i);
    forall j | 0 <= j < n
      ensures j % WORKERS < |t.next| && Placed(value, part, t, j)
    {
      assert Placed(value, part, u, j);
      PlacedStep(value, part, n, u, w, ok, j);
    }
    hide Placed, Part, Covers;
  }

  lemma Strides(i: nat)
    ensures (i + WORKERS) % WORKERS == i % WORKERS
  {
  }

  /** Among indices of one worker, those before its next after a step are one more. */
  lemma SameWorker(i: nat, j: nat)
    requires i % WORKERS == j % WORKERS
    ensures j < i + WORKERS <==> j <= i
  {
  }

  lemma PlacedStep(value: Bytes, part: nat, n: nat, u: Upload, w: nat, ok: bool, j: nat)
    requires |u.parts| == |u.times| == n && w < |u.next| && u.next[w] % WORKERS == w
    requires j < n && j % WORKERS < |u.next| && Placed(value, part, u, j)
    requires u.next[w] < n ==> u.next[w] * part <= |value|
    ensures Placed(value, part, WorkerStep(value, part, u, w, ok), j)
  {
    hide Part;
    if j % WORKERS == w {
      SameWorker(u.next[w], j);
    }
  }

  lemma {:induction false} ScheduleOK(value: Bytes, part: nat, n: nat, turns: seq<(nat, bool)>)
    requires Covers(value, part, n)
    ensures UploadOK(value, part, n, Schedule(value, part, n, turns))
  {
    if turns != [] {
      var front, t := turns[..|turns| - 1], turns[|turns| - 1];
      ScheduleOK(value, part, n, front);
      hide Covers, UploadOK, WorkerStep;
      if t.0 < |Schedule(value, part, n, front).next| {
        StepOK(value, part, n, Schedule(value, part, n, front), t.0, t.1);
      }
    }
  }

  /** Whatever order the workers run in, once all have run out of parts without a failure
      every part has been uploaded exactly once, and in order they are the object. */
  lemma EveryPartOnce(value: Bytes, part: Int64, turns: seq<(nat, bool)>)
    requires |value| <= 0x3000_0000_0000_0000 && 0 < part <= 0x3000_0000_0000_0000
    requires
      var n := Count(|value| as Int64, part) as nat;
      var u := Schedule(value, part as nat, n, turns);
      !u.failed && forall w :: 0 <= w < |u.next| ==> u.next[w] >= n
    ensures
      var n := Count(|value| as Int64, part) as nat;
      var u := Schedule(value, part as nat, n, turns);
      (forall i :: 0 <= i < n ==> u.times[i] == 1) && Joined(u.parts) == value
  {
    CountTiles(value, part);
    var size, n := part as nat, Count(|value| as Int64, part) as nat;
    hide Count;
    ScheduleOK(value, size, n, turns);
    var u := Schedule(value, size, n, turns);
    forall i | 0 <= i < n
      ensures u.times[i] == 1 && i * size <= |value| && u.parts[i] == Part(value, size, i)
    {
      assert Placed(value, size, u, i);
    }
    PartsTile(value, size, n, u.parts);
    assert value[..|value|] == value;
  }
}
