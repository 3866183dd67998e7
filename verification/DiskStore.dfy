/**
 The disk store: a key is hex-encoded and cut into chunks of 128 characters, one directory
 each, with the value in a file named "!". Listing walks the directories in name order.
 The file system is modelled by the paths it holds below the store's root.
 */
module DiskStore {
  import opened Wrappers
  import opened Order
  import opened Listing
  import Keys
  import MemStore

  const CHUNK := 128
  const VALUE := "!"

  type Path = seq<string>

  // ---- Encoding ----

  /** A key is a string of bytes. */
  predicate IsBytes(k: string) {
    forall i :: 0 <= i < |k| ==> k[i] < 256 as char
  }

  function EncodeByte(c: char): (s: string)
    requires c < 256 as char
    ensures |s| == 2
  {
    [Keys.HexDigit(c as nat / 16), Keys.HexDigit(c as nat % 16)]
  }

  function Encode(k: string): (e: string)
    requires IsBytes(k)
    ensures |e| == 2 * |k| && ValidEnc(e)
  {
    if k == "" then ""
    else
      assert k[1..] == k[1..] && forall i :: 0 <= i < |k| - 1 ==> k[1..][i] == k[i + 1];
      EncodeByte(k[0]) + Encode(k[1..])
  }

  predicate AllHex(s: string) {
    forall i :: 0 <= i < |s| ==> Keys.ValidHexChar(s[i])
  }

  predicate ValidEnc(e: string) {
    |e| % 2 == 0 && AllHex(e)
  }

  function Decode(e: string): string
    requires ValidEnc(e)
  {
    if e == "" then ""
    else [(16 * Keys.HexValue(e[0]) + Keys.HexValue(e[1])) as char] + Decode(e[2..])
  }

  lemma {:induction false} DecodeEncode(k: string)
    requires IsBytes(k)
    ensures Decode(Encode(k)) == k
  {
    if k != "" {
      var c, e := k[0], Encode(k);
      assert e[2..] == Encode(k[1..]) && e[0] == EncodeByte(c)[0] && e[1] == EncodeByte(c)[1];
      Keys.ValueOfDigit(c as nat / 16);
      Keys.ValueOfDigit(c as nat % 16);
      DecodeEncode(k[1..]);
    }
  }

  lemma HexDigitOrder(a: nat, b: nat)
    requires a < 16 && b < 16
    ensures a < b <==> Keys.HexDigit(a) < Keys.HexDigit(b)
  {
  }

  /** Encoding preserves the order of keys. */
  lemma {:induction false} EncodeOrder(a: string, b: string)
    requires IsBytes(a) && IsBytes(b)
    ensures Less(Encode(a), Encode(b)) <==> Less(a, b)
  {
    if a != "" && b != "" {
      var x, y := a[0] as nat, b[0] as nat;
      HexDigitOrder(x / 16, y / 16);
      HexDigitOrder(y / 16, x / 16);
      HexDigitOrder(x % 16, y % 16);
      HexDigitOrder(y % 16, x % 16);
      var p, q := EncodeByte(a[0]), EncodeByte(b[0]);
      assert Encode(a) == p + Encode(a[1..]) && Encode(b) == q + Encode(b[1..]);
      if a[0] == b[0] {
        EncodeOrder(a[1..], b[1..]);
        LessCommonPrefix(p, Encode(a[1..]), Encode(b[1..]));
      } else {
        ByteOrder(a[0], b[0]);
        ByteOrder(b[0], a[0]);
        if a[0] < b[0] {
          LessExtend(p, q, Encode(a[1..]), Encode(b[1..]));
        } else {
          LessExtend(q, p, Encode(b[1..]), Encode(a[1..]));
          Asymmetric(Encode(b), Encode(a));
        }
      }
    }
  }

  lemma ByteOrder(c: char, d: char)
    requires c < d < 256 as char || !(c < d)
    ensures c < d ==> Less(EncodeByte(c), EncodeByte(d))
  {
    if c < d {
      var x, y := c as nat, d as nat;
      HexDigitOrder(x / 16, y / 16);
      HexDigitOrder(x % 16, y % 16);
      var p, q := EncodeByte(c), EncodeByte(d);
      if x / 16 == y / 16 {
        assert p[1..] == [p[1]] && q[1..] == [q[1]];
      }
    }
  }

  lemma Asymmetric(a: string, b: string)
    requires Less(a, b)
    ensures !Less(b, a)
  {
    LessIrreflexive(a);
    if Less(b, a) {
      LessTransitive(a, b, a);
    }
  }

  lemma {:induction false} EncodePrefix(k: string, p: string)
    requires IsBytes(k) && IsBytes(p)
    ensures HasPrefix(Encode(k), Encode(p)) <==> HasPrefix(k, p)
  {
    if p != "" && k != "" {
      var x, y := EncodeByte(k[0]), EncodeByte(p[0]);
      assert Encode(k) == x + Encode(k[1..]) && Encode(p) == y + Encode(p[1..]);
      assert IsBytes(k[1..]) && IsBytes(p[1..]);
      SameByte(k[0], p[0]);
      assert [k[0]] + k[1..] == k && [p[0]] + p[1..] == p;
      hide *;
      EncodePrefix(k[1..], p[1..]);
      ConsPrefix(x, Encode(k[1..]), y, Encode(p[1..]));
      ConsPrefix([k[0]], k[1..], [p[0]], p[1..]);
    }
  }

  lemma SameByte(c: char, d: char)
    requires c < 256 as char && d < 256 as char
    ensures EncodeByte(c) == EncodeByte(d) <==> [c] == [d]
  {
    var x, y := EncodeByte(c), EncodeByte(d);
    if x == y {
      assert x[0] == y[0] && x[1] == y[1];
      Keys.ValueOfDigit(c as nat / 16);
      Keys.ValueOfDigit(d as nat / 16);
      Keys.ValueOfDigit(c as nat % 16);
      Keys.ValueOfDigit(d as nat % 16);
    } else {
      assert c != d;
      assert [c][0] == c && [d][0] == d;
    }
  }

  lemma ConsPrefix(a: string, s: string, b: string, t: string)
    requires |a| == |b|
    ensures HasPrefix(a + s, b + t) <==> a == b && HasPrefix(s, t)
  {
    if HasPrefix(a + s, b + t) {
      assert (a + s)[..|b + t|] == b + t;
      assert (a + s)[..|b|] == (b + t)[..|b|];
      assert (a + s)[|a|..|b + t|] == (b + t)[|b|..];
    }
    if a == b && HasPrefix(s, t) {
      assert (a + s)[..|b + t|] == a + s[..|t|];
    }
  }

  // ---- Paths ----

  function Min(a: nat, b: nat): nat {
    if a < b then a else b
  }

  /** The directory names of an encoded key. */
  function Chunks(e: string): Path {
    if e == "" then [] else [e[..Min(|e|, CHUNK)]] + Chunks(e[Min(|e|, CHUNK)..])
  }

  function Join(p: Path): string {
    if p == [] then "" else p[0] + Join(p[1..])
  }

  function PathOf(k: string): Path
    requires IsBytes(k)
  {
    Chunks(Encode(k)) + [VALUE]
  }

  lemma {:induction false} JoinChunks(e: string)
    ensures Join(Chunks(e)) == e
  {
    if e != "" {
      var n := Min(|e|, CHUNK);
      JoinChunks(e[n..]);
      assert Chunks(e)[1..] == Chunks(e[n..]) && e == e[..n] + e[n..];
    }
  }

  lemma {:induction false} JoinConcat(a: Path, b: Path)
    ensures Join(a + b) == Join(a) + Join(b)
  {
    if a == [] {
      assert a + b == b;
    } else {
      assert (a + b)[1..] == a[1..] + b;
      JoinConcat(a[1..], b);
    }
  }

  /** No two keys share a path. */
  lemma PathInjective(a: string, b: string)
    requires IsBytes(a) && IsBytes(b) && PathOf(a) == PathOf(b)
    ensures a == b
  {
    var x, y := Chunks(Encode(a)), Chunks(Encode(b));
    assert PathOf(a)[..|x|] == x && PathOf(b)[..|y|] == y;
    assert |PathOf(a)| == |x| + 1 && |PathOf(b)| == |y| + 1;
    JoinChunks(Encode(a));
    JoinChunks(Encode(b));
    DecodeEncode(a);
    DecodeEncode(b);
  }

  /** path builds the same components by cutting chunks off the front. */
  method BuildPath(key: string) returns (path: Path)
    requires IsBytes(key)
    ensures path == PathOf(key)
  {
    path := [];
    var encoded := Encode(key);
    while |encoded| > 0
      invariant Chunks(Encode(key)) == path + Chunks(encoded)
    {
      var n := Min(|encoded|, CHUNK);
      assert path + Chunks(encoded) == path + [encoded[..n]] + Chunks(encoded[n..]);
      path := path + [encoded[..n]];
      encoded := encoded[n..];
    }
    path := path + [VALUE];
  }

  predicate ValidChunk(name: string) {
    0 < |name| <= CHUNK && |name| % 2 == 0 && AllHex(name)
  }

  lemma {:induction false} ChunkAt(e: string, i: nat)
    requires ValidEnc(e) && i < |Chunks(e)|
    ensures ValidChunk(Chunks(e)[i])
    ensures i < |Chunks(e)| - 1 ==> |Chunks(e)[i]| == CHUNK
  {
    var n := Min(|e|, CHUNK);
    if i > 0 {
      assert forall j :: 0 <= j < |e| - n ==> e[n..][j] == e[j + n];
      ChunkAt(e[n..], i - 1);
    } else {
      assert forall j :: 0 <= j < n ==> e[..n][j] == e[j];
    }
  }

  // ---- The order of a directory's entries ----

  /** Appending to the larger side keeps the order; also to the smaller one unless it is a
      prefix of the larger. */
  lemma {:induction false} LessGrow(a: string, b: string, x: string, y: string)
    requires Less(a, b) && (x == "" || !HasPrefix(b, a))
    ensures Less(a + x, b + y)
  {
    assert (b + y)[0] == b[0];
    if a == "" {
      assert HasPrefix(b, a) && a + x == "";
    } else if a[0] == b[0] {
      assert (a + x)[1..] == a[1..] + x && (b + y)[1..] == b[1..] + y;
      if HasPrefix(b[1..], a[1..]) {
        PrefixCons(b, a);
      }
      LessGrow(a[1..], b[1..], x, y);
    }
  }

  /** The name, in directory dir, of the entry that leads to key k. */
  function NextName(k: string, dir: Path): string
    requires IsBytes(k) && dir <= Chunks(Encode(k))
  {
    PathOf(k)[|dir|]
  }

  /** Entries in name order lead to keys in key order. */
  lemma EntriesOrdered(dir: Path, a: string, b: string)
    requires IsBytes(a) && IsBytes(b) && dir <= Chunks(Encode(a)) && dir <= Chunks(Encode(b))
    requires Less(NextName(a, dir), NextName(b, dir))
    ensures Less(a, b)
  {
    var p, q := Chunks(Encode(a))[|dir|..], Chunks(Encode(b))[|dir|..];
    assert Chunks(Encode(a)) == dir + p && Chunks(Encode(b)) == dir + q;
    JoinConcat(dir, p);
    JoinConcat(dir, q);
    JoinChunks(Encode(a));
    JoinChunks(Encode(b));
    RestOrdered(dir, p, q, Encode(a), Encode(b));
    LessCommonPrefix(Join(dir), Join(p), Join(q));
    EncodeOrder(a, b);
  }

  lemma RestOrdered(dir: Path, p: Path, q: Path, d: string, e: string)
    requires ValidEnc(d) && ValidEnc(e) && Chunks(d) == dir + p && Chunks(e) == dir + q
    requires Less((dir + p + [VALUE])[|dir|], (dir + q + [VALUE])[|dir|])
    ensures Less(Join(p), Join(q))
  {
    if p != [] {
      ChunkAt(d, |dir|);
      assert Chunks(d)[|dir|] == p[0];
      ValueFirst(p[0]);
    }
    if q != [] {
      ChunkAt(e, |dir|);
      assert Chunks(e)[|dir|] == q[0];
      assert Join(q) == q[0] + Join(q[1..]);
      if p != [] {
        assert p[1..] == [] ==> Join(p) == p[0] + "";
        FullChunkNoPrefix(p[0], q[0]);
        LessGrow(p[0], q[0], Join(p[1..]), Join(q[1..]));
      }
    }
  }

  /** The value file comes before every directory. */
  lemma ValueFirst(c: string)
    requires ValidChunk(c)
    ensures !Less(c, VALUE)
  {
    assert Keys.ValidHexChar(c[0]);
  }

  lemma FullChunkNoPrefix(a: string, b: string)
    requires ValidChunk(a) && ValidChunk(b) && Less(a, b)
    ensures |a| == CHUNK ==> !HasPrefix(b, a)
  {
    LessIrreflexive(a);
    assert b[..|b|] == b;
  }

  // ---- The store ----

  predicate TempName(name: string) {
    HasPrefix(name, ".tmp-")
  }

  predicate GoodDir(d: Path) {
    forall i :: 0 <= i < |d| ==> ValidChunk(d[i]) && (i < |d| - 1 ==> |d[i]| == CHUNK)
  }

  /** Only directories all of whose names are full chunks can have further chunks in them. */
  predicate AllFull(d: Path) {
    forall i :: 0 <= i < |d| ==> |d[i]| == CHUNK
  }

  ghost predicate IsPathOf(p: Path, k: string) {
    IsBytes(k) && p == PathOf(k)
  }

  /** Value files are exactly the stored keys' values. */
  ghost predicate FilesOK(files: map<Path, Bytes>, stored: map<string, Bytes>) {
    && (forall k :: k in stored ==> IsBytes(k) && PathOf(k) in files && files[PathOf(k)] == stored[k])
    && (forall p :: p in files ==> exists k :: k in stored && IsPathOf(p, k))
  }

  ghost predicate HasParents(dirs: set<Path>, p: Path) {
    forall n :: 0 <= n < |p| ==> p[..n] in dirs
  }

  ghost predicate ParentsOK(dirs: set<Path>, stored: map<string, Bytes>) {
    [] in dirs && forall k :: k in stored ==> IsBytes(k) && HasParents(dirs, PathOf(k))
  }

  ghost predicate DirsOK(dirs: set<Path>, depth: nat) {
    forall d :: d in dirs ==> GoodDir(d) && |d| <= depth
  }

  ghost predicate TempsOK(temps: set<Path>) {
    forall t :: t in temps ==> t != [] && TempName(t[|t| - 1])
  }

  lemma FileFound(files: map<Path, Bytes>, stored: map<string, Bytes>, key: string)
    requires FilesOK(files, stored) && IsBytes(key)
    ensures PathOf(key) in files <==> key in stored
    ensures key in stored ==> files[PathOf(key)] == stored[key]
  {
    hide *;
    if PathOf(key) in files {
      var k := FileKey(files, stored, PathOf(key));
      PathOfKey(PathOf(key), k);
      PathInjective(key, k);
    }
    if key in stored {
      KeyFile(files, stored, key);
    }
  }

  lemma PathOfKey(p: Path, k: string)
    requires IsPathOf(p, k)
    ensures IsBytes(k) && p == PathOf(k)
  {
    hide PathOf, IsBytes;
  }

  lemma FileAdded(files: map<Path, Bytes>, stored: map<string, Bytes>, key: string, value: Bytes)
    requires FilesOK(files, stored) && IsBytes(key)
    ensures FilesOK(files[PathOf(key) := value], stored[key := value])
  {
    hide PathOf, IsBytes;
    var files2, stored2 := files[PathOf(key) := value], stored[key := value];
    forall k | k in stored2
      ensures IsBytes(k) && PathOf(k) in files2 && files2[PathOf(k)] == stored2[k]
    {
      if k != key && PathOf(k) == PathOf(key) {
        PathInjective(k, key);
      }
    }
    forall p | p in files2
      ensures exists k :: k in stored2 && IsPathOf(p, k)
    {
      if p == PathOf(key) {
        assert IsPathOf(p, key);
      } else {
        var k :| k in stored && IsPathOf(p, k);
        assert k in stored2;
      }
    }
  }

  lemma ParentsKept(dirs: set<Path>, more: set<Path>, stored: map<string, Bytes>)
    requires ParentsOK(dirs, stored) && dirs <= more
    ensures ParentsOK(more, stored)
  {
    hide PathOf, IsBytes;
    forall k | k in stored
      ensures IsBytes(k) && HasParents(more, PathOf(k))
    {
      assert HasParents(dirs, PathOf(k));
    }
  }

  lemma FileKey(files: map<Path, Bytes>, stored: map<string, Bytes>, p: Path) returns (k: string)
    requires FilesOK(files, stored) && p in files
    ensures k in stored && IsPathOf(p, k)
  {
    hide PathOf, IsBytes;
    k :| k in stored && IsPathOf(p, k);
  }

  lemma KeyFile(files: map<Path, Bytes>, stored: map<string, Bytes>, k: string)
    requires FilesOK(files, stored) && k in stored
    ensures IsBytes(k) && PathOf(k) in files && files[PathOf(k)] == stored[k]
  {
    hide PathOf, IsBytes;
  }

  lemma DirGood(dirs: set<Path>, depth: nat, d: Path)
    requires DirsOK(dirs, depth) && d in dirs
    ensures GoodDir(d) && |d| <= depth
  {
    hide GoodDir;
  }

  lemma TempGood(temps: set<Path>, t: Path)
    requires TempsOK(temps) && t in temps
    ensures t != [] && TempName(t[|t| - 1])
  {
    hide TempName;
  }

  lemma KeyParent(dirs: set<Path>, stored: map<string, Bytes>, k: string, n: nat)
    requires ParentsOK(dirs, stored) && k in stored
    ensures IsBytes(k) && (n < |PathOf(k)| ==> PathOf(k)[..n] in dirs)
  {
    hide PathOf, IsBytes;
    assert HasParents(dirs, PathOf(k));
  }

  /** What can go wrong while a value is being created. */
  datatype Fault = NoFault | BeforeLink | Crash | AfterLink

  class Disk {
    var dirs: set<Path>
    var files: map<Path, Bytes>
    var temps: set<Path>
    ghost var stored: map<string, Bytes>
    ghost var depth: nat

    /** Files are exactly the stored keys' values; directories may be empty, and unfinished
        temporary files may lie about. */
    ghost predicate Valid()
      reads this
    {
      FilesOK(files, stored) && ParentsOK(dirs, stored) && DirsOK(dirs, depth) && TempsOK(temps)
    }

    constructor ()
      ensures Valid() && stored == map[]
    {
      dirs, files, temps, stored, depth := {[]}, map[], {}, map[], 0;
    }

    method Get(key: string) returns (r: Result<Bytes>)
      requires Valid() && IsBytes(key)
      ensures r == if key in stored then Ok(stored[key]) else Err(NotFound)
    {
      hide FilesOK;
      var path := BuildPath(key);
      FileFound(files, stored, key);
      r := if path in files then Ok(files[path]) else Err(NotFound);
    }

    /** Creation never replaces. A fault before the final link leaves directories, and after
        a crash the temporary file, but stores nothing; one after it leaves the whole value. */
    method Create(key: string, value: Source, temp: string, cancelled: bool, fault: Fault) returns (err: Option<Error>)
      requires Valid() && IsBytes(key) && TempName(temp)
      modifies this
      ensures Valid()
      ensures err == if cancelled || value.size < 0 then Some(Io)
                     else if key in old(stored) then Some(Exists)
                     else if Content(value).None? || fault != NoFault then Some(Io) else None
      ensures stored == if cancelled || key in old(stored) || Content(value).None? || fault.BeforeLink? || fault.Crash?
                        then old(stored) else old(stored)[key := Content(value).value]
    {
      hide FilesOK, ParentsOK, DirsOK, PathOf, IsBytes, Chunks;
      if cancelled {
        return Some(Io);
      }
      if value.size < 0 {
        return Some(Io);
      }
      var path := BuildPath(key);
      FileFound(files, stored, key);
      if path in files {
        return Some(Exists);
      }
      DirOf(key);
      var dir := path[..|path| - 1];
      MakeDirs(key, dir);
      temps := temps + {dir + [temp]};
      if fault.Crash? {
        return Some(Io);
      }
      var content := Content(value);
      if content.None? || fault.BeforeLink? {
        temps := temps - {dir + [temp]};
        return Some(Io);
      }
      FileAdded(files, stored, key, content.value);
      ParentsAdded(dirs, stored, key, content.value);
      files := files[path := content.value];
      stored := stored[key := content.value];
      temps := temps - {dir + [temp]};
      err := if fault.AfterLink? then Some(Io) else None;
    }

    /** List: the walk from the root. */
    method List(prefix: string, limit: int) returns (r: Result<seq<string>>)
      requires Valid() && IsBytes(prefix)
      ensures r.Ok? <==> limit > 0
      ensures r.Ok? ==> FirstKeys(stored.Keys, prefix, limit, r.value)
    {
      if limit <= 0 {
        return Err(InvalidRange);
      }
      assert ParentsOK(dirs, stored);
      BelowRoot(dirs, stored);
      r := Walk([], "", true, prefix, Encode(prefix), limit, []);
      assert r.value[0..] == r.value;
      hide FirstKeys;
    }

    /** Visits the entries of one directory in order until limit keys are found. */
    method Walk(dir: Path, encoded: string, descend: bool, ghost prefix: string, encodedPrefix: string, limit: nat, found: seq<string>)
      returns (r: Result<seq<string>>)
      requires Valid() && dir in dirs && encoded == Join(dir) && descend == AllFull(dir)
      requires IsBytes(prefix) && encodedPrefix == Encode(prefix) && |found| < limit
      ensures r.Ok? && Adds(Below(stored, dir), prefix, limit, found, r.value)
      decreases depth - |dir|, 1
    {
      DirGood(dirs, depth, dir);
      ValidParts();
      hide *;
      var all := dirs + files.Keys + temps;
      var names := SortNames(NamesIn(dir, all));
      var keys := found;
      AddsNone(stored, dir, names, prefix, limit, found);
      for i := 0 to |names|
        invariant |keys| < limit && Adds(Visited(stored, dir, names[..i]), prefix, limit, found, keys)
      {
        EntryIs(dir, all, names[i]);
        var step := VisitEntry(dir, encoded, descend, prefix, encodedPrefix, limit, keys, names[i]);
        AddsStep(stored, dir, names, i, prefix, limit, found, keys, step.value);
        keys := step.value;
        if |keys| == limit {
          AddsRest(stored, dir, names, i + 1, prefix, limit, found, keys);
          EntriesComplete(dirs, files, temps, stored, dir, names);
          return Ok(keys);
        }
      }
      assert names[..|names|] == names;
      EntriesComplete(dirs, files, temps, stored, dir, names);
      r := Ok(keys);
    }

    lemma ValidParts()
      requires Valid()
      ensures FilesOK(files, stored) && ParentsOK(dirs, stored) && DirsOK(dirs, depth) && TempsOK(temps)
    {
      hide FilesOK, ParentsOK, DirsOK, TempsOK;
    }

    /** The body of the walk's loop: the value file, a subdirectory, or something to ignore. */
    method VisitEntry(dir: Path, encoded: string, descend: bool, ghost prefix: string, encodedPrefix: string, limit: nat, keys: seq<string>, name: string)
      returns (r: Result<seq<string>>)
      requires Valid() && dir in dirs && encoded == Join(dir) && descend == AllFull(dir) && |dir| <= depth
      requires IsBytes(prefix) && encodedPrefix == Encode(prefix) && |keys| < limit
      requires dir + [name] in dirs + files.Keys + temps
      ensures r.Ok? && Adds(Through(stored, dir, name), prefix, limit, keys, r.value)
      decreases depth - |dir|, 0
    {
      ValidParts();
      hide *;
      if name == VALUE && HasPrefix(encoded, encodedPrefix) {
        ghost var k := ValueEntry(dirs, files, temps, stored, depth, dir);
        if dir + [name] !in files {
          return Err(Io);
        }
        EncodePrefix(k, prefix);
        AddsOne(k, prefix, limit, keys);
        r := Ok(keys + [Decode(encoded)]);
      } else if descend && ValidChunk(name) {
        var next := encoded + name;
        ChunkEntry(dirs, files, temps, stored, depth, dir, name);
        if !HasPrefix(next, encodedPrefix) && !HasPrefix(encodedPrefix, next) {
          PrunedEmpty(stored, dir + [name], prefix);
          AddsNothing(Through(stored, dir, name), prefix, limit, keys);
          return Ok(keys);
        }
        if dir + [name] !in dirs {
          return Err(Io);
        }
        r := Walk(dir + [name], next, |name| == CHUNK, prefix, encodedPrefix, limit, keys);
      } else {
        OtherEntry(stored, dir, name, prefix, encodedPrefix);
        AddsNothing(Through(stored, dir, name), prefix, limit, keys);
        r := Ok(keys);
      }
    }

    /** os.MkdirAll. */
    method MakeDirs(key: string, dir: Path)
      requires IsBytes(key) && dir == Chunks(Encode(key)) && DirsOK(dirs, depth) && ParentsOK(dirs, stored)
      modifies this`dirs, this`depth
      ensures DirsOK(dirs, depth) && ParentsOK(dirs, stored) && HasParents(dirs, PathOf(key))
    {
      hide ParentsOK, GoodDir, IsBytes, Encode, Chunks;
      var n, before := |dir|, dirs;
      DirsDeeper(dirs, depth, n);
      depth := if n > depth then n else depth;
      for i := 0 to n + 1
        invariant before <= dirs && n <= depth && DirsOK(dirs, depth)
        invariant forall m :: 0 <= m < i ==> dir[..m] in dirs
      {
        PartGood(Encode(key), i);
        dirs := dirs + {dir[..i]};
      }
      ParentsKept(before, dirs, stored);
      AllParents(dirs, key);
    }
  }

  lemma DirOf(key: string)
    requires IsBytes(key)
    ensures PathOf(key) != [] && PathOf(key)[..|PathOf(key)| - 1] == Chunks(Encode(key))
  {
  }

  lemma DirsDeeper(dirs: set<Path>, depth: nat, n: nat)
    requires DirsOK(dirs, depth)
    ensures DirsOK(dirs, if n > depth then n else depth)
  {
    hide GoodDir;
  }

  lemma AllParents(dirs: set<Path>, key: string)
    requires IsBytes(key)
    requires forall n :: 0 <= n <= |Chunks(Encode(key))| ==> Chunks(Encode(key))[..n] in dirs
    ensures HasParents(dirs, PathOf(key))
  {
    var d, p := Chunks(Encode(key)), PathOf(key);
    forall n | 0 <= n < |p|
      ensures p[..n] in dirs
    {
      assert p[..n] == d[..n];
    }
  }

  lemma ParentsAdded(dirs: set<Path>, stored: map<string, Bytes>, key: string, value: Bytes)
    requires ParentsOK(dirs, stored) && IsBytes(key) && HasParents(dirs, PathOf(key))
    ensures ParentsOK(dirs, stored[key := value])
  {
    hide HasParents, PathOf, IsBytes;
  }

  lemma PartGood(e: string, n: nat)
    requires ValidEnc(e) && n <= |Chunks(e)|
    ensures GoodDir(Chunks(e)[..n])
  {
    forall i | 0 <= i < n
      ensures ValidChunk(Chunks(e)[i]) && (i < n - 1 ==> |Chunks(e)[i]| == CHUNK)
    {
      ChunkAt(e, i);
    }
  }

  // ---- Listing ----

  /** The name of an entry of a directory. */
  predicate Entry(d: Path, all: set<Path>, name: string) {
    d + [name] in all
  }

  /** The names of the last components of paths directly below a directory. */
  function NamesIn(dir: Path, all: set<Path>): (names: set<string>)
    ensures forall name :: name in names <==> Entry(dir, all, name)
  {
    var names := set p | p in all && |p| == |dir| + 1 && p[..|dir|] == dir :: p[|dir|];
    assert forall name :: Entry(dir, all, name) ==> (dir + [name])[..|dir|] == dir && (dir + [name])[|dir|] == name;
    assert forall p :: p in all && |p| == |dir| + 1 && p[..|dir|] == dir ==> p == dir + [p[|dir|]];
    names
  }

  /** os.ReadDir: the names in order. */
  method SortNames(names: set<string>) returns (sorted: seq<string>)
    ensures Sorted(sorted) && forall n :: n in sorted <==> n in names
  {
    sorted := [];
    var rest := names;
    while rest != {}
      invariant Sorted(sorted) && rest <= names
      invariant forall n :: n in sorted <==> n in names && n !in rest
      decreases rest
    {
      var x :| x in rest;
      var i := MemStore.Search(sorted, x);
      MemStore.InsertSorted(sorted, i, x);
      ghost var was := sorted;
      sorted := sorted[..i] + [x] + sorted[i..];
      assert was == was[..i] + was[i..];
      rest := rest - {x};
    }
  }

  /** The stored keys whose paths go through a directory, and through one of its entries. */
  ghost function Below(stored: map<string, Bytes>, dir: Path): set<string> {
    set k | k in stored && IsBytes(k) && dir <= Chunks(Encode(k))
  }

  ghost function Through(stored: map<string, Bytes>, dir: Path, name: string): set<string> {
    set k | k in Below(stored, dir) && NextName(k, dir) == name
  }

  ghost function Visited(stored: map<string, Bytes>, dir: Path, names: seq<string>): set<string> {
    set k | k in Below(stored, dir) && NextName(k, dir) in names
  }

  lemma VisitedNext(stored: map<string, Bytes>, dir: Path, names: seq<string>, i: nat)
    requires Sorted(names) && i < |names|
    ensures Visited(stored, dir, names[..i + 1]) == Visited(stored, dir, names[..i]) + Through(stored, dir, names[i])
    ensures forall x, y :: x in Visited(stored, dir, names[..i]) && y in Through(stored, dir, names[i]) ==> Less(x, y)
  {
    hide NextName, Chunks, Encode, IsBytes;
    assert names[..i + 1] == names[..i] + [names[i]];
    forall x, y | x in Visited(stored, dir, names[..i]) && y in Through(stored, dir, names[i])
      ensures Less(x, y)
    {
      var j :| 0 <= j < i && NextName(x, dir) == names[..i][j];
      EntriesOrdered(dir, x, y);
    }
  }

  /** The value entry leads to the directory's own key, every other entry to those below it. */
  lemma ThroughValue(stored: map<string, Bytes>, dir: Path, k: string)
    requires k in Through(stored, dir, VALUE)
    ensures IsBytes(k) && Chunks(Encode(k)) == dir && Encode(k) == Join(dir)
  {
    var p := Chunks(Encode(k));
    if |dir| < |p| {
      ChunkAt(Encode(k), |dir|);
      ChunkNotValue(p[|dir|]);
    }
    assert p[..|dir|] == dir;
    JoinChunks(Encode(k));
  }

  lemma ChunkNotValue(name: string)
    requires ValidChunk(name)
    ensures name != VALUE
  {
  }

  lemma ThroughChunk(stored: map<string, Bytes>, dir: Path, name: string)
    requires name != VALUE
    ensures Through(stored, dir, name) == Below(stored, dir + [name])
  {
    forall k | k in stored && IsBytes(k)
      ensures dir <= Chunks(Encode(k)) && NextName(k, dir) == name <==> dir + [name] <= Chunks(Encode(k))
    {
      var p := Chunks(Encode(k));
      if dir + [name] <= p {
        assert p[..|dir|] == (dir + [name])[..|dir|] == dir;
        assert p[|dir|] == name;
      }
      if dir <= p && NextName(k, dir) == name {
        assert |p| > |dir| && p[|dir|] == name;
        assert p[..|dir| + 1] == dir + [name];
      }
    }
  }

  /** Entries that are neither the value nor a chunk of a full directory lead to no key. */
  lemma ThroughNothing(stored: map<string, Bytes>, dir: Path, name: string)
    requires name != VALUE && (!ValidChunk(name) || !AllFull(dir))
    ensures Through(stored, dir, name) == {}
  {
    forall k | k in stored && IsBytes(k) && dir <= Chunks(Encode(k))
      ensures NextName(k, dir) != name
    {
      var p := Chunks(Encode(k));
      if |dir| < |p| {
        ChunkAt(Encode(k), |dir|);
        forall i | 0 <= i < |dir|
          ensures |dir[i]| == CHUNK
        {
          ChunkAt(Encode(k), i);
        }
      }
    }
  }

  /** A subtree whose encoded prefix and the wanted one do not overlap has no match. */
  lemma PrunedEmpty(stored: map<string, Bytes>, dir: Path, prefix: string)
    requires IsBytes(prefix) && !HasPrefix(Join(dir), Encode(prefix)) && !HasPrefix(Encode(prefix), Join(dir))
    ensures forall k :: k in Below(stored, dir) ==> !HasPrefix(k, prefix)
  {
    hide Chunks, Encode, IsBytes, Join;
    forall k | k in Below(stored, dir)
      ensures !HasPrefix(k, prefix)
    {
      BelowPrefix(k, dir);
      EncodePrefix(k, prefix);
      PrefixesOverlap(Encode(k), Join(dir), Encode(prefix));
    }
  }

  lemma BelowPrefix(k: string, dir: Path)
    requires IsBytes(k) && dir <= Chunks(Encode(k))
    ensures HasPrefix(Encode(k), Join(dir))
  {
    var p := Chunks(Encode(k));
    assert p == dir + p[|dir|..];
    JoinConcat(dir, p[|dir|..]);
    JoinChunks(Encode(k));
  }

  lemma PrefixesOverlap(s: string, a: string, b: string)
    ensures HasPrefix(s, a) && HasPrefix(s, b) ==> HasPrefix(a, b) || HasPrefix(b, a)
  {
    if HasPrefix(s, a) && HasPrefix(s, b) {
      if |a| <= |b| {
        assert b[..|a|] == s[..|b|][..|a|] == s[..|a|];
      } else {
        assert a[..|b|] == s[..|a|][..|b|] == s[..|b|];
      }
    }
  }

  /** after continues before with the first of these keys that have the prefix, up to the
      limit for both together. */
  ghost predicate Adds(keys: set<string>, prefix: string, limit: nat, before: seq<string>, after: seq<string>) {
    before <= after && |before| <= limit && FirstKeys(keys, prefix, limit - |before|, after[|before|..])
  }

  lemma AddsNothing(keys: set<string>, prefix: string, limit: nat, before: seq<string>)
    requires |before| <= limit && forall k :: k in keys ==> !HasPrefix(k, prefix)
    ensures Adds(keys, prefix, limit, before, before)
  {
    assert before[|before|..] == [];
  }

  lemma AddsOne(k: string, prefix: string, limit: nat, before: seq<string>)
    requires HasPrefix(k, prefix) && |before| < limit
    ensures Adds({k}, prefix, limit, before, before + [k])
  {
    var keys := [k];
    assert forall x :: x in keys ==> x == k;
    assert (before + keys)[|before|..] == keys;
  }

  lemma BelowRoot(dirs: set<Path>, stored: map<string, Bytes>)
    requires ParentsOK(dirs, stored)
    ensures [] in dirs && Below(stored, []) == stored.Keys && Join([]) == "" && AllFull([])
  {
    forall k | k in stored
      ensures IsBytes(k) && [] <= Chunks(Encode(k))
    {
    }
  }

  lemma AddsNone(stored: map<string, Bytes>, dir: Path, names: seq<string>, prefix: string, limit: nat, found: seq<string>)
    requires |found| <= limit
    ensures Adds(Visited(stored, dir, names[..0]), prefix, limit, found, found)
  {
    assert found[|found|..] == [];
  }

  /** One more entry: its keys come after all those before it. */
  lemma AddsStep(stored: map<string, Bytes>, dir: Path, names: seq<string>, i: nat, prefix: string, limit: nat,
                 found: seq<string>, keys: seq<string>, more: seq<string>)
    requires Sorted(names) && i < |names|
    requires Adds(Visited(stored, dir, names[..i]), prefix, limit, found, keys)
    requires Adds(Through(stored, dir, names[i]), prefix, limit, keys, more)
    ensures Adds(Visited(stored, dir, names[..i + 1]), prefix, limit, found, more) && |more| <= limit
  {
    VisitedNext(stored, dir, names, i);
    hide Visited, Through, FirstKeys;
    AtMost(Through(stored, dir, names[i]), prefix, limit - |keys|, more[|keys|..]);
    assert more[|found|..] == keys[|found|..] + more[|keys|..];
    FirstKeysAppend(Visited(stored, dir, names[..i]), Through(stored, dir, names[i]), prefix, limit - |found|,
                    keys[|found|..], more[|keys|..]);
  }

  lemma AtMost(keys: set<string>, prefix: string, limit: nat, found: seq<string>)
    requires FirstKeys(keys, prefix, limit, found)
    ensures |found| <= limit
  {
  }

  /** Once the limit is reached the remaining entries add nothing. */
  lemma {:induction false} AddsRest(stored: map<string, Bytes>, dir: Path, names: seq<string>, i: nat, prefix: string, limit: nat,
                                    found: seq<string>, keys: seq<string>)
    requires Sorted(names) && i <= |names| && |keys| == limit
    requires Adds(Visited(stored, dir, names[..i]), prefix, limit, found, keys)
    ensures Adds(Visited(stored, dir, names), prefix, limit, found, keys)
    decreases |names| - i
  {
    hide *;
    if i < |names| {
      AddsFull(Through(stored, dir, names[i]), prefix, limit, keys);
      AddsStep(stored, dir, names, i, prefix, limit, found, keys, keys);
      AddsRest(stored, dir, names, i + 1, prefix, limit, found, keys);
    } else {
      assert names[..i] == names;
    }
  }

  lemma AddsFull(all: set<string>, prefix: string, limit: nat, keys: seq<string>)
    requires |keys| == limit
    ensures Adds(all, prefix, limit, keys, keys)
  {
    assert keys[|keys|..] == [];
    NoRoom(all, prefix);
    hide FirstKeys;
  }

  lemma NoRoom(keys: set<string>, prefix: string)
    ensures FirstKeys(keys, prefix, 0, [])
  {
  }

  /** Every key below a directory is reached through one of its entries. */
  lemma EntriesComplete(dirs: set<Path>, files: map<Path, Bytes>, temps: set<Path>, stored: map<string, Bytes>, dir: Path, names: seq<string>)
    requires FilesOK(files, stored) && ParentsOK(dirs, stored)
    requires forall n :: n in names <==> n in NamesIn(dir, dirs + files.Keys + temps)
    ensures Visited(stored, dir, names) == Below(stored, dir)
  {
    hide FilesOK, ParentsOK, NamesIn, Entry, Chunks, Encode, IsBytes;
    var all := dirs + files.Keys + temps;
    forall k | k in Below(stored, dir)
      ensures NextName(k, dir) in names
    {
      KeyFile(files, stored, k);
      KeyParent(dirs, stored, k, |dir| + 1);
      var p := PathOf(k);
      assert p == Chunks(Encode(k)) + [VALUE];
      assert p[..|dir| + 1] == dir + [p[|dir|]];
      if |dir| + 1 == |p| {
        assert p[..|dir| + 1] == p;
      }
      assert dir + [p[|dir|]] in all;
      EntryIs(dir, all, p[|dir|]);
    }
  }

  lemma EntryIs(dir: Path, all: set<Path>, name: string)
    ensures name in NamesIn(dir, all) <==> dir + [name] in all
  {
    hide NamesIn;
    assert name in NamesIn(dir, all) <==> Entry(dir, all, name);
  }

  /** A value entry is the file of the directory's own key. */
  lemma ValueEntry(dirs: set<Path>, files: map<Path, Bytes>, temps: set<Path>, stored: map<string, Bytes>, depth: nat, dir: Path) returns (k: string)
    requires FilesOK(files, stored) && DirsOK(dirs, depth) && TempsOK(temps)
    requires dir + [VALUE] in dirs + files.Keys + temps
    ensures dir + [VALUE] in files && ValidEnc(Join(dir)) && IsBytes(k)
    ensures Decode(Join(dir)) == k && Encode(k) == Join(dir) && Through(stored, dir, VALUE) == {k}
  {
    hide FilesOK, DirsOK, TempsOK, Chunks, Encode, Decode, Join, IsBytes, Through;
    var p := dir + [VALUE];
    LastOf(dir, VALUE);
    if p in dirs {
      DirGood(dirs, depth, p);
      ChunkNotValue(p[|dir|]);
    } else if p in temps {
      TempGood(temps, p);
      ValueNotTemp(VALUE);
    }
    k := FileKey(files, stored, p);
    PathEnds(k, dir);
    DecodeEncode(k);
    OneThrough(stored, dir, k);
  }

  lemma LastOf(dir: Path, name: string)
    ensures (dir + [name])[|dir|] == name && |dir + [name]| == |dir| + 1 && (dir + [name])[..|dir|] == dir
  {
  }

  lemma ValueNotTemp(name: string)
    ensures TempName(name) ==> name != VALUE
  {
  }

  lemma PathEnds(k: string, dir: Path)
    requires IsPathOf(dir + [VALUE], k)
    ensures Chunks(Encode(k)) == dir && Join(dir) == Encode(k)
  {
    hide Chunks, Encode, Join, IsBytes;
    LastOf(dir, VALUE);
    LastOf(Chunks(Encode(k)), VALUE);
    JoinChunks(Encode(k));
  }

  lemma OneThrough(stored: map<string, Bytes>, dir: Path, k: string)
    requires k in stored && IsBytes(k) && Chunks(Encode(k)) == dir && Decode(Encode(k)) == k && Join(dir) == Encode(k)
    ensures Through(stored, dir, VALUE) == {k}
  {
    LastOf(dir, VALUE);
    assert k in Through(stored, dir, VALUE);
    hide Through, Encode, Decode, Chunks, Join, IsBytes;
    forall x | x in Through(stored, dir, VALUE)
      ensures x == k
    {
      ThroughValue(stored, dir, x);
      DecodeEncode(x);
    }
  }

  /** A chunk entry is a directory, full exactly when its name has 128 characters. */
  lemma ChunkEntry(dirs: set<Path>, files: map<Path, Bytes>, temps: set<Path>, stored: map<string, Bytes>, depth: nat, dir: Path, name: string)
    requires FilesOK(files, stored) && DirsOK(dirs, depth) && TempsOK(temps)
    requires dir + [name] in dirs + files.Keys + temps && ValidChunk(name) && AllFull(dir)
    ensures dir + [name] in dirs && |dir + [name]| <= depth
    ensures Join(dir + [name]) == Join(dir) + name && AllFull(dir + [name]) == (|name| == CHUNK)
    ensures Through(stored, dir, name) == Below(stored, dir + [name])
  {
    hide *;
    var p := dir + [name];
    LastOf(dir, name);
    ChunkNotValue(name);
    ChunkNotTemp(name);
    if p in files {
      var k := FileKey(files, stored, p);
      PathLast(p, k);
    } else if p in temps {
      TempGood(temps, p);
    } else {
      DirGood(dirs, depth, p);
    }
    JoinLast(dir, name);
    FullStep(dir, name);
    ThroughChunk(stored, dir, name);
  }

  lemma PathLast(p: Path, k: string)
    requires IsPathOf(p, k)
    ensures p != [] && p[|p| - 1] == VALUE
  {
    hide Chunks, Encode, IsBytes;
  }

  lemma JoinLast(dir: Path, name: string)
    ensures Join(dir + [name]) == Join(dir) + name
  {
    JoinConcat(dir, [name]);
    assert Join([name]) == name + "";
  }

  lemma ChunkNotTemp(name: string)
    requires ValidChunk(name)
    ensures !TempName(name)
  {
    assert Keys.ValidHexChar(name[0]);
    assert |name| >= 5 ==> name[..5][0] == name[0];
  }

  lemma FullStep(dir: Path, name: string)
    requires AllFull(dir)
    ensures AllFull(dir + [name]) == (|name| == CHUNK)
  {
    var p := dir + [name];
    assert p[|dir|] == name;
    assert forall i :: 0 <= i < |dir| ==> p[i] == dir[i];
  }

  /** Entries the walk passes over lead to no key with the prefix. */
  lemma OtherEntry(stored: map<string, Bytes>, dir: Path, name: string, prefix: string, encodedPrefix: string)
    requires IsBytes(prefix) && encodedPrefix == Encode(prefix)
    requires !(name == VALUE && HasPrefix(Join(dir), encodedPrefix)) && !(AllFull(dir) && ValidChunk(name))
    ensures forall k :: k in Through(stored, dir, name) ==> !HasPrefix(k, prefix)
  {
    if name == VALUE {
      forall k | k in Through(stored, dir, VALUE)
        ensures !HasPrefix(k, prefix)
      {
        ThroughValue(stored, dir, k);
        EncodePrefix(k, prefix);
      }
    } else {
      ThroughNothing(stored, dir, name);
    }
  }
}
