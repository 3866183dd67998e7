/**
 The caching store: reads that miss fill the cache from a scratch copy, best effort. Other
 users of the two stores may act between any two calls; they too never change a value once
 it is there and never cache what the origin does not hold.
 */
module CacheStore {
  import opened Wrappers

  type Objects = map<string, Bytes>

  /** The cache is a part of the origin. */
  ghost predicate Coherent(origin: Objects, cache: Objects) {
    forall k :: k in cache ==> k in origin && cache[k] == origin[k]
  }

  /** Values are immutable once created. */
  ghost predicate Extends(before: Objects, after: Objects) {
    forall k :: k in before ==> k in after && after[k] == before[k]
  }

  /** How one attempt to create an object ends: reported success, reported failure without
      effect, or reported failure although the object is now there. */
  datatype Outcome = Succeeds | FailsClean | FailsStored

  /** What a read of the origin's body reports besides its bytes. */
  datatype End = More | Eof | Broken

  class Store {
    var origin: Objects
    var cache: Objects

    ghost predicate Valid()
      reads this
    {
      Coherent(origin, cache)
    }

    constructor ()
      ensures Valid() && origin == map[] && cache == map[]
    {
      origin, cache := map[], map[];
    }

    /** A best-effort cache create with bytes the origin holds. */
    method Fill(key: string, value: Bytes, outcome: Outcome)
      requires Valid() && key in origin && origin[key] == value
      modifies this`cache
      ensures Valid() && Extends(old(cache), cache)
      ensures cache == if key in old(cache) || outcome.FailsClean? then old(cache) else old(cache)[key := value]
    {
      if key !in cache && !outcome.FailsClean? {
        cache := cache[key := value];
      }
    }

    /** Origin first. Bytes are cached only after the origin has reported success, so an
        attempt that lost, or that may have lost, leaves no trace in the cache. */
    method Create(key: string, value: Bytes, outcome: Outcome, fill: Outcome) returns (err: Option<Error>)
      requires Valid()
      modifies this
      ensures Valid() && Extends(old(origin), origin) && Extends(old(cache), cache)
      ensures err == if key in old(origin) then Some(Exists) else if outcome.Succeeds? then None else Some(Io)
      ensures origin == if key in old(origin) || outcome.FailsClean? then old(origin) else old(origin)[key := value]
      ensures cache == if err.Some? || fill.FailsClean? then old(cache) else old(cache)[key := value]
    {
      if key in origin {
        return Some(Exists);
      }
      if !outcome.FailsClean? {
        origin := origin[key := value];
      }
      if !outcome.Succeeds? {
        return Some(Io);
      }
      Fill(key, value, fill);
      err := None;
    }

    /** A hit streams the cache's copy; a miss, or a cache error, streams the origin's through
        a reader that may fill the cache. */
    method Get(key: string, cancelled: bool, cacheFails: bool, originFails: bool, scratch: bool) returns (r: Result<Body>)
      requires Valid()
      ensures r.Ok? ==>
                key in origin &&
                match r.value
                case Hit(cached) => fresh(cached) && cached.store == this && cached.key == key && cached.Valid() && cached.delivered == []
                case Miss(filler) => fresh(filler) && filler.store == this && filler.key == key && filler.Opened(scratch)
      ensures !cancelled && !cacheFails && key in cache ==> r.Ok? && r.value.Hit?
      ensures r.Ok? && r.value.Hit? ==> key in cache
      ensures !cancelled && !originFails && key in origin ==> r.Ok?
      ensures !cancelled && !originFails && key !in origin ==> r == Err(NotFound)
      ensures key !in origin ==> r.Err?
      ensures cancelled ==> r == Err(Io)
      ensures originFails && (cacheFails || key !in cache) ==> r == Err(Io)
    {
      if cancelled {
        return Err(Io);
      }
      if key in cache && !cacheFails {
        var cached := new CacheReader(this, key);
        return Ok(Hit(cached));
      }
      if originFails {
        return Err(Io);
      }
      if key !in origin {
        return Err(NotFound);
      }
      var filler := new FillReader(this, key, scratch);
      r := Ok(Miss(filler));
    }
  }

  datatype Body = Hit(cached: CacheReader) | Miss(filler: FillReader)

  /** What a reader has passed on and what its body still holds make up the origin's object. */
  ghost predicate Streaming(origin: Objects, key: string, delivered: Bytes, rest: Bytes) {
    key in origin && delivered + rest == origin[key]
  }

  /** Passing bytes on moves them from one side to the other. */
  lemma Passed(delivered: Bytes, rest: Bytes, n: nat)
    requires n <= |rest|
    ensures (delivered + rest[..n]) + rest[n..] == delivered + rest
    ensures n == |rest| ==> delivered + rest[..n] == delivered + rest && rest[n..] == []
    ensures n == 0 ==> delivered + rest[..n] == delivered
  {
  }

  /** The stream of a hit. Its errors go to the caller: it cannot switch to the origin midway. */
  class CacheReader {
    const store: Store
    const key: string
    var rest: Bytes
    ghost var delivered: Bytes

    ghost predicate Valid()
      reads this, store
    {
      Streaming(store.origin, key, delivered, rest)
    }

    constructor (store: Store, key: string)
      requires store.Valid() && key in store.cache
      ensures Valid() && this.store == store && this.key == key && delivered == []
    {
      this.store, this.key := store, key;
      rest, delivered := store.cache[key], [];
    }

    method Read(n: nat, end: End) returns (bytes: Bytes, err: Option<Error>, atEnd: bool)
      requires Valid() && n <= |rest| && (end.Eof? ==> n == |rest|)
      modifies this
      ensures Valid() && bytes == old(rest)[..n] && delivered == old(delivered) + bytes
      ensures (err.Some? <==> end.Broken?) && (atEnd <==> end.Eof?)
      ensures atEnd ==> delivered == store.origin[key]
    {
      bytes := rest[..n];
      Passed(delivered, rest, n);
      rest := rest[n..];
      delivered := delivered + bytes;
      err := if end.Broken? then Some(Io) else None;
      atEnd := end.Eof?;
    }

    method Close(closeFails: bool) returns (err: Option<Error>)
      ensures err == if closeFails then Some(Io) else None
    {
      err := if closeFails then Some(Io) else None;
    }
  }

  /** A fill reader's bookkeeping: a live spool is exactly what has been passed on. */
  ghost predicate Spooling(origin: Objects, key: string, delivered: Bytes, rest: Bytes, tmp: Option<Bytes>, eof: bool) {
    && Streaming(origin, key, delivered, rest)
    && (tmp.Some? ==> tmp.value == delivered)
    && (eof ==> rest == [])
  }

  /** What other users of the stores do cannot disturb it. */
  lemma SpoolingStable(origin: Objects, after: Objects, key: string, delivered: Bytes, rest: Bytes, tmp: Option<Bytes>, eof: bool)
    requires Spooling(origin, key, delivered, rest, tmp, eof) && Extends(origin, after)
    ensures Spooling(after, key, delivered, rest, tmp, eof)
  {
    assert after[key] == origin[key];
  }

  /** A complete spool holds exactly the origin's object. */
  lemma CompleteSpool(origin: Objects, key: string, delivered: Bytes, rest: Bytes, tmp: Option<Bytes>)
    requires Spooling(origin, key, delivered, rest, tmp, true) && tmp.Some?
    ensures tmp.value == origin[key]
  {
    assert delivered + [] == delivered;
  }

  class FillReader {
    const store: Store
    const key: string
    var rest: Bytes
    var tmp: Option<Bytes>
    var eof: bool
    var closed: bool
    var closeErr: Option<Error>
    ghost var delivered: Bytes

    ghost predicate Valid()
      reads this, store
    {
      Spooling(store.origin, key, delivered, rest, tmp, eof)
    }

    /** Nothing has been read. What will be read is spooled if there is a scratch file. */
    ghost predicate Opened(scratch: bool)
      reads this, store
    {
      && Valid() && delivered == [] && rest == store.origin[key]
      && tmp == (if scratch then Some([]) else None) && !eof && !closed
    }

    constructor (store: Store, key: string, scratch: bool)
      requires key in store.origin
      ensures Opened(scratch) && this.store == store && this.key == key
    {
      this.store, this.key := store, key;
      rest, tmp, eof := store.origin[key], if scratch then Some([]) else None, false;
      closed, closeErr, delivered := false, None, [];
    }

    method Discard()
      modifies this`tmp
      ensures tmp == None
    {
      tmp := None;
    }

    /** One Read that gets n bytes from the origin. EOF is reported only at the end. */
    method Read(n: nat, end: End, cancelled: bool, writeFails: bool) returns (bytes: Bytes, err: Option<Error>, atEnd: bool)
      requires Valid() && n <= |rest| && (end.Eof? ==> n == |rest|)
      modifies this
      ensures Valid() && closed == old(closed)
      ensures |bytes| <= |old(rest)| && rest == old(rest)[|bytes|..]
      ensures delivered == old(delivered) + bytes
      ensures atEnd ==> delivered == store.origin[key]
      ensures old(closed) ==> bytes == [] && err.Some? && tmp == old(tmp) && eof == old(eof)
      ensures !old(closed) ==>
                bytes == (if cancelled then [] else old(rest)[..n]) &&
                (err.Some? <==> cancelled || end.Broken?) && (atEnd <==> !cancelled && end.Eof?) &&
                eof == (old(eof) || atEnd) &&
                tmp == (if old(tmp).None? || err.Some? || (writeFails && n > 0) then None else Some(old(tmp).value + bytes))
    {
      if closed {
        return [], Some(Io), false;
      }
      if cancelled {
        Discard();
        return [], Some(Io), false;
      }
      bytes := rest[..n];
      Passed(delivered, rest, n);
      rest := rest[n..];
      delivered := delivered + bytes;
      if tmp.Some? && n > 0 {
        if writeFails {
          Discard();
        } else {
          tmp := Some(tmp.value + bytes);
        }
      }
      if end.Eof? {
        eof := true;
      } else if end.Broken? {
        Discard();
      }
      err := if end.Broken? then Some(Io) else None;
      atEnd := end.Eof?;
    }

    /** Closing after a complete read without errors fills the cache with what was read. */
    method Close(closeFails: bool, cancelled: bool, fill: Outcome) returns (err: Option<Error>)
      requires Valid() && store.Valid()
      modifies this, store`cache
      ensures Valid() && store.Valid() && Extends(old(store.cache), store.cache)
      ensures closed && (tmp == None || old(closed)) && closeErr == err
      ensures err == if old(closed) then old(closeErr) else if closeFails then Some(Io) else None
      ensures store.cache ==
              if old(closed) || old(tmp).None? || !old(eof) || closeFails || cancelled || fill.FailsClean? || key in old(store.cache)
              then old(store.cache) else old(store.cache)[key := store.origin[key]]
    {
      if closed {
        return closeErr;
      }
      closed := true;
      closeErr := if closeFails then Some(Io) else None;
      if tmp.Some? && eof && closeErr.None? && !cancelled {
        CompleteSpool(store.origin, key, delivered, rest, tmp);
        store.Fill(key, tmp.value, fill);
      }
      Discard();
      err := closeErr;
    }
  }

  // ---- A whole read ----

  /** One call of Read: how much is asked for, whether the end of the stream may be reported
      together with the last bytes, and what goes wrong. */
  datatype Turn = Turn(n: nat, early: bool, cancelled: bool, broken: bool, writeFails: bool)

  predicate Unbroken(turns: seq<Turn>) {
    forall t :: t in turns ==> !t.cancelled && !t.broken
  }

  predicate Calm(turns: seq<Turn>) {
    Unbroken(turns) && forall t :: t in turns ==> !t.writeFails
  }

  /** Reading a body to its end in pieces of any size: what has been read, and an error if
      it did not get there. */
  method Drain(filler: FillReader, turns: seq<Turn>) returns (bytes: Bytes, err: Option<Error>)
    requires filler.Valid() && !filler.closed && filler.delivered == []
    modifies filler
    ensures filler.Valid() && !filler.closed && bytes == filler.delivered
    ensures err.None? ==> bytes == filler.store.origin[filler.key] && filler.eof
    ensures Unbroken(turns) ==> err.None?
    ensures Calm(turns) && old(filler.tmp).Some? ==> filler.tmp.Some?
    ensures old(filler.tmp).None? ==> filler.tmp.None?
  {
    bytes := [];
    var i := 0;
    var done := false;
    while !done
      invariant 0 <= i <= |turns| && filler.Valid() && !filler.closed && bytes == filler.delivered
      invariant done ==> bytes == filler.store.origin[filler.key] && filler.eof
      invariant Calm(turns) && old(filler.tmp).Some? ==> filler.tmp.Some?
      invariant old(filler.tmp).None? ==> filler.tmp.None?
      decreases |turns| - i, !done
    {
      var t := if i < |turns| then turns[i] else Turn(|filler.rest|, true, false, false, false);
      assert i < |turns| ==> t in turns;
      var n := if t.n < |filler.rest| then t.n else |filler.rest|;
      var end := if t.broken then Broken else if n == |filler.rest| && (t.early || n == 0) then Eof else More;
      var part;
      part, err, done := filler.Read(n, end, t.cancelled, t.writeFails);
      bytes := bytes + part;
      if err.Some? {
        return;
      }
      if i < |turns| {
        i := i + 1;
      }
    }
    err := None;
  }

  method DrainCached(cached: CacheReader, turns: seq<Turn>) returns (bytes: Bytes, err: Option<Error>)
    requires cached.Valid() && cached.delivered == []
    modifies cached
    ensures cached.Valid() && bytes == cached.delivered
    ensures err.None? ==> bytes == cached.store.origin[cached.key]
    ensures (forall t :: t in turns ==> !t.broken) ==> err.None?
  {
    bytes := [];
    var i := 0;
    var done := false;
    while !done
      invariant 0 <= i <= |turns| && cached.Valid() && bytes == cached.delivered
      invariant done ==> bytes == cached.store.origin[cached.key]
      decreases |turns| - i, !done
    {
      var t := if i < |turns| then turns[i] else Turn(|cached.rest|, true, false, false, false);
      assert i < |turns| ==> t in turns;
      var n := if t.n < |cached.rest| then t.n else |cached.rest|;
      var end := if t.broken then Broken else if n == |cached.rest| && (t.early || n == 0) then Eof else More;
      var part;
      part, err, done := cached.Read(n, end);
      bytes := bytes + part;
      if err.Some? {
        return;
      }
      if i < |turns| {
        i := i + 1;
      }
    }
    err := None;
  }

  /** A caller's read of one object through the caching store: get, read to the end, close.
      It yields the origin's object or an error; an object that was not cached is cached
      afterwards if there was a scratch file and nothing failed on the way. */
  method Fetch(store: Store, key: string, turns: seq<Turn>, cancelled: bool, cacheFails: bool, originFails: bool, scratch: bool,
               closeFails: bool, late: bool, fill: Outcome) returns (r: Result<Bytes>)
    requires store.Valid()
    modifies store`cache
    ensures store.Valid() && Extends(old(store.cache), store.cache)
    ensures r.Ok? ==> key in store.origin && r.value == store.origin[key]
    ensures key !in store.origin && !cancelled && !originFails ==> r == Err(NotFound)
    ensures key in store.origin && !cancelled && !originFails && !closeFails && !late && Unbroken(turns) ==> r.Ok?
    ensures store.cache == old(store.cache) || (key in store.origin && store.cache == old(store.cache)[key := store.origin[key]])
    ensures !scratch || closeFails || late || fill.FailsClean? || key in old(store.cache) ==> store.cache == old(store.cache)
    ensures key in store.origin && key !in old(store.cache) && !cancelled && !originFails && scratch && !closeFails && !late &&
            !fill.FailsClean? && Calm(turns) ==>
              store.cache == old(store.cache)[key := store.origin[key]]
  {
    var body := store.Get(key, cancelled, cacheFails, originFails, scratch);
    if body.Err? {
      return Err(body.error);
    }
    var bytes, err;
    var closed;
    match body.value {
      case Hit(cached) =>
        bytes, err := DrainCached(cached, turns);
        closed := cached.Close(closeFails);
      case Miss(filler) =>
        bytes, err := Drain(filler, turns);
        closed := filler.Close(closeFails, late, fill);
    }
    r := if err.Some? || closed.Some? || late then Err(Io) else Ok(bytes);
  }
}
