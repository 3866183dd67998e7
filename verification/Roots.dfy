/**
 Finding a root: the head through one listing and one read, or a given revision directly.
 The read may come later than the listing.
 */
module Roots {
  import opened Wrappers
  import opened Radix
  import opened Keys
  import opened Listing
  import opened Wire
  import opened Segment
  import opened ScanIntact
  import opened Protocol
  import opened ProtocolSteps
  import opened ProtocolRuns
  import opened ProtocolResults
  import opened StoreKeys

  function SnapshotOf(env: Env, key: Key, body: Body): Result<Snapshot> {
    match DecodeCommit(env, key, body)
    case Err(e) => Err(e)
    case Ok(c) => if env.decodable(c.event) then Ok(Snapshot(c, body)) else Err(Callback)
  }

  function LoadRevision(env: Env, get: Getter, revision: int): Result<Snapshot> {
    if revision <= 0 || revision > MAX_REVISION then Err(InvalidRange)
    else
      match get(LogKey(revision))
      case Err(e) => Err(e)
      case Ok(body) => SnapshotOf(env, LogKey(revision), body)
  }

  /** What LoadHead makes of the answer to its listing. */
  function LoadHead(env: Env, prefix: string, listed: Result<seq<string>>, get: Getter): Result<Option<Snapshot>> {
    match listed
    case Err(e) => Err(e)
    case Ok(keys) =>
      if keys == [] then Ok(None)
      else if |keys| != 1 then Err(Corrupt)
      else
        match ParseLogKey(prefix, keys[0])
        case None => Err(Corrupt)
        case Some(r) =>
          match GetReferenced(get, LogKey(r))
          case Err(e) => Err(e)
          case Ok(body) =>
            match SnapshotOf(env, LogKey(r), body)
            case Err(e) => Err(e)
            case Ok(s) => Ok(Some(s))
  }

  /** A key that was listed and then is missing makes the log corrupt, never empty. */
  lemma HeadNeverNotFound(env: Env, prefix: string, listed: Result<seq<string>>, get: Getter)
    requires listed != Err(NotFound)
    ensures LoadHead(env, prefix, listed, get) != Err(NotFound)
    ensures LoadHead(env, prefix, listed, get) == Ok(None) <==> listed == Ok([])
  {
    hide ParseLogKey, ValidCommit;
  }

  /** The commit a state stores at a revision, as any later state reads it. */
  lemma StoredRoot(env: Env, states: seq<State>, i: nat, m: nat, r: int)
    requires ValidEnv(env) && Run(env, states) && i <= m < |states|
    ensures LogKey(r) in states[i].store <==> 1 <= r && exists h :: IsHead(states[i].store, h) && r <= h
    ensures LogKey(r) in states[i].store ==>
              LogKey(r) in states[m].store && states[m].store[LogKey(r)] == states[i].store[LogKey(r)] && 1 <= r <= MAX_REVISION &&
              states[i].store[LogKey(r)].CommitBody? && states[i].store[LogKey(r)].commit.revision == r &&
              SnapshotOf(env, LogKey(r), states[i].store[LogKey(r)])
              == Ok(Snapshot(states[i].store[LogKey(r)].commit, states[i].store[LogKey(r)]))
  {
    hide *;
    var logs := RunKeeps(env, states);
    InvIsLog(env, states[i], logs[i]);
    InvIsLog(env, states[m], logs[m]);
    HeadIsLast(states[i].store, logs[i], |logs[i]|);
    LogRoots(states[i].store, logs[i], r);
    if LogKey(r) in states[i].store {
      LogRoots(states[m].store, logs[m], r);
      RootIs(env, states[i].store, logs[i], r);
      assert logs[m][r - 1] == logs[i][r - 1];
    }
    forall h | IsHead(states[i].store, h)
      ensures h == |logs[i]|
    {
      HeadIsLast(states[i].store, logs[i], h);
    }
  }

  lemma LogRoots(store: Store, hist: seq<Commit>, r: int)
    requires IsLog(store, hist)
    ensures LogKey(r) in store <==> 1 <= r <= |hist|
    ensures 1 <= r <= |hist| ==> store[LogKey(r)] == EncodeCommit(hist[r - 1])
  {
  }

  lemma RootIs(env: Env, store: Store, hist: seq<Commit>, r: int)
    requires World(env, Reader(store), hist) && 1 <= r <= |hist|
    ensures 1 <= r <= MAX_REVISION && EncodeCommit(hist[r - 1]).CommitBody? && EncodeCommit(hist[r - 1]).commit == hist[r - 1]
    ensures hist[r - 1].revision == r
    ensures SnapshotOf(env, LogKey(r), EncodeCommit(hist[r - 1])) == Ok(Snapshot(hist[r - 1], EncodeCommit(hist[r - 1])))
  {
    RootRevision(env, Reader(store), hist, r);
    RootLoads(env, store, hist, r, Corrupt);
    CommitServed(env, Reader(store), hist, r);
    hide World, DecodeCommit;
  }

  /** In any state of a run, a revision loads exactly when it is committed; one that is not is
      not found, and one that cannot be is rejected. */
  lemma RevisionLoads(env: Env, states: seq<State>, i: nat, revision: int)
    requires ValidEnv(env) && Run(env, states) && i < |states|
    ensures
      var store := states[i].store;
      var loaded := LoadRevision(env, Reader(store), revision);
      if revision < 1 || revision > MAX_REVISION then loaded == Err(InvalidRange)
      else if LogKey(revision) !in store then loaded == Err(NotFound)
      else store[LogKey(revision)].CommitBody? && loaded == Ok(Snapshot(store[LogKey(revision)].commit, store[LogKey(revision)]))
  {
    StoredRoot(env, states, i, i, revision);
    hide SnapshotOf, Run;
  }

  /** LoadHead in any run, its read following its listing by any number of steps: the commit
      of the greatest revision the listed state stored, or nothing for an empty log. */
  lemma HeadLoads(env: Env, states: seq<State>, i: nat, m: nat, prefix: string, keys: seq<string>, head: int)
    requires ValidEnv(env) && Run(env, states) && i <= m < |states|
    requires (forall k :: k in states[i].store ==> Textual(k)) && FirstKeys(Texts(prefix, states[i].store), LogPrefix(prefix), 1, keys)
    requires IsHead(states[i].store, head)
    ensures
      var got := LoadHead(env, prefix, Ok(keys), Reader(states[m].store));
      if head == 0 then got == Ok(None)
      else LogKey(head) in states[i].store && states[i].store[LogKey(head)].CommitBody? &&
           got == Ok(Some(Snapshot(states[i].store[LogKey(head)].commit, states[i].store[LogKey(head)])))
  {
    hide *;
    ListedHead(env, states, i, prefix, keys);
    OneHead(states[i].store, head, if keys == [] then 0 else ParseLogKey(prefix, keys[0]).value);
    if head != 0 {
      HeadStored(states[i].store, head);
    }
    StoredRoot(env, states, i, m, head);
    LoadHeadForm(env, prefix, keys, states[m].store);
  }

  lemma OneHead(store: Store, a: int, b: int)
    requires IsHead(store, a) && IsHead(store, b) && b >= 0
    ensures b > 0 ==> a == b
    ensures b == 0 ==> a <= 0
  {
  }

  lemma HeadStored(store: Store, head: int)
    requires IsHead(store, head) && head != 0
    ensures LogKey(head) in store
  {
  }

  lemma LoadHeadForm(env: Env, prefix: string, keys: seq<string>, store: Store)
    requires |keys| <= 1
    ensures keys == [] ==> LoadHead(env, prefix, Ok(keys), Reader(store)) == Ok(None)
    ensures keys != [] && ParseLogKey(prefix, keys[0]).Some? ==>
              var r := ParseLogKey(prefix, keys[0]).value;
              LogKey(r) in store ==>
                LoadHead(env, prefix, Ok(keys), Reader(store)) ==
                match SnapshotOf(env, LogKey(r), store[LogKey(r)])
                case Err(e) => Err(e)
                case Ok(s) => Ok(Some(s))
  {
    hide ParseLogKey, SnapshotOf;
  }
}
