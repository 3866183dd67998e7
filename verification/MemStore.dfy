/** The in-memory store: a map of objects and a sorted slice of their keys. */
module MemStore {
  import opened Wrappers
  import opened Order
  import opened Listing

  /** sort.SearchStrings: the first position whose key is not below x. */
  method Search(keys: seq<string>, x: string) returns (i: nat)
    requires Sorted(keys)
    ensures i <= |keys|
    ensures forall k :: 0 <= k < i ==> Less(keys[k], x)
    ensures forall k :: i <= k < |keys| ==> !Less(keys[k], x)
  {
    i := 0;
    var j := |keys|;
    while i < j
      invariant 0 <= i <= j <= |keys|
      invariant forall k :: 0 <= k < i ==> Less(keys[k], x)
      invariant forall k :: j <= k < |keys| ==> !Less(keys[k], x)
    {
      var h := (i + j) / 2;
      if Less(keys[h], x) {
        SmallerBefore(keys, h, x);
        i := h + 1;
      } else {
        LargerAfter(keys, h, x);
        j := h;
      }
    }
  }

  lemma SmallerBefore(keys: seq<string>, h: nat, x: string)
    requires Sorted(keys) && h < |keys| && Less(keys[h], x)
    ensures forall k :: 0 <= k <= h ==> Less(keys[k], x)
  {
    forall k | 0 <= k < h
      ensures Less(keys[k], x)
    {
      LessTransitive(keys[k], keys[h], x);
    }
  }

  lemma LargerAfter(keys: seq<string>, h: nat, x: string)
    requires Sorted(keys) && h < |keys| && !Less(keys[h], x)
    ensures forall k :: h <= k < |keys| ==> !Less(keys[k], x)
  {
    forall k | h < k < |keys|
      ensures !Less(keys[k], x)
    {
      if Less(keys[k], x) {
        LessTransitive(keys[h], keys[k], x);
      }
    }
  }

  /** Inserting a new key at its search position keeps the keys sorted. */
  lemma InsertSorted(keys: seq<string>, i: nat, x: string)
    requires Sorted(keys) && i <= |keys| && x !in keys
    requires forall k :: 0 <= k < i ==> Less(keys[k], x)
    requires forall k :: i <= k < |keys| ==> !Less(keys[k], x)
    ensures Sorted(keys[..i] + [x] + keys[i..])
  {
    var more := keys[..i] + [x] + keys[i..];
    forall a, b | 0 <= a < b < |more|
      ensures Less(more[a], more[b])
    {
      assert a == i && b > i ==> more[b] == keys[b - 1];
      if a == i {
        LessTotal(x, keys[b - 1]);
      } else if a < i && b > i {
        assert more[b] == keys[b - 1] && more[a] == keys[a];
      } else if a > i {
        assert more[a] == keys[a - 1] && more[b] == keys[b - 1];
      }
    }
  }

  class Store {
    var objects: map<string, Bytes>
    var keys: seq<string>

    /** The slice lists the map's keys in order, each once. */
    ghost predicate Valid()
      reads this
    {
      Sorted(keys) && forall k :: k in keys <==> k in objects
    }

    constructor ()
      ensures Valid() && objects == map[]
    {
      objects, keys := map[], [];
    }

    method Get(key: string, cancelled: bool) returns (r: Result<Bytes>)
      ensures r == if cancelled then Err(Io) else if key in objects then Ok(objects[key]) else Err(NotFound)
    {
      if cancelled {
        return Err(Io);
      }
      if key !in objects {
        return Err(NotFound);
      }
      r := Ok(objects[key]);
    }

    /** Creation never replaces: the first value of a key stays. Nothing is stored unless the
        whole value could be read. cancelled tells of each check of the context in turn. */
    method Create(key: string, value: Source, cancelled: nat -> bool) returns (err: Option<Error>)
      requires Valid()
      modifies this
      ensures Valid()
      ensures err == if cancelled(0) || Content(value).None? || cancelled(1) || cancelled(2) then Some(Io)
                     else if key in old(objects) then Some(Exists) else None
      ensures objects == if err.Some? then old(objects) else old(objects)[key := Content(value).value]
    {
      if cancelled(0) {
        return Some(Io);
      }
      if value.size < 0 {
        return Some(Io);
      }
      var size := value.size;
      if value.broken {
        return Some(Io);
      }
      var b := if |value.data| < size then value.data else value.data[..size];
      if |b| != size {
        return Some(Io);
      }
      if cancelled(1) || cancelled(2) {
        return Some(Io);
      }
      if key in objects {
        return Some(Exists);
      }
      objects := objects[key := b];
      var i := Search(keys, key);
      InsertSorted(keys, i, key);
      ghost var was := keys;
      keys := keys + [""];
      keys := keys[..i + 1] + keys[i..|keys| - 1];
      keys := keys[i := key];
      assert keys == was[..i] + [key] + was[i..];
      assert was == was[..i] + was[i..];
      err := None;
    }

    method List(prefix: string, limit: int, cancelled: bool) returns (r: Result<seq<string>>)
      requires Valid()
      ensures r.Ok? <==> limit > 0 && !cancelled
      ensures r.Ok? ==> FirstKeys(objects.Keys, prefix, limit, r.value)
    {
      if cancelled {
        return Err(Io);
      }
      if limit <= 0 {
        return Err(InvalidRange);
      }
      var start := Search(keys, prefix);
      var i, found := start, [];
      while i < |keys| && |found| < limit && HasPrefix(keys[i], prefix)
        invariant start <= i <= |keys| && found == keys[start..i] && |found| <= limit
        invariant forall k :: start <= k < i ==> HasPrefix(keys[k], prefix)
      {
        assert keys[start..i + 1] == keys[start..i] + [keys[i]];
        found := found + [keys[i]];
        i := i + 1;
      }
      FoundFirst(prefix, limit, start, i);
      r := Ok(found);
    }

    lemma FoundFirst(prefix: string, limit: nat, start: nat, i: nat)
      requires Valid() && start <= i <= |keys| && i - start <= limit
      requires forall k :: 0 <= k < start ==> Less(keys[k], prefix)
      requires forall k :: start <= k < |keys| ==> !Less(keys[k], prefix)
      requires forall k :: start <= k < i ==> HasPrefix(keys[k], prefix)
      requires i == |keys| || i - start == limit || !HasPrefix(keys[i], prefix)
      ensures FirstKeys(objects.Keys, prefix, limit, keys[start..i])
    {
      var found := keys[start..i];
      forall q | start <= q < i
        ensures keys[q] in found
      {
        assert found[q - start] == keys[q];
      }
      forall k | k in objects && HasPrefix(k, prefix) && k !in found
        ensures |found| == limit && forall x :: x in found ==> Less(x, k)
      {
        var p :| 0 <= p < |keys| && keys[p] == k;
        if p < start {
          NotBelowPrefix(prefix, k);
        }
        if i < |keys| && !HasPrefix(keys[i], prefix) {
          PrefixContiguous(prefix, keys[i], k);
          SortedAt(keys, p, i);
        }
      }
    }
  }

  /** No key with a prefix is below it. */
  lemma NotBelowPrefix(prefix: string, k: string)
    requires HasPrefix(k, prefix)
    ensures !Less(k, prefix)
  {
    LessIrreflexive(k);
    if k != prefix && Less(k, prefix) {
      PrefixFirst(prefix, k);
      LessTransitive(k, prefix, k);
    }
  }
}
