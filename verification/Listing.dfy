/** What every store does: List returns the first keys with a prefix, in bytewise order, and
    Create stores the bytes its caller's value yields. */
module Listing {
  import opened Wrappers
  import opened Radix
  import opened Order
  import Keys

  /** A value handed to Create: the size it claims and what reading it yields. */
  datatype Source = Source(size: int, data: Bytes, broken: bool)

  /** The object to store; none when the size is invalid, reading fails or data is missing. */
  function Content(v: Source): Option<Bytes> {
    if v.size < 0 || v.broken || |v.data| < v.size then None else Some(v.data[..v.size])
  }

  /** It is the first size bytes of the source, when these can all be read. */
  lemma ContentMeans(v: Source, b: Bytes)
    ensures Content(v) == Some(b) <==> !v.broken && v.size == |b| && b <= v.data
  {
    if b <= v.data && v.size == |b| {
      assert v.data[..v.size] == b;
    }
  }

  /** keys are the first at most limit members of stored with the prefix, in order. */
  ghost predicate FirstKeys(stored: set<string>, prefix: string, limit: nat, keys: seq<string>) {
    && Sorted(keys) && |keys| <= limit
    && (forall k :: k in keys ==> k in stored && HasPrefix(k, prefix))
    && (forall k :: k in stored && HasPrefix(k, prefix) && k !in keys ==> |keys| == limit && forall x :: x in keys ==> Less(x, k))
  }

  lemma {:induction false} SortedAt(keys: seq<string>, i: nat, j: nat)
    requires Sorted(keys) && i < |keys| && j < |keys| && Less(keys[i], keys[j])
    ensures i < j
  {
    if j < i {
      LessTransitive(keys[i], keys[j], keys[i]);
    }
    LessIrreflexive(keys[i]);
  }

  /** The description determines the result, so any two stores with the same keys agree. */
  lemma {:induction false} FirstKeysUnique(stored: set<string>, prefix: string, limit: nat, a: seq<string>, b: seq<string>, n: nat)
    requires FirstKeys(stored, prefix, limit, a) && FirstKeys(stored, prefix, limit, b) && n <= |a| && n <= |b|
    ensures a[..n] == b[..n]
    ensures n < |a| ==> n < |b|
  {
    if n > 0 {
      FirstKeysUnique(stored, prefix, limit, a, b, n - 1);
      SameAt(stored, prefix, limit, a, b, n - 1);
    }
    if n < |a| {
      assert a[n] in a && b[..|b|] == b;
      NotBefore(a, b, n);
    }
  }

  lemma NotBefore(a: seq<string>, b: seq<string>, n: nat)
    requires Sorted(a) && n < |a| && n <= |b| && a[..n] == b[..n]
    ensures a[n] !in b[..n] && forall i :: 0 <= i < n ==> b[i] != a[n]
  {
    forall i | 0 <= i < n
      ensures b[i] != a[n]
    {
      assert b[i] == b[..n][i] == a[..n][i] == a[i];
      LessIrreflexive(a[n]);
    }
  }

  lemma SameAt(stored: set<string>, prefix: string, limit: nat, a: seq<string>, b: seq<string>, n: nat)
    requires FirstKeys(stored, prefix, limit, a) && FirstKeys(stored, prefix, limit, b)
    requires n < |a| && n < |b| && a[..n] == b[..n]
    ensures a[n] == b[n]
  {
    SmallestNext(stored, prefix, limit, a, b, n);
    SmallestNext(stored, prefix, limit, b, a, n);
    LessTotal(a[n], b[n]);
  }

  /** A key listed next by one is not after what the other lists next. */
  lemma SmallestNext(stored: set<string>, prefix: string, limit: nat, a: seq<string>, b: seq<string>, n: nat)
    requires FirstKeys(stored, prefix, limit, a) && FirstKeys(stored, prefix, limit, b)
    requires n < |a| && n < |b| && a[..n] == b[..n]
    ensures !Less(a[n], b[n])
  {
    if Less(a[n], b[n]) {
      assert a[n] in a && a[n] in stored;
      LessIrreflexive(b[n]);
      if a[n] in b {
        var j :| 0 <= j < |b| && b[j] == a[n];
        SortedAt(b, j, n);
        NotBefore(a, b, n);
      } else {
        assert b[n] in b && Less(b[n], a[n]);
        LessTransitive(a[n], b[n], a[n]);
        LessIrreflexive(a[n]);
      }
    }
  }

  lemma ListingUnique(stored: set<string>, prefix: string, limit: nat, a: seq<string>, b: seq<string>)
    requires FirstKeys(stored, prefix, limit, a) && FirstKeys(stored, prefix, limit, b)
    ensures a == b
  {
    var n := if |a| <= |b| then |a| else |b|;
    FirstKeysUnique(stored, prefix, limit, a, b, n);
    FirstKeysUnique(stored, prefix, limit, b, a, n);
    assert a[..n] == a && b[..n] == b;
  }

  /** LoadHead's one-key List of the log prefix returns the head's key, when the keys under
      that prefix are those of revisions 1..head. */
  lemma HeadListed(stored: set<string>, prefix: string, head: nat, keys: seq<string>)
    requires head <= MAX_REVISION && FirstKeys(stored, Keys.LogPrefix(prefix), 1, keys)
    requires forall k :: k in stored && HasPrefix(k, Keys.LogPrefix(prefix)) <==>
                         exists r :: 1 <= r <= head && k == Keys.LogKeyText(prefix, r)
    ensures if head == 0 then keys == [] else keys == [Keys.LogKeyText(prefix, head)]
    ensures head > 0 ==> Keys.ParseLogKey(prefix, Keys.LogKeyText(prefix, head)) == Some(head)
  {
    assert keys != [] ==> keys[0] in keys;
    if head > 0 {
      var want := Keys.LogKeyText(prefix, head);
      Keys.ParseLogKeyInverse(prefix, want, head);
      assert want in stored && HasPrefix(want, Keys.LogPrefix(prefix));
      if keys != [] {
        NothingNewer(prefix, head, keys[0]);
      }
    }
  }

  /** No log key sorts before the head's. */
  lemma NothingNewer(prefix: string, head: nat, k: string)
    requires 1 <= head <= MAX_REVISION && exists r :: 1 <= r <= head && k == Keys.LogKeyText(prefix, r)
    ensures !Less(k, Keys.LogKeyText(prefix, head))
  {
    var want := Keys.LogKeyText(prefix, head);
    var r :| 1 <= r <= head && k == Keys.LogKeyText(prefix, r);
    LessIrreflexive(want);
    if r < head {
      Keys.LogKeyOrder(prefix, r, head);
      if Less(k, want) {
        LessTransitive(want, k, want);
      }
    }
  }

  /** Listing one set after another that lies wholly behind it. */
  lemma FirstKeysAppend(a: set<string>, b: set<string>, prefix: string, limit: nat, first: seq<string>, second: seq<string>)
    requires FirstKeys(a, prefix, limit, first) && FirstKeys(b, prefix, limit - |first|, second)
    requires forall x, y :: x in a && y in b ==> Less(x, y)
    ensures FirstKeys(a + b, prefix, limit, first + second)
  {
    var keys := first + second;
    forall i, j | 0 <= i < j < |keys|
      ensures Less(keys[i], keys[j])
    {
      if i < |first| <= j {
        assert keys[i] == first[i] && first[i] in first && keys[j] == second[j - |first|] && second[j - |first|] in second;
      } else if i >= |first| {
        assert keys[i] == second[i - |first|] && keys[j] == second[j - |first|];
      }
    }
    forall k | k in keys
      ensures k in a + b && HasPrefix(k, prefix)
    {
      assert k in first || k in second;
    }
    assert second != [] ==> second[0] in second;
    forall k | k in a + b && HasPrefix(k, prefix) && k !in keys
      ensures |keys| == limit && forall x :: x in keys ==> Less(x, k)
    {
      assert k !in first && k !in second;
      forall x | x in keys
        ensures Less(x, k)
      {
        assert x in first || x in second;
      }
    }
  }
}
