/** Bytewise lexicographic order on keys. A character stands for one byte. */
module Order {
  predicate Less(a: string, b: string) {
    b != "" && (a == "" || a[0] < b[0] || (a[0] == b[0] && Less(a[1..], b[1..])))
  }

  predicate HasPrefix(s: string, prefix: string) {
    |prefix| <= |s| && s[..|prefix|] == prefix
  }

  /** Strictly increasing. */
  ghost predicate Sorted(keys: seq<string>) {
    forall i, j :: 0 <= i < j < |keys| ==> Less(keys[i], keys[j])
  }

  lemma {:induction false} LessIrreflexive(a: string)
    ensures !Less(a, a)
  {
    if a != "" {
      LessIrreflexive(a[1..]);
    }
  }

  lemma {:induction false} LessTransitive(a: string, b: string, c: string)
    requires Less(a, b) && Less(b, c)
    ensures Less(a, c)
  {
    if a != "" && a[0] == b[0] == c[0] {
      LessTransitive(a[1..], b[1..], c[1..]);
    }
  }

  lemma {:induction false} LessTotal(a: string, b: string)
    ensures a == b || Less(a, b) || Less(b, a)
  {
    if a != "" && b != "" && a[0] == b[0] {
      LessTotal(a[1..], b[1..]);
      assert a == [a[0]] + a[1..] && b == [b[0]] + b[1..];
    }
  }

  /** A common prefix does not affect the order. */
  lemma {:induction false} LessCommonPrefix(p: string, a: string, b: string)
    ensures Less(p + a, p + b) <==> Less(a, b)
  {
    if p == "" {
      assert p + a == a && p + b == b;
    } else {
      assert (p + a)[1..] == p[1..] + a && (p + b)[1..] == p[1..] + b;
      LessCommonPrefix(p[1..], a, b);
    }
  }

  /** Equally long parts decide the order before what follows them. */
  lemma {:induction false} LessExtend(a: string, b: string, x: string, y: string)
    requires |a| == |b| && Less(a, b)
    ensures Less(a + x, b + y)
  {
    assert (a + x)[1..] == a[1..] + x && (b + y)[1..] == b[1..] + y;
    if a[0] == b[0] {
      LessExtend(a[1..], b[1..], x, y);
    }
  }

  lemma PrefixSelf(p: string, a: string)
    ensures HasPrefix(p + a, p) && (p + a)[|p|..] == a
  {
  }

  /** A proper prefix sorts first. */
  lemma PrefixFirst(p: string, a: string)
    requires HasPrefix(a, p) && a != p
    ensures Less(p, a)
  {
    assert a == p + a[|p|..] && p + "" == p;
    LessCommonPrefix(p, "", a[|p|..]);
  }

  lemma PrefixCons(a: string, p: string)
    requires a != "" && p != "" && a[0] == p[0] && HasPrefix(a[1..], p[1..])
    ensures HasPrefix(a, p)
  {
    assert a[..|p|] == [a[0]] + a[1..][..|p| - 1] == [p[0]] + p[1..] == p;
  }

  /** Keys not below the prefix that lack it sort after every key that has it. */
  lemma {:induction false} PrefixContiguous(p: string, a: string, b: string)
    requires !Less(a, p) && !HasPrefix(a, p) && HasPrefix(b, p)
    ensures Less(b, a)
  {
    if p != "" && a[0] == p[0] {
      assert b[1..][..|p| - 1] == b[1..|p|] == p[1..];
      if HasPrefix(a[1..], p[1..]) {
        PrefixCons(a, p);
      }
      PrefixContiguous(p[1..], a[1..], b[1..]);
    }
  }
}
