/**
 The text of keys and revisions. Log keys count down from the largest int64, so the
 newest commit is the first key in listing order.
 */
module Keys {
  import opened Wrappers
  import opened Radix
  import opened Order

  const MAX_INT64: int := 0x7FFF_FFFF_FFFF_FFFF

  function HexDigit(d: nat): (c: char)
    requires d < 16
    ensures ('0' <= c <= '9' && d < 10) || ('a' <= c <= 'f' && d >= 10)
  {
    if d < 10 then '0' + d as char else 'a' + (d - 10) as char
  }

  predicate ValidHexChar(c: char) {
    '0' <= c <= '9' || 'a' <= c <= 'f'
  }

  function HexValue(c: char): (d: nat)
    requires ValidHexChar(c)
    ensures d < 16 && HexDigit(d) == c
  {
    if '0' <= c <= '9' then (c - '0') as nat else (c - 'a') as nat + 10
  }

  /** Fixed-width lowercase hexadecimal. */
  function Hex(n: nat, width: nat): (s: string)
    ensures |s| == width && forall i :: 0 <= i < width ==> ValidHexChar(s[i])
  {
    if width == 0 then "" else Hex(n / 16, width - 1) + [HexDigit(n % 16)]
  }

  function HexRevision(r: nat): string {
    Hex(r, 16)
  }

  predicate ValidHex(s: string, n: nat) {
    |s| == n && forall i :: 0 <= i < n ==> ValidHexChar(s[i])
  }

  function HexNumber(s: string): (n: nat)
    requires forall i :: 0 <= i < |s| ==> ValidHexChar(s[i])
  {
    if s == "" then 0 else 16 * HexNumber(s[..|s| - 1]) + HexValue(s[|s| - 1])
  }

  /** strconv.ParseInt fails above the int64 range. */
  function ParseHexInt64(s: string): Option<nat> {
    if !ValidHex(s, 16) then None
    else if HexNumber(s) > MAX_INT64 then None
    else Some(HexNumber(s))
  }

  function ParseRevision(s: string): Option<nat> {
    match ParseHexInt64(s)
    case None => None
    case Some(r) => if r <= 0 || r > MAX_REVISION then None else Some(r)
  }

  function LogPrefix(prefix: string): string {
    prefix + "v1/log/"
  }

  function LogKeyText(prefix: string, r: int): string
    requires 0 <= r <= MAX_INT64
  {
    LogPrefix(prefix) + HexRevision(MAX_INT64 - r) + ".json"
  }

  function ParseLogKey(prefix: string, key: string): Option<int> {
    if !HasPrefix(key, LogPrefix(prefix)) then None
    else
      var s := key[|LogPrefix(prefix)|..];
      if |s| != 21 || s[16..] != ".json" then None
      else
        match ParseHexInt64(s[..16])
        case None => None
        case Some(n) =>
          var r := MAX_INT64 - n;
          if r <= 0 || r > MAX_REVISION then None else Some(r)
  }

  /** Digits are written with 0-9 and a-f. */
  lemma DigitText(d: nat)
    requires d < 16
    ensures HexDigit(d) == "0123456789abcdef"[d]
  {
  }

  /** The digit of weight 16^k stands k places before the end. */
  lemma {:induction false} HexAt(n: nat, width: nat, k: nat)
    requires k < width
    ensures Hex(n, width)[width - 1 - k] == "0123456789abcdef"[Digit(n, k)]
  {
    DigitText(n % 16);
    if k > 0 {
      HexAt(n / 16, width - 1, k - 1);
    }
  }

  lemma {:induction false} HexNumberOfHex(n: nat, width: nat)
    requires n < Pow16(width)
    ensures HexNumber(Hex(n, width)) == n
  {
    if width > 0 {
      var t, c := Hex(n / 16, width - 1), HexDigit(n % 16);
      assert Hex(n, width) == t + [c] && Pow16(width) == 16 * Pow16(width - 1);
      HexNumberLast(t, c);
      hide *;
      SixteenthLess(n, Pow16(width - 1));
      HexNumberOfHex(n / 16, width - 1);
      ValueOfDigit(n % 16);
    }
  }

  lemma ValueOfDigit(d: nat)
    requires d < 16
    ensures ValidHexChar(HexDigit(d)) && HexValue(HexDigit(d)) == d
  {
  }

  lemma HexNumberLast(t: string, c: char)
    requires ValidHexChar(c) && forall i :: 0 <= i < |t| ==> ValidHexChar(t[i])
    ensures forall i :: 0 <= i < |t + [c]| ==> ValidHexChar((t + [c])[i])
    ensures HexNumber(t + [c]) == 16 * HexNumber(t) + HexValue(c)
  {
    assert (t + [c])[..|t|] == t;
  }

  lemma SixteenthLess(n: nat, p: nat)
    requires n < 16 * p
    ensures n / 16 < p && n == 16 * (n / 16) + n % 16
  {
  }

  lemma HexDigitInjective(a: nat, b: nat)
    requires a < 16 && b < 16 && HexDigit(a) == HexDigit(b)
    ensures a == b
  {
  }

  lemma {:induction false} HexOfHexNumber(s: string)
    requires forall i :: 0 <= i < |s| ==> ValidHexChar(s[i])
    ensures HexNumber(s) < Pow16(|s|) && Hex(HexNumber(s), |s|) == s
  {
    if s != "" {
      var t, d := s[..|s| - 1], HexValue(s[|s| - 1]);
      HexOfHexNumber(t);
      assert HexNumber(s) / 16 == HexNumber(t) && HexNumber(s) % 16 == d;
      assert s == t + [s[|s| - 1]];
    }
  }

  /** Revisions survive their text form, and no other text denotes them. */
  lemma ParseRevisionInverse(s: string, r: nat)
    ensures ParseRevision(s) == Some(r) <==> s == HexRevision(r) && 1 <= r <= MAX_REVISION
  {
    WidthSixteen();
    if ValidHex(s, 16) {
      HexOfHexNumber(s);
    }
    if r <= MAX_REVISION {
      HexNumberOfHex(r, 16);
    }
  }

  lemma WidthSixteen()
    ensures MAX_INT64 < Pow16(16)
  {
    assert Pow16(4) == 0x1_0000;
    assert Pow16(8) == 0x1_0000 * Pow16(4);
    assert Pow16(12) == 0x1_0000 * Pow16(8);
    assert Pow16(16) == 0x1_0000 * Pow16(12);
  }

  /** parseLogKey and logKey are inverse: a key parses to r exactly when it is r's key. */
  lemma ParseLogKeyInverse(prefix: string, key: string, r: int)
    requires 0 <= r <= MAX_INT64
    ensures ParseLogKey(prefix, key) == Some(r) <==> key == LogKeyText(prefix, r) && 1 <= r <= MAX_REVISION
  {
    if key == LogKeyText(prefix, r) && 1 <= r <= MAX_REVISION {
      LogKeyParses(prefix, r);
    }
    if ParseLogKey(prefix, key) == Some(r) {
      ParsedLogKey(prefix, key, r);
    }
  }

  lemma LogKeyParses(prefix: string, r: int)
    requires 1 <= r <= MAX_REVISION
    ensures ParseLogKey(prefix, LogKeyText(prefix, r)) == Some(r)
  {
    WidthSixteen();
    var p, h, key := LogPrefix(prefix), HexRevision(MAX_INT64 - r), LogKeyText(prefix, r);
    HexNumberOfHex(MAX_INT64 - r, 16);
    hide Hex, LogPrefix, HexNumber;
    assert key == p + (h + ".json");
    PrefixSelf(p, h + ".json");
    assert (h + ".json")[..16] == h && (h + ".json")[16..] == ".json";
  }

  lemma ParsedLogKey(prefix: string, key: string, r: int)
    requires 0 <= r <= MAX_INT64 && ParseLogKey(prefix, key) == Some(r)
    ensures key == LogKeyText(prefix, r) && 1 <= r <= MAX_REVISION
  {
    var p := LogPrefix(prefix);
    var s := key[|p|..];
    assert key == p + s;
    hide Hex, LogPrefix, HexNumber, ValidHexChar;
    HexOfHexNumber(s[..16]);
    assert s == s[..16] + s[16..];
  }

  lemma {:induction false} HexOrder(a: nat, b: nat, width: nat)
    requires a < b < Pow16(width)
    ensures Less(Hex(a, width), Hex(b, width))
  {
    var x, y := Hex(a / 16, width - 1), Hex(b / 16, width - 1);
    if a / 16 == b / 16 {
      LessCommonPrefix(x, [HexDigit(a % 16)], [HexDigit(b % 16)]);
    } else {
      HexOrder(a / 16, b / 16, width - 1);
      LessExtend(x, y, [HexDigit(a % 16)], [HexDigit(b % 16)]);
    }
  }

  /** A later revision has the earlier key. */
  lemma LogKeyOrder(prefix: string, older: int, newer: int)
    requires 1 <= older < newer <= MAX_REVISION
    ensures Less(LogKeyText(prefix, newer), LogKeyText(prefix, older))
  {
    hide *;
    RevisionOrder(older, newer);
    TextOrder(LogPrefix(prefix), HexRevision(MAX_INT64 - newer), HexRevision(MAX_INT64 - older));
    LogTextIs(prefix, older);
    LogTextIs(prefix, newer);
  }

  lemma RevisionOrder(older: int, newer: int)
    requires 1 <= older < newer <= MAX_REVISION
    ensures newer <= MAX_INT64 && |HexRevision(MAX_INT64 - newer)| == |HexRevision(MAX_INT64 - older)|
    ensures Less(HexRevision(MAX_INT64 - newer), HexRevision(MAX_INT64 - older))
  {
    WidthSixteen();
    HexOrder(MAX_INT64 - newer, MAX_INT64 - older, 16);
  }

  lemma LogTextIs(prefix: string, r: int)
    requires 0 <= r <= MAX_INT64
    ensures LogKeyText(prefix, r) == LogPrefix(prefix) + (HexRevision(MAX_INT64 - r) + ".json")
  {
    hide Hex, LogPrefix;
  }

  lemma TextOrder(p: string, x: string, y: string)
    requires |x| == |y| && Less(x, y)
    ensures Less(p + (x + ".json"), p + (y + ".json"))
  {
    hide Less;
    LessExtend(x, y, ".json", ".json");
    LessCommonPrefix(p, x + ".json", y + ".json");
  }
}
