/**
 The text of a store's keys. The head that LoadHead reads off the first key of a listing is
 the head of the protocol's log.
 */
module StoreKeys {
  import opened Wrappers
  import opened Radix
  import opened Order
  import opened Keys
  import opened Listing
  import opened Wire
  import opened History
  import opened ScanIntact
  import opened Protocol
  import opened ProtocolSafe
  import opened ProtocolRuns
  import opened ProtocolResults

  function HexBytes(b: Bytes): (s: string)
    ensures |s| == 2 * |b|
  {
    if b == [] then "" else [HexDigit(b[0] / 16), HexDigit(b[0] % 16)] + HexBytes(b[1..])
  }

  /** The keys writers create: of commits, and of segments in range with a digest. */
  predicate Textual(k: Key) {
    match k
    case LogKey(r) => ValidRevision(r)
    case TreeKey(level, first, last, digest) => level <= 15 && ValidRevision(first) && ValidRevision(last) && |digest| == 32
    case OtherKey(_) => false
  }

  function TreeText(k: Key): (s: string)
    requires k.TreeKey? && Textual(k)
    ensures |s| == 117
  {
    "v1/tree/" + [HexDigit(k.level)] + "/" + HexRevision(k.first) + "-" + HexRevision(k.last) + "-" + HexBytes(k.digest) + ".json.zst"
  }

  function KeyText(prefix: string, k: Key): string
    requires Textual(k)
  {
    if k.LogKey? then LogKeyText(prefix, k.revision) else prefix + TreeText(k)
  }

  lemma {:induction false} HexBytesInjective(a: Bytes, b: Bytes)
    requires |a| == |b| && HexBytes(a) == HexBytes(b)
    ensures a == b
  {
    if a != [] {
      var s, t := HexBytes(a), HexBytes(b);
      assert s[2..] == HexBytes(a[1..]) && t[2..] == HexBytes(b[1..]);
      assert s[0] == HexDigit(a[0] / 16) && s[1] == HexDigit(a[0] % 16);
      assert t[0] == HexDigit(b[0] / 16) && t[1] == HexDigit(b[0] % 16);
      HexDigitInjective(a[0] / 16, b[0] / 16);
      HexDigitInjective(a[0] % 16, b[0] % 16);
      HexBytesInjective(a[1..], b[1..]);
      assert a == [a[0]] + a[1..] && b == [b[0]] + b[1..];
    }
  }

  /** Each byte is its two hexadecimal digits, the high one first. */
  lemma {:induction false} HexBytesAt(b: Bytes, i: nat)
    requires i < |b|
    ensures HexBytes(b)[2 * i] == "0123456789abcdef"[b[i] / 16] && HexBytes(b)[2 * i + 1] == "0123456789abcdef"[b[i] % 16]
  {
    DigitText(b[0] / 16);
    DigitText(b[0] % 16);
    var s := HexBytes(b);
    assert s[2..] == HexBytes(b[1..]);
    if i > 0 {
      HexBytesAt(b[1..], i - 1);
      assert s[2 * i] == s[2..][2 * i - 2] && s[2 * i + 1] == s[2..][2 * i - 1];
    } else {
      assert s[0] == HexDigit(b[0] / 16) && s[1] == HexDigit(b[0] % 16);
    }
  }

  lemma HexRevisionInjective(a: int, b: int)
    requires ValidRevision(a) && ValidRevision(b) && HexRevision(a) == HexRevision(b)
    ensures a == b
  {
    ParseRevisionInverse(HexRevision(a), a);
    ParseRevisionInverse(HexRevision(b), b);
  }

  /** The parts of a tree key stand at fixed places. */
  lemma TreeParts(k: Key)
    requires k.TreeKey? && Textual(k)
    ensures TreeText(k)[3] == 't' && TreeText(k)[8] == HexDigit(k.level)
    ensures TreeText(k)[10..26] == HexRevision(k.first) && TreeText(k)[27..43] == HexRevision(k.last)
    ensures TreeText(k)[44..108] == HexBytes(k.digest)
  {
    var a, b, c := HexRevision(k.first), HexRevision(k.last), HexBytes(k.digest);
    hide HexRevision, HexBytes;
    assert |"v1/tree/"| == 8 && "v1/tree/"[3] == 't';
  }

  lemma TreeTextInjective(a: Key, b: Key)
    requires a.TreeKey? && b.TreeKey? && Textual(a) && Textual(b) && TreeText(a) == TreeText(b)
    ensures a == b
  {
    hide TreeText, HexRevision, HexBytes;
    TreeParts(a);
    TreeParts(b);
    HexDigitInjective(a.level, b.level);
    HexRevisionInjective(a.first, b.first);
    HexRevisionInjective(a.last, b.last);
    HexBytesInjective(a.digest, b.digest);
  }

  /** Exactly the commits' keys lie under the log prefix. */
  lemma UnderLogPrefix(prefix: string, k: Key)
    requires Textual(k)
    ensures HasPrefix(KeyText(prefix, k), LogPrefix(prefix)) <==> k.LogKey?
  {
    if k.LogKey? {
      PrefixSelf(LogPrefix(prefix), HexRevision(MAX_INT64 - k.revision) + ".json");
      assert KeyText(prefix, k) == LogPrefix(prefix) + (HexRevision(MAX_INT64 - k.revision) + ".json");
    } else {
      TreeParts(k);
      hide TreeText, HexRevision, HexBytes;
      assert |"v1/log/"| == 7 && "v1/log/"[3] == 'l';
      assert LogPrefix(prefix)[|prefix| + 3] == 'l' && KeyText(prefix, k)[|prefix| + 3] == 't';
      var t := KeyText(prefix, k);
      assert |LogPrefix(prefix)| <= |t| ==> t[..|LogPrefix(prefix)|][|prefix| + 3] == t[|prefix| + 3];
    }
  }

  /** Different keys have different texts. */
  lemma KeyTextInjective(prefix: string, a: Key, b: Key)
    requires Textual(a) && Textual(b) && KeyText(prefix, a) == KeyText(prefix, b)
    ensures a == b
  {
    hide LogKeyText, TreeText;
    UnderLogPrefix(prefix, a);
    UnderLogPrefix(prefix, b);
    if a.LogKey? {
      ParseLogKeyInverse(prefix, KeyText(prefix, a), a.revision);
      ParseLogKeyInverse(prefix, KeyText(prefix, b), b.revision);
    } else {
      assert (prefix + TreeText(a))[|prefix|..] == TreeText(a) && (prefix + TreeText(b))[|prefix|..] == TreeText(b);
      TreeTextInjective(a, b);
    }
  }

  /** The texts under which a store holds its objects. */
  ghost function Texts(prefix: string, store: Store): set<string> {
    set k | k in store && Textual(k) :: KeyText(prefix, k)
  }

  /** Every key of a protocol store has a text. */
  lemma StoreTextual(env: Env, store: Store, hist: seq<Commit>, k: Key)
    requires KeysOK(env, store, hist) && World(env, Reader(store), hist) && k in store
    ensures Textual(k)
  {
    hide World, TrueBody;
    if k.LogKey? && 1 <= k.revision <= |hist| {
      RootRevision(env, Reader(store), hist, k.revision);
    }
  }

  /** The texts under the log prefix are those of revisions 1..|hist|. */
  lemma LogTexts(env: Env, prefix: string, store: Store, hist: seq<Commit>, text: string)
    requires World(env, Reader(store), hist) && IsLog(store, hist)
    ensures |hist| <= MAX_REVISION
    ensures text in Texts(prefix, store) && HasPrefix(text, LogPrefix(prefix)) <==>
            exists r :: 1 <= r <= |hist| && text == LogKeyText(prefix, r)
  {
    hide World, LogKeyText, LogPrefix, TreeText, HasPrefix;
    if |hist| > 0 {
      RootRevision(env, Reader(store), hist, |hist|);
    }
    if text in Texts(prefix, store) && HasPrefix(text, LogPrefix(prefix)) {
      var k :| k in store && Textual(k) && text == KeyText(prefix, k);
      UnderLogPrefix(prefix, k);
      assert 1 <= k.revision <= |hist| && text == LogKeyText(prefix, k.revision);
    }
    forall r | 1 <= r <= |hist| && text == LogKeyText(prefix, r)
      ensures text in Texts(prefix, store) && HasPrefix(text, LogPrefix(prefix))
    {
      UnderLogPrefix(prefix, LogKey(r));
      assert LogKey(r) in store && Textual(LogKey(r)) && KeyText(prefix, LogKey(r)) == text;
    }
  }

  /** In any state of a run, the one-key listing of the log prefix is empty exactly when the
      log is, and otherwise its key parses to the head. */
  lemma ListedHead(env: Env, states: seq<State>, i: nat, prefix: string, keys: seq<string>)
    requires ValidEnv(env) && Run(env, states) && i < |states|
    requires FirstKeys(Texts(prefix, states[i].store), LogPrefix(prefix), 1, keys)
    ensures forall k :: k in states[i].store ==> Textual(k)
    ensures |keys| <= 1 && (keys == [] ==> IsHead(states[i].store, 0))
    ensures keys != [] ==>
              ParseLogKey(prefix, keys[0]).Some? && ParseLogKey(prefix, keys[0]).value > 0 &&
              IsHead(states[i].store, ParseLogKey(prefix, keys[0]).value)
  {
    assert MAX_REVISION <= MAX_INT64;
    hide *;
    var logs := RunKeeps(env, states);
    var store, hist := states[i].store, logs[i];
    InvParts(env, states[i], hist);
    InvIsLog(env, states[i], hist);
    forall k | k in store
      ensures Textual(k)
    {
      StoreTextual(env, store, hist, k);
    }
    LogTexts(env, prefix, store, hist, "");
    forall k
      ensures k in Texts(prefix, states[i].store) && HasPrefix(k, LogPrefix(prefix)) <==>
              exists r :: 1 <= r <= |hist| && k == LogKeyText(prefix, r)
    {
      LogTexts(env, prefix, states[i].store, hist, k);
    }
    HeadListed(Texts(prefix, states[i].store), prefix, |hist|, keys);
    HeadIsLast(states[i].store, hist, |hist|);
  }
}
