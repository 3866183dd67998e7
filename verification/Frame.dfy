/**
 The framing check on a compressed segment: one Zstandard frame and nothing after it
 (sections 3.1.1 and 3.1.1.2 of RFC 8878). The frame header is taken as already decoded.
 */
module Frame {
  import opened Wrappers

  /** A data block as the standard describes it. An RLE block stores one byte whatever size
      it stands for. */
  datatype Kind = Raw | Rle | Compressed
  datatype Block = Block(kind: Kind, size: nat, content: Bytes)

  predicate ValidBlock(b: Block) {
    b.size < 0x20_0000 && |b.content| == if b.kind.Rle? then 1 else b.size
  }

  function Code(k: Kind): nat {
    match k case Raw => 0 case Rle => 1 case Compressed => 2
  }

  /** Last_Block, Block_Type and Block_Size in one number. */
  function Header(b: Block, last: bool): (n: nat)
    requires ValidBlock(b)
    ensures n < 0x100_0000
  {
    8 * b.size + 2 * Code(b.kind) + if last then 1 else 0
  }

  function ThreeBytes(n: nat): (h: Bytes)
    requires n < 0x100_0000
    ensures |h| == 3
  {
    var x: int, y: int, z: int := n % 256, n / 256 % 256, n / 0x1_0000;
    [x, y, z]
  }

  /** Block_Header: three little-endian bytes of Last_Block, Block_Type and Block_Size. */
  function BlockHeader(b: Block, last: bool): (h: Bytes)
    requires ValidBlock(b)
    ensures |h| == 3
  {
    ThreeBytes(Header(b, last))
  }

  /** One or more blocks, only the final one marked last. */
  function Blocks(bs: seq<Block>): Bytes
    requires forall b :: b in bs ==> ValidBlock(b)
  {
    if bs == [] then []
    else BlockHeader(bs[0], |bs| == 1) + bs[0].content + Blocks(bs[1..])
  }

  function Bits(body: Bytes, pos: nat): nat
    requires pos + 3 <= |body|
  {
    body[pos] as int + 256 * (body[pos + 1] as int) + 0x1_0000 * (body[pos + 2] as int)
  }

  /** Bytes a block with these header bits stores. */
  function Stored(bits: nat): nat {
    if bits / 2 % 4 == 1 then 1 else bits / 8
  }

  /** The position after the last block of those starting at pos. */
  function End(body: Bytes, pos: nat): Option<nat>
    decreases |body| - pos
  {
    if pos + 3 > |body| then None
    else
      var bits := Bits(body, pos);
      var next := pos + 3 + Stored(bits);
      if bits / 2 % 4 == 3 || next > |body| then None
      else if bits % 2 != 0 then Some(next)
      else End(body, next)
  }

  predicate OneFrame(body: Bytes, header: nat, checksum: bool) {
    End(body, header) == Some(|body| - if checksum then 4 else 0)
  }

  method SingleFrame(body: Bytes, header: nat, checksum: bool) returns (ok: bool)
    ensures ok <==> OneFrame(body, header, checksum)
  {
    var pos, size, last := header, |body|, false;
    while !last
      invariant header <= pos && (last ==> pos <= size)
      invariant End(body, header) == if last then Some(pos) else End(body, pos)
      decreases !last, size - pos
    {
      if pos > size - 3 {
        return false;
      }
      var bits := Bits(body, pos);
      pos := pos + 3;
      var blockSize := bits / 8;
      if bits / 2 % 4 == 1 {
        blockSize := 1;
      } else if bits / 2 % 4 == 3 {
        return false;
      }
      if blockSize > size - pos {
        return false;
      }
      pos := pos + blockSize;
      last := bits % 2 != 0;
    }
    if checksum {
      if size - pos < 4 {
        return false;
      }
      pos := pos + 4;
    }
    ok := pos == size;
  }

  // ---- The check is the standard's grammar ----

  lemma HeaderBits(b: Block, last: bool, body: Bytes, pos: nat)
    requires ValidBlock(b) && pos + 3 <= |body| && body[pos..pos + 3] == BlockHeader(b, last)
    ensures var bits := Bits(body, pos);
      bits / 8 == b.size && bits / 2 % 4 == Code(b.kind) && (bits % 2 != 0 <==> last) && Stored(bits) == |b.content|
  {
    var h := body[pos..pos + 3];
    assert h[0] == body[pos] && h[1] == body[pos + 1] && h[2] == body[pos + 2];
    Digits256(Header(b, last));
    BitFields(b, last);
  }

  lemma BitFields(b: Block, last: bool)
    requires ValidBlock(b)
    ensures var n := Header(b, last);
      n / 8 == b.size && n / 2 % 4 == Code(b.kind) && (n % 2 != 0 <==> last)
  {
    Fields(b.size, Code(b.kind), if last then 1 else 0);
  }

  lemma Fields(size: nat, code: nat, bit: nat)
    requires code < 4 && bit < 2
    ensures var n := 8 * size + 2 * code + bit; n / 8 == size && n / 2 % 4 == code && n % 2 == bit
  {
    var n := 8 * size + 2 * code + bit;
    var half := 4 * size + code;
    assert n == 2 * half + bit && n / 2 == half;
    assert half / 4 == size && n / 8 == half / 4;
  }

  lemma Digits256(n: nat)
    requires n < 0x100_0000
    ensures n % 256 + 256 * (n / 256 % 256) + 0x1_0000 * (n / 0x1_0000) == n
  {
    var a := n / 256;
    assert a / 256 == n / 0x1_0000;
  }

  /** These bytes stand at pos. */
  ghost predicate Stands(body: Bytes, pos: nat, part: Bytes) {
    pos + |part| <= |body| && body[pos..pos + |part|] == part
  }

  /** Every sequence of valid blocks, wherever it stands, is walked to its end. */
  lemma {:induction false} BlocksEnd(body: Bytes, pos: nat, bs: seq<Block>)
    requires bs != [] && forall b :: b in bs ==> ValidBlock(b)
    requires Stands(body, pos, Blocks(bs))
    ensures End(body, pos) == Some(pos + |Blocks(bs)|)
    decreases |bs|
  {
    hide *;
    BlocksHead(body, pos, bs);
    EndOne(body, pos, bs[0], |bs| == 1);
    if |bs| > 1 {
      BlocksEnd(body, pos + 3 + |bs[0].content|, bs[1..]);
    }
  }

  /** The first block and the rest stand one after the other. */
  lemma BlocksHead(body: Bytes, pos: nat, bs: seq<Block>)
    requires bs != [] && forall b :: b in bs ==> ValidBlock(b)
    requires Stands(body, pos, Blocks(bs))
    ensures
      var next, rest := pos + 3 + |bs[0].content|, Blocks(bs[1..]);
      Stands(body, pos, BlockHeader(bs[0], |bs| == 1)) && Stands(body, next, rest) &&
      pos + |Blocks(bs)| == next + |rest| <= |body| && (|bs| == 1 ==> rest == [])
  {
    var b, rest := bs[0], Blocks(bs[1..]);
    var head := BlockHeader(b, |bs| == 1);
    assert |head| == 3;
    hide BlockHeader, ValidBlock, Stands;
    assert |bs| == 1 ==> bs[1..] == [];
    StandsParts(body, pos, head, b.content, rest);
  }

  lemma StandsParts(body: Bytes, pos: nat, x: Bytes, y: Bytes, z: Bytes)
    requires Stands(body, pos, x + y + z)
    ensures Stands(body, pos, x) && Stands(body, pos + |x| + |y|, z)
  {
    var all := x + y + z;
    assert all[..|x|] == x && all[|x| + |y|..] == z;
    SubSlice(body, pos, |all|, 0, |x|);
    SubSlice(body, pos, |all|, |x| + |y|, |all|);
  }

  lemma SubSlice(body: Bytes, pos: nat, n: nat, i: nat, j: nat)
    requires i <= j <= n && pos + n <= |body|
    ensures body[pos + i..pos + j] == body[pos..pos + n][i..j]
  {
    var a, b := body[pos + i..pos + j], body[pos..pos + n][i..j];
    assert forall k :: 0 <= k < j - i ==> a[k] == b[k];
  }

  /** The walk steps over a block that stands at pos. */
  lemma EndOne(body: Bytes, pos: nat, b: Block, last: bool)
    requires ValidBlock(b) && pos + 3 + |b.content| <= |body| && Stands(body, pos, BlockHeader(b, last))
    ensures var next := pos + 3 + |b.content|;
      End(body, pos) == if last then Some(next) else End(body, next)
  {
    assert |BlockHeader(b, last)| == 3;
    HeaderBits(b, last, body, pos);
    hide Stored, Bits, BlockHeader;
  }

  /** Whatever is walked to an end is a sequence of valid blocks. */
  lemma {:induction false} EndBlocks(body: Bytes, pos: nat) returns (bs: seq<Block>)
    requires End(body, pos).Some?
    ensures bs != [] && forall b :: b in bs ==> ValidBlock(b)
    ensures pos <= End(body, pos).value <= |body| && body[pos..End(body, pos).value] == Blocks(bs)
    decreases |body| - pos
  {
    var bits := Bits(body, pos);
    var next := pos + 3 + Stored(bits);
    var b := Block(KindOf(bits / 2 % 4), bits / 8, body[pos + 3..next]);
    var last := bits % 2 != 0;
    BitsHeader(body, pos, b, last);
    hide Stored, Bits, Blocks, BlockHeader, KindOf;
    bs := [];
    if last {
      NoBlocks(body, next);
    } else {
      bs := EndBlocks(body, next);
    }
    FirstBlock(body, pos, next, End(body, pos).value, b, bs);
    bs := [b] + bs;
  }

  lemma NoBlocks(body: Bytes, next: nat)
    requires next <= |body|
    ensures body[next..next] == Blocks([])
  {
  }

  lemma FirstBlock(body: Bytes, pos: nat, next: nat, end: nat, b: Block, more: seq<Block>)
    requires pos + 3 <= next <= end <= |body| && ValidBlock(b) && forall c :: c in more ==> ValidBlock(c)
    requires body[pos..pos + 3] == BlockHeader(b, more == []) && body[pos + 3..next] == b.content && body[next..end] == Blocks(more)
    ensures body[pos..end] == Blocks([b] + more)
  {
    hide BlockHeader, ValidBlock;
    assert ([b] + more)[1..] == more;
    assert body[pos..end] == body[pos..pos + 3] + body[pos + 3..next] + body[next..end];
  }

  function KindOf(code: nat): (k: Kind)
    requires code < 3
    ensures Code(k) == code
  {
    if code == 0 then Raw else if code == 1 then Rle else Compressed
  }

  lemma BitsHeader(body: Bytes, pos: nat, b: Block, last: bool)
    requires pos + 3 <= |body| && b.size == Bits(body, pos) / 8 && Code(b.kind) == Bits(body, pos) / 2 % 4
    requires |b.content| == Stored(Bits(body, pos)) && last == (Bits(body, pos) % 2 != 0)
    ensures ValidBlock(b) && BlockHeader(b, last) == body[pos..pos + 3]
  {
    var n := Bits(body, pos);
    var x: int, y: int, z: int := body[pos], body[pos + 1], body[pos + 2];
    BytesOf(x, y, z);
    BitsOf(n);
    assert Header(b, last) == n;
    assert ThreeBytes(n) == [body[pos], body[pos + 1], body[pos + 2]] == body[pos..pos + 3];
  }

  lemma BitsOf(n: nat)
    requires n < 0x100_0000
    ensures n / 8 < 0x20_0000 && n == 8 * (n / 8) + 2 * (n / 2 % 4) + n % 2
  {
    var half := n / 2;
    assert half == 4 * (half / 4) + half % 4 && half / 4 == n / 8;
  }

  lemma BytesOf(x: int, y: int, z: int)
    requires 0 <= x < 256 && 0 <= y < 256 && 0 <= z < 256
    ensures var n := x + 256 * y + 0x1_0000 * z; n < 0x100_0000 && n % 256 == x && n / 256 % 256 == y && n / 0x1_0000 == z
  {
    var n := x + 256 * y + 0x1_0000 * z;
    assert n / 256 == y + 256 * z;
  }

  /** Accepted exactly when the bytes after the header are blocks and the checksum. */
  lemma AcceptsOneFrame(body: Bytes, header: nat, checksum: bool)
    requires header <= |body|
    ensures OneFrame(body, header, checksum) <==>
            exists bs :: IsFrame(body, header, checksum, bs)
  {
    var end := |body| - if checksum then 4 else 0;
    if OneFrame(body, header, checksum) {
      var bs := EndBlocks(body, header);
      assert IsFrame(body, header, checksum, bs);
    }
    forall bs | IsFrame(body, header, checksum, bs)
      ensures OneFrame(body, header, checksum)
    {
      BlocksEnd(body, header, bs);
    }
  }

  /** The body is the header, these blocks, and a four-byte checksum if announced. */
  predicate IsFrame(body: Bytes, header: nat, checksum: bool, bs: seq<Block>)
    requires header <= |body|
  {
    var end := |body| - if checksum then 4 else 0;
    bs != [] && (forall b :: b in bs ==> ValidBlock(b)) && header <= end && body[header..end] == Blocks(bs)
  }

  lemma {:induction false} EndExtends(body: Bytes, more: Bytes, pos: nat)
    requires End(body, pos).Some?
    ensures End(body + more, pos) == End(body, pos)
    decreases |body| - pos
  {
    var next := pos + 3 + Stored(Bits(body, pos));
    assert Bits(body + more, pos) == Bits(body, pos);
    if Bits(body, pos) % 2 == 0 {
      EndExtends(body, more, next);
    }
  }

  /** No accepted body extends another with the same header. */
  lemma AcceptedPrefixFree(body: Bytes, more: Bytes, header: nat, checksum: bool)
    requires OneFrame(body, header, checksum) && OneFrame(body + more, header, checksum)
    ensures more == []
  {
    EndExtends(body, more, header);
  }
}
