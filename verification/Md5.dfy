/** The streaming MD5 engine (external/uuid/md5.cpp): a 64-byte buffer, a two-word bit counter and
    four chaining words, all overwritten in place. The ghost fields say what has been fed in since
    the chaining words held `base`; Valid ties every field to them. */
module Md5 {
  import opened Rfc1321
  import opened Md5Transform

  function Wrap32(n: int): uint32 {
    n % 0x1_0000_0000
  }

  lemma WrapIsNoMore(n: nat)
    ensures Wrap32(n) <= n
  {
  }

  lemma WrapQuotient(n: nat) returns (q: nat)
    ensures n == Wrap32(n) as int + 0x1_0000_0000 * q
  {
    q := n / 0x1_0000_0000;
  }

  // ---------- Words and bytes ----------

  // Byte j of a word, the least significant first.
  function ByteOf(w: uint32, j: nat): byte
    requires j < 4
  {
    if j == 0 then w % 0x100 else if j == 1 then w / 0x100 % 0x100
    else if j == 2 then w / 0x1_0000 % 0x100 else w / 0x100_0000 % 0x100
  }

  function Encoded(ws: seq<uint32>): (s: seq<byte>)
    ensures |s| == 4 * |ws|
  {
    seq(4 * |ws|, k requires 0 <= k < 4 * |ws| => ByteOf(ws[k / 4], k % 4))
  }

  function Decoded(s: seq<byte>): (ws: seq<uint32>)
    requires |s| % 4 == 0
    ensures |ws| == |s| / 4
  {
    seq(|s| / 4, i requires 0 <= i < |s| / 4 => WordAt(s, i))
  }

  lemma Shifts(w: uint32)
    ensures w / 0x100 / 0x100 == w / 0x1_0000 && w / 0x1_0000 / 0x100 == w / 0x100_0000 && w / 0x100_0000 / 0x100 == 0
    ensures w / 0x100_0000 % 0x100 == w / 0x100_0000
  {
  }

  lemma WordFromBytes(w: uint32)
    ensures w == ByteOf(w, 0) as int + 0x100 * ByteOf(w, 1) as int + 0x1_0000 * ByteOf(w, 2) as int + 0x100_0000 * ByteOf(w, 3) as int
  {
    Shifts(w);
    assert w == w % 0x100 + 0x100 * (w / 0x100);
    assert w / 0x100 == w / 0x100 % 0x100 + 0x100 * (w / 0x1_0000);
    assert w / 0x1_0000 == w / 0x1_0000 % 0x100 + 0x100 * (w / 0x100_0000);
  }

  lemma BytesFromWord(b0: byte, b1: byte, b2: byte, b3: byte)
    ensures
      var w := b0 as int + 0x100 * b1 as int + 0x1_0000 * b2 as int + 0x100_0000 * b3 as int;
      ByteOf(w, 0) == b0 && ByteOf(w, 1) == b1 && ByteOf(w, 2) == b2 && ByteOf(w, 3) == b3
  {
    var w := b0 as int + 0x100 * b1 as int + 0x1_0000 * b2 as int + 0x100_0000 * b3 as int;
    assert w / 0x100 == b1 as int + 0x100 * b2 as int + 0x1_0000 * b3 as int;
    assert w / 0x1_0000 == b2 as int + 0x100 * b3 as int;
    assert w / 0x100_0000 == b3;
  }

  lemma EncodedBytes(ws: seq<uint32>, i: nat)
    requires i < |ws|
    ensures forall j :: 0 <= j < 4 ==> Encoded(ws)[4 * i + j] == ByteOf(ws[i], j)
  {
    hide ByteOf;
  }

  lemma DecodeUndoesEncode(ws: seq<uint32>)
    ensures Decoded(Encoded(ws)) == ws
  {
    hide Encoded, ByteOf;
    forall i | 0 <= i < |ws| ensures Decoded(Encoded(ws))[i] == ws[i] {
      WordFromBytes(ws[i]);
      EncodedBytes(ws, i);
    }
  }

  lemma EncodeUndoesDecode(s: seq<byte>)
    requires |s| % 4 == 0
    ensures Encoded(Decoded(s)) == s
  {
    forall k | 0 <= k < |s| ensures Encoded(Decoded(s))[k] == s[k] {
      var i := k / 4;
      BytesFromWord(s[4 * i], s[4 * i + 1], s[4 * i + 2], s[4 * i + 3]);
      hide ByteOf;
      assert k % 4 == k - 4 * i;
    }
  }

  lemma LittleEndianStep(a: nat, c: nat, k: nat)
    ensures LittleEndian(a + 0x100 * c, k + 1) == [a % 0x100] + LittleEndian(a / 0x100 + c, k)
  {
    LowByte(a, c);
  }

  lemma LowByte(a: nat, c: nat)
    ensures (a + 0x100 * c) % 0x100 == a % 0x100 && (a + 0x100 * c) / 0x100 == a / 0x100 + c
  {
  }

  lemma OneWord(w: uint32)
    ensures Encoded([w]) == [w % 0x100, w / 0x100 % 0x100, w / 0x1_0000 % 0x100, w / 0x100_0000 % 0x100]
  {
  }

  // The low word of a little-endian number comes first.
  lemma LowWord(w: uint32, x: nat, k: nat)
    ensures LittleEndian(w + 0x1_0000_0000 * x, k + 4) == Encoded([w]) + LittleEndian(x, k)
  {
    hide LittleEndian, Encoded;
    LittleEndianStep(w, 0x100_0000 * x, k + 3);
    LittleEndianStep(w / 0x100, 0x1_0000 * x, k + 2);
    LittleEndianStep(w / 0x1_0000, 0x100 * x, k + 1);
    LittleEndianStep(w / 0x100_0000, x, k);
    OneWord(w);
    Shifts(w);
  }

  lemma WordBytes(w: uint32)
    ensures Encoded([w]) == LittleEndian(w, 4)
  {
    LowWord(w, 0, 0);
    assert LittleEndian(0, 0) == [];
  }

  lemma EncodedAppend(ws: seq<uint32>, w: uint32)
    ensures Encoded(ws + [w]) == Encoded(ws) + Encoded([w])
  {
  }

  // ---------- The two counter words ----------

  // The counter holds the number of bits of n bytes, modulo 2^64.
  predicate Counted(lo: uint32, hi: uint32, n: nat) {
    lo as int + 0x1_0000_0000 * hi as int == 8 * n % 0x1_0000_0000_0000_0000
  }

  lemma CountedQuotient(lo: uint32, hi: uint32, n: nat) returns (q: nat)
    requires Counted(lo, hi, n)
    ensures 8 * n == lo as int + 0x1_0000_0000 * hi as int + 0x1_0000_0000_0000_0000 * q
  {
    q := 8 * n / 0x1_0000_0000_0000_0000;
  }

  lemma CountedIs(lo: uint32, hi: uint32, n: nat, q: nat)
    requires 8 * n == lo as int + 0x1_0000_0000 * hi as int + 0x1_0000_0000_0000_0000 * q
    ensures Counted(lo, hi, n)
  {
  }

  lemma ShiftedLength(length: uint32)
    ensures 8 * length == Wrap32(8 * length) as int + 0x1_0000_0000 * (length / 0x2000_0000)
  {
  }

  // Adding the low word, carrying on wrap-around and adding the high bits is 64-bit addition.
  lemma CarryIsAddition(lo: uint32, hi: uint32, n: nat, length: uint32, bits: uint32, lo': uint32, mid: uint32, hi': uint32)
    requires Counted(lo, hi, n)
    requires bits == Wrap32(8 * length) && lo' == Wrap32(lo as int + bits as int)
    requires mid == if lo' < bits then Wrap32(hi as int + 1) else hi
    requires hi' == Wrap32(mid as int + length / 0x2000_0000)
    ensures Counted(lo', hi', n + length)
  {
    var q := CountedQuotient(lo, hi, n);
    ShiftedLength(length);
    var q1 := WrapQuotient(lo as int + bits as int);
    var q2 := WrapQuotient(hi as int + 1);
    var k := if lo' < bits then q2 else 0;
    var q3 := WrapQuotient(mid as int + length / 0x2000_0000);
    hide Wrap32, Counted;
    assert q1 == if lo' < bits then 1 else 0;
    CountedIs(lo', hi', n + length, q + k + q3);
  }

  lemma IndexOfCount(lo: uint32, hi: uint32, n: nat, blocks: nat)
    requires Counted(lo, hi, n) && 64 * blocks <= n < 64 * blocks + 64
    ensures lo / 8 % 64 == n - 64 * blocks
  {
  }

  lemma CountBytes(lo: uint32, hi: uint32, n: nat)
    requires Counted(lo, hi, n)
    ensures Encoded([lo, hi]) == LittleEndian(8 * n, 8)
  {
    var q := CountedQuotient(lo, hi, n);
    assert LittleEndian(q, 0) == [];
    hide Counted, Encoded, LittleEndian;
    var x := hi as int + 0x1_0000_0000 * q;
    assert 8 * n == lo as int + 0x1_0000_0000 * x;
    LowWord(lo, x, 4);
    LowWord(hi, q, 0);
    EncodedAppend([lo], hi);
  }

  // ---------- The block loop in 32-bit arithmetic ----------

  // The m-th value of the loop index: the first one lies behind the bytes that fill the buffer,
  // which holds `index` bytes already, and each step adds 64 in 32 bits.
  function LoopIndex(index: nat, m: nat): uint32 {
    Wrap32(64 * m + 64 - index)
  }

  // The loop's guard. The addition wraps.
  predicate LoopGuard(i: nat, length: nat) {
    Wrap32(i + 64) <= length
  }

  // Short inputs never reach the loop; otherwise its last index must be below 2^32 - 64.
  predicate BlockLoopEnds(index: nat, length: nat) {
    length < 64 - index || length - (index + length) % 64 + 64 < 0x1_0000_0000
  }

  lemma BlockLoopEndsExactly(index: nat, length: uint32)
    requires index < 64 && 64 - index <= length
    ensures BlockLoopEnds(index, length) <==> exists m: nat :: !LoopGuard(LoopIndex(index, m), length)
  {
    if BlockLoopEnds(index, length) {
      var m := (index + length) / 64 - 1;
      assert 64 * m + 64 - index == length - (index + length) % 64;
      assert !LoopGuard(LoopIndex(index, m), length);
    } else {
      forall m: nat ensures LoopGuard(LoopIndex(index, m), length) {
        GuardHolds(index, length, m);
      }
    }
  }

  // Every index is -index modulo 64, and so is the greatest such number below 2^32; when that one
  // is in range the guard never fails.
  lemma GuardHolds(index: nat, length: uint32, m: nat)
    requires index < 64 && 64 - index <= length && !BlockLoopEnds(index, length)
    ensures LoopGuard(LoopIndex(index, m), length)
  {
  }

  lemma ShortCallsEnd(index: nat, length: nat)
    requires index < 64 && length < 0x1_0000_0000 - 64
    ensures BlockLoopEnds(index, length)
  {
  }

  // Such a call that never returns: the longest length there is, on a fresh engine.
  lemma LongestCallNeverEnds(m: nat)
    ensures !BlockLoopEnds(0, 0xFFFF_FFFF) && LoopGuard(LoopIndex(0, m), 0xFFFF_FFFF)
  {
    GuardHolds(0, 0xFFFF_FFFF, m);
  }

  lemma GuardIsExact(index: nat, length: uint32, m: nat)
    requires index < 64 && BlockLoopEnds(index, length) && 64 <= 64 * m && 64 * m - index <= length
    ensures Wrap32(64 * m - index + 64) == 64 * m - index + 64
  {
  }

  // The first block across the seam.
  lemma FirstBlock(message: seq<byte>, input: seq<byte>, index: nat, blocks: nat)
    requires 64 * blocks + index == |message| && index < 64 && 64 - index <= |input|
    ensures (message + input)[64 * blocks..64 * blocks + 64] == message[64 * blocks..] + input[..64 - index]
  {
  }

  // What is left over behind position n.
  lemma LeftOver(message: seq<byte>, input: seq<byte>, n: nat)
    requires n <= |message| + |input|
    ensures (message + input)[n..] == if n <= |message| then message[n..] + input else input[n - |message|..]
  {
  }

  // A block of the input, found again in the whole message.
  lemma PieceBlock(message: seq<byte>, input: seq<byte>, i: nat, blocks: nat)
    requires 64 * blocks == |message| + i && i + 64 <= |input|
    ensures (message + input)[64 * blocks..64 * blocks + 64] == input[i..i + 64]
  {
  }

  // The engine's two-way choice of padding length is the least one that RFC 1321 asks for.
  lemma PaddingLength(n: nat, blocks: nat, padLen: nat)
    requires 64 * blocks <= n < 64 * blocks + 64
    requires padLen == if n - 64 * blocks < 56 then 56 - (n - 64 * blocks) else 120 - (n - 64 * blocks)
    ensures padLen == 1 + ZeroCount(n)
  {
  }

  // ---------- Absorbing ----------

  lemma {:induction false} AbsorbExtended(r: Chain, data: seq<byte>, more: seq<byte>, n: nat)
    requires 64 * n <= |data|
    ensures Absorb(r, data + more, n) == Absorb(r, data, n)
  {
    hide Compress;
    if n > 0 {
      AbsorbExtended(r, data, more, n - 1);
      assert (data + more)[64 * (n - 1)..64 * n] == data[64 * (n - 1)..64 * n];
    }
  }

  lemma AbsorbNothing(r: Chain)
    ensures Absorb(r, [], 0) == r
  {
  }

  lemma AbsorbNext(r: Chain, data: seq<byte>, n: nat, block: Block)
    requires 64 * n + 64 <= |data| && block == data[64 * n..64 * n + 64]
    ensures Absorb(r, data, n + 1) == Compress(Absorb(r, data, n), block)
  {
  }

  lemma OutputIsEncoded(r: Chain)
    ensures Output(r) == Encoded([r.a, r.b, r.c, r.d])
  {
    hide Encoded, LittleEndian;
    WordBytes(r.a);
    WordBytes(r.b);
    WordBytes(r.c);
    WordBytes(r.d);
    assert [r.a, r.b] == [r.a] + [r.b] && [r.a, r.b, r.c] == [r.a, r.b] + [r.c];
    assert [r.a, r.b, r.c, r.d] == [r.a, r.b, r.c] + [r.d];
    EncodedAppend([r.a], r.b);
    EncodedAppend([r.a, r.b], r.c);
    EncodedAppend([r.a, r.b, r.c], r.d);
  }

  class Md5 {
    var finalized: bool
    const buffer: array<byte>
    const count: array<uint32>
    const state: array<uint32>
    const digest: array<byte>
    ghost var base: Chain
    ghost var message: seq<byte>
    ghost var blocks: nat

    ghost predicate Shape() {
      && buffer.Length == 64 && count.Length == 2 && state.Length == 4 && digest.Length == 16
      && buffer != digest && count != state
    }

    ghost function Registers(): Chain
      requires Shape()
      reads state
    {
      Chain(state[0], state[1], state[2], state[3])
    }

    // The registers have absorbed every whole block, the buffer starts with the rest, and the two
    // counter words hold eight times the number of bytes modulo 2^64.
    ghost predicate Valid()
      reads this`base, this`message, this`blocks, buffer, count, state
    {
      && Shape()
      && Counted(count[0], count[1], |message|)
      && 64 * blocks <= |message| < 64 * blocks + 64
      && Registers() == Absorb(base, message, blocks)
      && buffer[..|message| - 64 * blocks] == message[64 * blocks..]
    }

    constructor ()
      ensures Valid() && !finalized && base == IV && message == []
      ensures fresh(buffer) && fresh(count) && fresh(state) && fresh(digest)
    {
      hide Absorb;
      buffer := new byte[64];
      count := new uint32[2];
      state := new uint32[4];
      digest := new byte[16];
      new;
      Init();
    }

    // The length argument has 32 bits: a longer text is hashed up to its length modulo 2^32.
    constructor OfText(text: array<byte>)
      requires BlockLoopEnds(0, Wrap32(text.Length))
      ensures Shape() && finalized && digest[..] == Digest(text[..Wrap32(text.Length)])
    {
      hide Absorb, BlockLoopEnds, Counted, Wrap32;
      buffer := new byte[64];
      count := new uint32[2];
      state := new uint32[4];
      digest := new byte[16];
      new;
      Init();
      WrapIsNoMore(text.Length);
      ghost var head := text[..Wrap32(text.Length)];
      Update(text, Wrap32(text.Length));
      assert message == head;
      Finalize();
    }

    method Init()
      requires Shape()
      modifies this, count, state
      ensures Valid() && !finalized && base == IV && message == []
    {
      hide Absorb;
      finalized := false;
      count[0], count[1] := 0, 0;
      state[0], state[1], state[2], state[3] := 0x67452301, 0xefcdab89, 0x98badcfe, 0x10325476;
      base, message, blocks := IV, [], 0;
      AbsorbNothing(IV);
    }

    static method CopyBytes(dst: array<byte>, at: nat, src: array<byte>, from: nat, n: nat)
      requires dst != src && at + n <= dst.Length && from + n <= src.Length
      modifies dst
      ensures dst[..at + n] == old(dst[..at]) + src[from..from + n]
      ensures dst[at + n..] == old(dst[at + n..])
    {
      forall k | 0 <= k < n {
        dst[at + k] := src[from + k];
      }
    }

    static method Decode(output: array<uint32>, input: array<byte>, off: nat, len: nat)
      requires len % 4 == 0 && off + len <= input.Length && len / 4 <= output.Length
      modifies output
      ensures output[..len / 4] == Decoded(input[off..off + len])
      ensures output[len / 4..] == old(output[len / 4..])
    {
      var i, j := 0, 0;
      while j < len
        invariant j == 4 * i <= len
        invariant forall k :: 0 <= k < i ==> output[k] == WordAt(input[off..off + len], k)
        invariant output[len / 4..] == old(output[len / 4..])
      {
        output[i] := input[off + j] as int + 0x100 * input[off + j + 1] as int
          + 0x1_0000 * input[off + j + 2] as int + 0x100_0000 * input[off + j + 3] as int;
        i, j := i + 1, j + 4;
      }
    }

    static method Encode(output: array<byte>, input: array<uint32>, len: nat)
      requires len % 4 == 0 && len <= output.Length && len / 4 <= input.Length
      modifies output
      ensures output[..len] == Encoded(input[..len / 4])
      ensures output[len..] == old(output[len..])
    {
      hide ByteOf;
      var i, j := 0, 0;
      while j < len
        invariant j == 4 * i <= len
        invariant forall k :: 0 <= k < j ==> output[k] == ByteOf(input[k / 4], k % 4)
        invariant output[len..] == old(output[len..])
      {
        output[j] := ByteOf(input[i], 0);
        output[j + 1] := ByteOf(input[i], 1);
        output[j + 2] := ByteOf(input[i], 2);
        output[j + 3] := ByteOf(input[i], 3);
        i, j := i + 1, j + 4;
      }
    }

    method Transform(block: array<byte>, off: nat)
      requires Shape() && off + 64 <= block.Length
      modifies state
      ensures Registers() == Compress(old(Registers()), block[off..off + 64])
    {
      hide Steps;
      var x := new uint32[16];
      Decode(x, block, off, 64);
      assert x[..] == WordsOf(block[off..off + 64]);
      var r := Chain(state[0], state[1], state[2], state[3]);
      var q := Unrolled(x, r);
      state[0] := Add(state[0], q.a);
      state[1] := Add(state[1], q.b);
      state[2] := Add(state[2], q.c);
      state[3] := Add(state[3], q.d);
    }

    // The two counter words after `length` more bytes, carry included.
    method Tally(length: nat)
      requires Shape() && Counted(count[0], count[1], |message|) && length < 0x1_0000_0000
      modifies count
      ensures Counted(count[0], count[1], |message| + length)
    {
      hide Wrap32, Counted;
      ghost var lo, hi := count[0], count[1];
      var bits := Wrap32(8 * length);
      count[0] := Wrap32(count[0] as int + bits as int);
      if count[0] < bits {
        count[1] := Wrap32(count[1] as int + 1);
      }
      ghost var mid := count[1];
      count[1] := Wrap32(count[1] as int + length / 0x2000_0000);
      CarryIsAddition(lo, hi, |message|, length, bits, count[0], mid, count[1]);
    }

    // Fills the buffer, transforms it, then transforms whole blocks straight from the input.
    method AbsorbBlocks(input: array<byte>, length: nat, index: nat) returns (i: nat)
      requires Shape() && input != buffer && length <= input.Length && length < 0x1_0000_0000
      requires index < 64 && 64 * blocks + index == |message| && buffer[..index] == message[64 * blocks..]
      requires Registers() == Absorb(base, message, blocks)
      requires 64 - index <= length && BlockLoopEnds(index, length)
      modifies this`blocks, buffer, state
      ensures i <= length < i + 64 && 64 * blocks == |message| + i
      ensures Registers() == Absorb(base, message + input[..length], blocks)
    {
      hide Compress, Absorb, Wrap32, BlockLoopEnds;
      FillBuffer(input, length, index);
      i := 64 - index;
      ghost var m := 1;
      GuardIsExact(index, length, m);
      while LoopGuard(i, length)
        invariant m >= 1 && i == 64 * m - index <= length && 64 * blocks == |message| + i
        invariant Wrap32(i + 64) == i + 64
        invariant Registers() == Absorb(base, message + input[..length], blocks)
        decreases length - i
      {
        AbsorbBlock(input, length, i);
        i, m := Wrap32(i + 64), m + 1;
        GuardIsExact(index, length, m);
      }
    }

    method AbsorbBlock(input: array<byte>, length: nat, i: nat)
      requires Shape() && length <= input.Length && i + 64 <= length && 64 * blocks == |message| + i
      requires Registers() == Absorb(base, message + input[..length], blocks)
      modifies this`blocks, state
      ensures blocks == old(blocks) + 1 && Registers() == Absorb(base, message + input[..length], blocks)
    {
      hide Compress, Absorb;
      ghost var block := input[i..i + 64];
      assert block == input[..length][i..i + 64];
      Transform(input, i);
      PieceBlock(message, input[..length], i, blocks);
      AbsorbNext(base, message + input[..length], blocks, block);
      blocks := blocks + 1;
    }

    // The first block is what the buffer held and the start of the input.
    method FillBuffer(input: array<byte>, length: nat, index: nat)
      requires Shape() && input != buffer && length <= input.Length
      requires index < 64 && 64 * blocks + index == |message| && buffer[..index] == message[64 * blocks..]
      requires Registers() == Absorb(base, message, blocks)
      requires 64 - index <= length
      modifies this`blocks, buffer, state
      ensures blocks == old(blocks) + 1 && Registers() == Absorb(base, message + input[..length], blocks)
    {
      hide Compress, Absorb;
      ghost var all := message + input[..length];
      AbsorbExtended(base, message, input[..length], blocks);
      CopyBytes(buffer, index, input, 0, 64 - index);
      FirstBlock(message, input[..length], index, blocks);
      assert input[0..64 - index] == input[..length][..64 - index] && buffer[0..64] == buffer[..64];
      Transform(buffer, 0);
      AbsorbNext(base, all, blocks, buffer[0..64]);
      blocks := blocks + 1;
    }

    method Update(input: array<byte>, length: nat)
      requires Valid() && input != buffer
      requires length <= input.Length && length < 0x1_0000_0000
      requires BlockLoopEnds(|message| - 64 * blocks, length)
      modifies this`message, this`blocks, buffer, count, state
      ensures Valid() && message == old(message) + input[..length]
    {
      hide Compress, Absorb, Counted, BlockLoopEnds, Wrap32;
      IndexOfCount(count[0], count[1], |message|, blocks);
      var index := count[0] / 8 % 64;
      Tally(length);
      ghost var all := message + input[..length];
      var i, at := Feed(input, length, index);
      CopyBytes(buffer, at, input, i, length - i);
      message := all;
    }

    // Absorbs whole blocks. What is left is the buffer's first `at` bytes and the input from i.
    method Feed(input: array<byte>, length: nat, index: nat) returns (i: nat, at: nat)
      requires Shape() && input != buffer && length <= input.Length && length < 0x1_0000_0000
      requires index < 64 && 64 * blocks + index == |message| && buffer[..index] == message[64 * blocks..]
      requires Registers() == Absorb(base, message, blocks) && BlockLoopEnds(index, length)
      modifies this`blocks, buffer, state
      ensures i <= length && 64 * blocks + at + length - i == |message| + length && at + length - i < 64
      ensures buffer[..at] + input[i..length] == (message + input[..length])[64 * blocks..]
      ensures Registers() == Absorb(base, message + input[..length], blocks)
    {
      hide Compress, Absorb, BlockLoopEnds, Wrap32;
      i, at := 0, index;
      if length >= 64 - index {
        i := AbsorbBlocks(input, length, index);
        at := 0;
      } else {
        AbsorbExtended(base, message, input[..length], blocks);
      }
      LeftOver(message, input[..length], 64 * blocks);
      assert input[i..length] == input[..length][i..];
    }

    method CountBits() returns (bits: array<byte>)
      requires Shape() && Counted(count[0], count[1], |message|)
      ensures fresh(bits) && bits[..] == LittleEndian(8 * |message|, 8)
    {
      hide Counted, Encoded, LittleEndian;
      bits := new byte[8];
      Encode(bits, count, 8);
      assert count[..2] == [count[0], count[1]] && bits[..8] == bits[..];
      CountBytes(count[0], count[1], |message|);
    }

    // Feeds the padding and the bit length counted before it.
    method PadOut()
      requires Valid()
      modifies this`message, this`blocks, buffer, count, state
      ensures Shape() && Valid() && message == Pad(old(message))
      ensures Registers() == Absorb(base, message, BlockCount(|old(message)|))
    {
      hide Compress, Absorb, Counted, BlockLoopEnds, LittleEndian, ZeroCount;
      var bits := CountBits();
      IndexOfCount(count[0], count[1], |message|, blocks);
      var index := count[0] / 8 % 64;
      var padLen := if index < 56 then 56 - index else 120 - index;
      var padding := new byte[64](i => if i == 0 then 0x80 else 0);
      PaddingLength(|message|, blocks, padLen);
      assert padding[..padLen] == [0x80] + Zeros(ZeroCount(|message|));
      ShortCallsEnd(index, padLen);
      Update(padding, padLen);
      ShortCallsEnd(|message| - 64 * blocks, 8);
      Update(bits, 8);
      assert blocks == BlockCount(|old(message)|);
    }

    method StoreDigest()
      requires Shape()
      modifies digest
      ensures digest[..] == Output(Registers())
    {
      hide Encoded, Output;
      Encode(digest, state, 16);
      OutputIsEncoded(Registers());
      assert state[..4] == [state[0], state[1], state[2], state[3]];
    }

    method Zeroize()
      requires Shape()
      modifies this`base, this`message, this`blocks, buffer, count
      ensures Shape() && Valid() && message == []
      ensures forall i :: 0 <= i < 64 ==> buffer[i] == 0
    {
      hide Compress, Absorb, Counted;
      forall i | 0 <= i < 64 {
        buffer[i] := 0;
      }
      count[0], count[1] := 0, 0;
      CountedIs(0, 0, 0, 0);
      base, message, blocks := Registers(), [], 0;
      AbsorbNothing(base);
    }

    method Finalize()
      requires Shape() && (!finalized ==> Valid())
      modifies this, buffer, count, state, digest
      ensures Shape() && finalized
      ensures digest[..] == if old(finalized) then old(digest[..])
                            else Output(Absorb(old(base), Pad(old(message)), BlockCount(|old(message)|)))
      ensures if old(finalized) then unchanged(this, buffer, count, state)
              else Valid() && message == [] && (forall i :: 0 <= i < 64 ==> buffer[i] == 0)
    {
      if !finalized {
        hide *;
        PadOut();
        StoreDigest();
        Zeroize();
        finalized := true;
      }
    }
  }

  // ---------- However the input is cut ----------

  function Flatten(pieces: seq<seq<byte>>): seq<byte> {
    if |pieces| == 0 then [] else Flatten(pieces[..|pieces| - 1]) + pieces[|pieces| - 1]
  }

  // Piece i fits the length argument, and its block loop ends on top of the bytes left over before it.
  predicate PieceEnds(pieces: seq<seq<byte>>, i: nat)
    requires i < |pieces|
  {
    |pieces[i]| < 0x1_0000_0000 && BlockLoopEnds(|Flatten(pieces[..i])| % 64, |pieces[i]|)
  }

  // One engine fed piece by piece hashes the concatenation, whenever every call returns.
  method HashPieces(pieces: seq<seq<byte>>) returns (digest: seq<byte>)
    requires forall i :: 0 <= i < |pieces| ==> PieceEnds(pieces, i)
    ensures digest == Digest(Flatten(pieces))
  {
    hide Absorb, BlockLoopEnds, Counted;
    var md5 := new Md5();
    for k := 0 to |pieces|
      invariant md5.Valid() && !md5.finalized && md5.base == IV
      invariant fresh(md5) && fresh(md5.buffer) && fresh(md5.count) && fresh(md5.state) && fresh(md5.digest)
      invariant md5.message == Flatten(pieces[..k])
    {
      var piece := pieces[k];
      var input := new byte[|piece|](i requires 0 <= i < |piece| => piece[i]);
      assert PieceEnds(pieces, k) && |md5.message| - 64 * md5.blocks == |md5.message| % 64;
      md5.Update(input, |piece|);
      assert input[..|piece|] == piece;
      assert pieces[..k + 1][..k] == pieces[..k];
    }
    assert pieces[..|pieces|] == pieces;
    md5.Finalize();
    digest := md5.digest[..];
  }
}
