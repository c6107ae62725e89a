/** The MD5 message digest as RFC 1321 defines it: padding (sections 3.1 and 3.2), the initial
    chaining value (section 3.3) and the compression of one 64-byte block written as an indexed
    loop over 64 steps (section 3.4). Nothing here buffers, counts or unrolls. */
module Rfc1321 {
  type byte = x: int | 0 <= x < 0x100
  type uint32 = x: int | 0 <= x < 0x1_0000_0000
  type Block = s: seq<byte> | |s| == 64 witness seq(64, _ => 0)
  type Words = s: seq<uint32> | |s| == 16 witness seq(16, _ => 0)

  // The four registers A, B, C, D.
  datatype Chain = Chain(a: uint32, b: uint32, c: uint32, d: uint32)

  const IV: Chain := Chain(0x67452301, 0xefcdab89, 0x98badcfe, 0x10325476)

  // The step constants T[1..64].
  function T(i: nat): uint32
    requires i < 64
  {
    if i < 16 then
      [
        [0xd76aa478, 0xe8c7b756, 0x242070db, 0xc1bdceee],
        [0xf57c0faf, 0x4787c62a, 0xa8304613, 0xfd469501],
        [0x698098d8, 0x8b44f7af, 0xffff5bb1, 0x895cd7be],
        [0x6b901122, 0xfd987193, 0xa679438e, 0x49b40821]
      ][(i % 16) / 4][i % 4]
    else if i < 32 then
      [
        [0xf61e2562, 0xc040b340, 0x265e5a51, 0xe9b6c7aa],
        [0xd62f105d, 0x2441453, 0xd8a1e681, 0xe7d3fbc8],
        [0x21e1cde6, 0xc33707d6, 0xf4d50d87, 0x455a14ed],
        [0xa9e3e905, 0xfcefa3f8, 0x676f02d9, 0x8d2a4c8a]
      ][(i % 16) / 4][i % 4]
    else if i < 48 then
      [
        [0xfffa3942, 0x8771f681, 0x6d9d6122, 0xfde5380c],
        [0xa4beea44, 0x4bdecfa9, 0xf6bb4b60, 0xbebfbc70],
        [0x289b7ec6, 0xeaa127fa, 0xd4ef3085, 0x4881d05],
        [0xd9d4d039, 0xe6db99e5, 0x1fa27cf8, 0xc4ac5665]
      ][(i % 16) / 4][i % 4]
    else
      [
        [0xf4292244, 0x432aff97, 0xab9423a7, 0xfc93a039],
        [0x655b59c3, 0x8f0ccc92, 0xffeff47d, 0x85845dd1],
        [0x6fa87e4f, 0xfe2ce6e0, 0xa3014314, 0x4e0811a1],
        [0xf7537e82, 0xbd3af235, 0x2ad7d2bb, 0xeb86d391]
      ][(i % 16) / 4][i % 4]
  }

  function F(x: uint32, y: uint32, z: uint32): uint32 {
    (((x as bv32) & (y as bv32)) | ((!(x as bv32)) & (z as bv32))) as uint32
  }

  function G(x: uint32, y: uint32, z: uint32): uint32 {
    (((x as bv32) & (z as bv32)) | ((y as bv32) & (!(z as bv32)))) as uint32
  }

  function H(x: uint32, y: uint32, z: uint32): uint32 {
    ((x as bv32) ^ (y as bv32) ^ (z as bv32)) as uint32
  }

  function I(x: uint32, y: uint32, z: uint32): uint32 {
    ((y as bv32) ^ ((x as bv32) | (!(z as bv32)))) as uint32
  }

  function RotateLeft(x: uint32, n: nat): uint32
    requires 0 < n < 32
  {
    ((x as bv32 << n) | (x as bv32 >> (32 - n))) as uint32
  }

  function Add(x: int, y: int): uint32 {
    (x + y) % 0x1_0000_0000
  }

  // Which auxiliary function, message word and rotation step i uses.
  function Mix(i: nat, x: uint32, y: uint32, z: uint32): uint32
    requires i < 64
  {
    if i < 16 then F(x, y, z) else if i < 32 then G(x, y, z) else if i < 48 then H(x, y, z) else I(x, y, z)
  }

  function WordIndex(i: nat): nat
    requires i < 64
  {
    if i < 16 then i else if i < 32 then (5 * i + 1) % 16 else if i < 48 then (3 * i + 5) % 16 else (7 * i) % 16
  }

  function Rotation(i: nat): (s: nat)
    requires i < 64
    ensures 0 < s < 32
  {
    [[7, 12, 17, 22], [5, 9, 14, 20], [4, 11, 16, 23], [6, 10, 15, 21]][i / 16][i % 4]
  }

  function Step(x: Words, i: nat, r: Chain): Chain
    requires i < 64
  {
    var t := Add(Add(Add(r.a, Mix(i, r.b, r.c, r.d)), x[WordIndex(i)]), T(i));
    Chain(r.d, Add(RotateLeft(t, Rotation(i)), r.b), r.b, r.c)
  }

  function Steps(x: Words, n: nat, r: Chain): Chain
    requires n <= 64
  {
    if n == 0 then r else Step(x, n - 1, Steps(x, n - 1, r))
  }

  // Little-endian words of a block.
  function WordAt(s: seq<byte>, i: nat): uint32
    requires 4 * i + 4 <= |s|
  {
    s[4 * i] as int + 0x100 * s[4 * i + 1] as int + 0x1_0000 * s[4 * i + 2] as int + 0x100_0000 * s[4 * i + 3] as int
  }

  function WordsOf(block: Block): Words {
    seq(16, i requires 0 <= i < 16 => WordAt(block, i))
  }

  function Compress(r: Chain, block: Block): Chain {
    var q := Steps(WordsOf(block), 64, r);
    Chain(Add(r.a, q.a), Add(r.b, q.b), Add(r.c, q.c), Add(r.d, q.d))
  }

  // The first n blocks of the data, one after the other.
  function Absorb(r: Chain, data: seq<byte>, n: nat): Chain
    requires 64 * n <= |data|
  {
    if n == 0 then r else Compress(Absorb(r, data, n - 1), data[64 * (n - 1)..64 * n])
  }

  // n as k bytes, least significant first, modulo 256^k.
  function LittleEndian(n: nat, k: nat): (s: seq<byte>)
    ensures |s| == k
  {
    if k == 0 then [] else [n % 0x100] + LittleEndian(n / 0x100, k - 1)
  }

  function Zeros(n: nat): (s: seq<byte>)
    ensures |s| == n
  {
    seq(n, _ => 0)
  }

  // How many whole blocks the padded message takes.
  function BlockCount(n: nat): nat {
    (n + 8) / 64 + 1
  }

  // The fewest zeros that bring the message and its 0x80 byte to 56 modulo 64.
  function ZeroCount(n: nat): (z: nat)
    ensures z < 64 && (n + 1 + z) % 64 == 56
    ensures n + 1 + z + 8 == 64 * BlockCount(n)
  {
    (55 - n) % 64
  }

  // One 0x80 byte, the zeros, then the bit length modulo 2^64.
  function Pad(message: seq<byte>): (s: seq<byte>)
    ensures |s| == 64 * BlockCount(|message|)
  {
    message + [0x80] + Zeros(ZeroCount(|message|)) + LittleEndian(8 * |message|, 8)
  }

  function Output(r: Chain): (s: seq<byte>)
    ensures |s| == 16
  {
    LittleEndian(r.a, 4) + LittleEndian(r.b, 4) + LittleEndian(r.c, 4) + LittleEndian(r.d, 4)
  }

  function Digest(message: seq<byte>): seq<byte> {
    Output(Absorb(IV, Pad(message), BlockCount(|message|)))
  }
}
