/** The compression of one block as the engine runs it: 64 straight-line steps over four registers
    whose roles rotate from one line to the next, with literal message indices, rotations and
    constants (external/uuid/md5.cpp, lines 41-98 and 161-245). */
module Md5Transform {
  import opened Rfc1321

  const S11 := 7
  const S12 := 12
  const S13 := 17
  const S14 := 22
  const S21 := 5
  const S22 := 9
  const S23 := 14
  const S24 := 20
  const S31 := 4
  const S32 := 11
  const S33 := 16
  const S34 := 23
  const S41 := 6
  const S42 := 10
  const S43 := 15
  const S44 := 21

  function FF(a: uint32, b: uint32, c: uint32, d: uint32, x: uint32, s: nat, ac: uint32): uint32
    requires 0 < s < 32
  {
    Add(RotateLeft(Add(Add(Add(a, F(b, c, d)), x), ac), s), b)
  }

  function GG(a: uint32, b: uint32, c: uint32, d: uint32, x: uint32, s: nat, ac: uint32): uint32
    requires 0 < s < 32
  {
    Add(RotateLeft(Add(Add(Add(a, G(b, c, d)), x), ac), s), b)
  }

  function HH(a: uint32, b: uint32, c: uint32, d: uint32, x: uint32, s: nat, ac: uint32): uint32
    requires 0 < s < 32
  {
    Add(RotateLeft(Add(Add(Add(a, H(b, c, d)), x), ac), s), b)
  }

  function II(a: uint32, b: uint32, c: uint32, d: uint32, x: uint32, s: nat, ac: uint32): uint32
    requires 0 < s < 32
  {
    Add(RotateLeft(Add(Add(Add(a, I(b, c, d)), x), ac), s), b)
  }

  // Step n of the indexed loop, as an assignment to the register that plays the role of A.
  ghost function Op(n: nat, a: uint32, b: uint32, c: uint32, d: uint32, x: Words): uint32
    requires n < 64
  {
    Add(RotateLeft(Add(Add(Add(a, Mix(n, b, c, d)), x[WordIndex(n)]), T(n)), Rotation(n)), b)
  }

  // After four steps the four roles are back where they started.
  lemma FourSteps(x: Words, n: nat, r: Chain, a: uint32, b: uint32, c: uint32, d: uint32)
    requires n + 4 <= 64 && Steps(x, n, r) == Chain(a, b, c, d)
    ensures
      var a' := Op(n, a, b, c, d, x);
      var d' := Op(n + 1, d, a', b, c, x);
      var c' := Op(n + 2, c, d', a', b, x);
      var b' := Op(n + 3, b, c', d', a', x);
      Steps(x, n + 4, r) == Chain(a', b', c', d')
  {
    hide F, G, H, I, RotateLeft, Add, Mix, WordIndex, T, Rotation;
    assert Steps(x, n + 2, r) == Step(x, n + 1, Steps(x, n + 1, r));
    assert Steps(x, n + 3, r) == Step(x, n + 2, Steps(x, n + 2, r));
  }

  // Steps 1 to 16.
  method Round1(x: array<uint32>, ghost r: Chain, q: Chain) returns (q': Chain)
    requires x.Length == 16 && q == Steps(x[..], 0, r)
    ensures q' == Steps(x[..], 16, r)
  {
    hide F, G, H, I, RotateLeft, Add, Steps;
    var a, b, c, d := q.a, q.b, q.c, q.d;
    FourSteps(x[..], 0, r, a, b, c, d);
    a := FF(a, b, c, d, x[0], S11, 0xd76aa478);
    d := FF(d, a, b, c, x[1], S12, 0xe8c7b756);
    c := FF(c, d, a, b, x[2], S13, 0x242070db);
    b := FF(b, c, d, a, x[3], S14, 0xc1bdceee);
    assert Steps(x[..], 4, r) == Chain(a, b, c, d);
    FourSteps(x[..], 4, r, a, b, c, d);
    a := FF(a, b, c, d, x[4], S11, 0xf57c0faf);
    d := FF(d, a, b, c, x[5], S12, 0x4787c62a);
    c := FF(c, d, a, b, x[6], S13, 0xa8304613);
    b := FF(b, c, d, a, x[7], S14, 0xfd469501);
    assert Steps(x[..], 8, r) == Chain(a, b, c, d);
    FourSteps(x[..], 8, r, a, b, c, d);
    a := FF(a, b, c, d, x[8], S11, 0x698098d8);
    d := FF(d, a, b, c, x[9], S12, 0x8b44f7af);
    c := FF(c, d, a, b, x[10], S13, 0xffff5bb1);
    b := FF(b, c, d, a, x[11], S14, 0x895cd7be);
    assert Steps(x[..], 12, r) == Chain(a, b, c, d);
    FourSteps(x[..], 12, r, a, b, c, d);
    a := FF(a, b, c, d, x[12], S11, 0x6b901122);
    d := FF(d, a, b, c, x[13], S12, 0xfd987193);
    c := FF(c, d, a, b, x[14], S13, 0xa679438e);
    b := FF(b, c, d, a, x[15], S14, 0x49b40821);
    assert Steps(x[..], 16, r) == Chain(a, b, c, d);
    q' := Chain(a, b, c, d);
  }

  // Steps 17 to 32.
  method Round2(x: array<uint32>, ghost r: Chain, q: Chain) returns (q': Chain)
    requires x.Length == 16 && q == Steps(x[..], 16, r)
    ensures q' == Steps(x[..], 32, r)
  {
    hide F, G, H, I, RotateLeft, Add, Steps;
    var a, b, c, d := q.a, q.b, q.c, q.d;
    FourSteps(x[..], 16, r, a, b, c, d);
    a := GG(a, b, c, d, x[1], S21, 0xf61e2562);
    d := GG(d, a, b, c, x[6], S22, 0xc040b340);
    c := GG(c, d, a, b, x[11], S23, 0x265e5a51);
    b := GG(b, c, d, a, x[0], S24, 0xe9b6c7aa);
    assert Steps(x[..], 20, r) == Chain(a, b, c, d);
    FourSteps(x[..], 20, r, a, b, c, d);
    a := GG(a, b, c, d, x[5], S21, 0xd62f105d);
    d := GG(d, a, b, c, x[10], S22, 0x2441453);
    c := GG(c, d, a, b, x[15], S23, 0xd8a1e681);
    b := GG(b, c, d, a, x[4], S24, 0xe7d3fbc8);
    assert Steps(x[..], 24, r) == Chain(a, b, c, d);
    FourSteps(x[..], 24, r, a, b, c, d);
    a := GG(a, b, c, d, x[9], S21, 0x21e1cde6);
    d := GG(d, a, b, c, x[14], S22, 0xc33707d6);
    c := GG(c, d, a, b, x[3], S23, 0xf4d50d87);
    b := GG(b, c, d, a, x[8], S24, 0x455a14ed);
    assert Steps(x[..], 28, r) == Chain(a, b, c, d);
    FourSteps(x[..], 28, r, a, b, c, d);
    a := GG(a, b, c, d, x[13], S21, 0xa9e3e905);
    d := GG(d, a, b, c, x[2], S22, 0xfcefa3f8);
    c := GG(c, d, a, b, x[7], S23, 0x676f02d9);
    b := GG(b, c, d, a, x[12], S24, 0x8d2a4c8a);
    assert Steps(x[..], 32, r) == Chain(a, b, c, d);
    q' := Chain(a, b, c, d);
  }

  // Steps 33 to 48.
  method Round3(x: array<uint32>, ghost r: Chain, q: Chain) returns (q': Chain)
    requires x.Length == 16 && q == Steps(x[..], 32, r)
    ensures q' == Steps(x[..], 48, r)
  {
    hide F, G, H, I, RotateLeft, Add, Steps;
    var a, b, c, d := q.a, q.b, q.c, q.d;
    FourSteps(x[..], 32, r, a, b, c, d);
    a := HH(a, b, c, d, x[5], S31, 0xfffa3942);
    d := HH(d, a, b, c, x[8], S32, 0x8771f681);
    c := HH(c, d, a, b, x[11], S33, 0x6d9d6122);
    b := HH(b, c, d, a, x[14], S34, 0xfde5380c);
    assert Steps(x[..], 36, r) == Chain(a, b, c, d);
    FourSteps(x[..], 36, r, a, b, c, d);
    a := HH(a, b, c, d, x[1], S31, 0xa4beea44);
    d := HH(d, a, b, c, x[4], S32, 0x4bdecfa9);
    c := HH(c, d, a, b, x[7], S33, 0xf6bb4b60);
    b := HH(b, c, d, a, x[10], S34, 0xbebfbc70);
    assert Steps(x[..], 40, r) == Chain(a, b, c, d);
    FourSteps(x[..], 40, r, a, b, c, d);
    a := HH(a, b, c, d, x[13], S31, 0x289b7ec6);
    d := HH(d, a, b, c, x[0], S32, 0xeaa127fa);
    c := HH(c, d, a, b, x[3], S33, 0xd4ef3085);
    b := HH(b, c, d, a, x[6], S34, 0x4881d05);
    assert Steps(x[..], 44, r) == Chain(a, b, c, d);
    FourSteps(x[..], 44, r, a, b, c, d);
    a := HH(a, b, c, d, x[9], S31, 0xd9d4d039);
    d := HH(d, a, b, c, x[12], S32, 0xe6db99e5);
    c := HH(c, d, a, b, x[15], S33, 0x1fa27cf8);
    b := HH(b, c, d, a, x[2], S34, 0xc4ac5665);
    assert Steps(x[..], 48, r) == Chain(a, b, c, d);
    q' := Chain(a, b, c, d);
  }

  // Steps 49 to 64.
  method Round4(x: array<uint32>, ghost r: Chain, q: Chain) returns (q': Chain)
    requires x.Length == 16 && q == Steps(x[..], 48, r)
    ensures q' == Steps(x[..], 64, r)
  {
    hide F, G, H, I, RotateLeft, Add, Steps;
    var a, b, c, d := q.a, q.b, q.c, q.d;
    FourSteps(x[..], 48, r, a, b, c, d);
    a := II(a, b, c, d, x[0], S41, 0xf4292244);
    d := II(d, a, b, c, x[7], S42, 0x432aff97);
    c := II(c, d, a, b, x[14], S43, 0xab9423a7);
    b := II(b, c, d, a, x[5], S44, 0xfc93a039);
    assert Steps(x[..], 52, r) == Chain(a, b, c, d);
    FourSteps(x[..], 52, r, a, b, c, d);
    a := II(a, b, c, d, x[12], S41, 0x655b59c3);
    d := II(d, a, b, c, x[3], S42, 0x8f0ccc92);
    c := II(c, d, a, b, x[10], S43, 0xffeff47d);
    b := II(b, c, d, a, x[1], S44, 0x85845dd1);
    assert Steps(x[..], 56, r) == Chain(a, b, c, d);
    FourSteps(x[..], 56, r, a, b, c, d);
    a := II(a, b, c, d, x[8], S41, 0x6fa87e4f);
    d := II(d, a, b, c, x[15], S42, 0xfe2ce6e0);
    c := II(c, d, a, b, x[6], S43, 0xa3014314);
    b := II(b, c, d, a, x[13], S44, 0x4e0811a1);
    assert Steps(x[..], 60, r) == Chain(a, b, c, d);
    FourSteps(x[..], 60, r, a, b, c, d);
    a := II(a, b, c, d, x[4], S41, 0xf7537e82);
    d := II(d, a, b, c, x[11], S42, 0xbd3af235);
    c := II(c, d, a, b, x[2], S43, 0x2ad7d2bb);
    b := II(b, c, d, a, x[9], S44, 0xeb86d391);
    assert Steps(x[..], 64, r) == Chain(a, b, c, d);
    q' := Chain(a, b, c, d);
  }

  // The 64 steps, then the chaining addition.
  method Unrolled(x: array<uint32>, r: Chain) returns (q: Chain)
    requires x.Length == 16
    ensures q == Steps(x[..], 64, r)
  {
    q := Round1(x, r, r);
    q := Round2(x, r, q);
    q := Round3(x, r, q);
    q := Round4(x, r, q);
  }
}
