/**
  The MD5 message digest as RFC 1321 defines it (sections 3.1 to 3.5): pad the whole
  message, append its length, compress block by block with the table-driven rounds,
  and write the four registers low-order byte first.
*/
module Md5Spec {

  type Word = bv32
  type Octet = bv8

  datatype Regs = Regs(a: Word, b: Word, c: Word, d: Word)

  const INITIAL: Regs := Regs(0x67452301, 0xefcdab89, 0x98badcfe, 0x10325476)

  // T[1..64] of section 3.4, counted from 0, in rows of eight.
  function Sines(row: nat): (t: seq<Word>)
    requires row < 8
    ensures |t| == 8
  {
    if row == 0 then
      [0xd76aa478, 0xe8c7b756, 0x242070db, 0xc1bdceee, 0xf57c0faf, 0x4787c62a, 0xa8304613, 0xfd469501]
    else if row == 1 then
      [0x698098d8, 0x8b44f7af, 0xffff5bb1, 0x895cd7be, 0x6b901122, 0xfd987193, 0xa679438e, 0x49b40821]
    else if row == 2 then
      [0xf61e2562, 0xc040b340, 0x265e5a51, 0xe9b6c7aa, 0xd62f105d, 0x02441453, 0xd8a1e681, 0xe7d3fbc8]
    else if row == 3 then
      [0x21e1cde6, 0xc33707d6, 0xf4d50d87, 0x455a14ed, 0xa9e3e905, 0xfcefa3f8, 0x676f02d9, 0x8d2a4c8a]
    else if row == 4 then
      [0xfffa3942, 0x8771f681, 0x6d9d6122, 0xfde5380c, 0xa4beea44, 0x4bdecfa9, 0xf6bb4b60, 0xbebfbc70]
    else if row == 5 then
      [0x289b7ec6, 0xeaa127fa, 0xd4ef3085, 0x04881d05, 0xd9d4d039, 0xe6db99e5, 0x1fa27cf8, 0xc4ac5665]
    else if row == 6 then
      [0xf4292244, 0x432aff97, 0xab9423a7, 0xfc93a039, 0x655b59c3, 0x8f0ccc92, 0xffeff47d, 0x85845dd1]
    else
      [0x6fa87e4f, 0xfe2ce6e0, 0xa3014314, 0x4e0811a1, 0xf7537e82, 0xbd3af235, 0x2ad7d2bb, 0xeb86d391]
  }

  function T(i: nat): Word
    requires i < 64
  {
    Sines(i / 8)[i % 8]
  }

  // Section 3.4: the four auxiliary functions.
  function F(x: Word, y: Word, z: Word): Word { (x & y) | (!x & z) }
  function G(x: Word, y: Word, z: Word): Word { (x & z) | (y & !z) }
  function H(x: Word, y: Word, z: Word): Word { x ^ y ^ z }
  function I(x: Word, y: Word, z: Word): Word { y ^ (x | !z) }

  // Which auxiliary function, message word and shift step i (0..63) uses.
  function Mix(i: nat, x: Word, y: Word, z: Word): Word {
    if i < 16 then F(x, y, z) else if i < 32 then G(x, y, z) else if i < 48 then H(x, y, z) else I(x, y, z)
  }

  function WordIndex(i: nat): (k: nat)
    ensures k < 16
  {
    if i < 16 then i else if i < 32 then (5 * i + 1) % 16 else if i < 48 then (3 * i + 5) % 16 else (7 * i) % 16
  }

  // The four shift amounts of a round, for steps 0, 1, 2 and 3 modulo 4.
  function OneOf(i: nat, s0: nat, s1: nat, s2: nat, s3: nat): nat {
    if i % 4 == 0 then s0 else if i % 4 == 1 then s1 else if i % 4 == 2 then s2 else s3
  }

  function Shift(i: nat): (s: nat)
    ensures s < 32
  {
    if i < 16 then OneOf(i, 7, 12, 17, 22)
    else if i < 32 then OneOf(i, 5, 9, 14, 20)
    else if i < 48 then OneOf(i, 4, 11, 16, 23)
    else OneOf(i, 6, 10, 15, 21)
  }

  // X <<< s: the word shifted left circularly by s bit positions.
  function Rotate(x: Word, s: nat): Word
    requires s < 32
  {
    (x << s) | (x >> (32 - s))
  }

  // a = b + ((a + m + x + t) <<< s), where m is the auxiliary function of b, c and d.
  function Update(a: Word, m: Word, x: Word, t: Word, s: nat, b: Word): Word
    requires s < 32
  {
    b + Rotate(a + m + x + t, s)
  }

  // One operation [abcd k s i], followed by the rotation of the register roles.
  function Operation(r: Regs, x: seq<Word>, i: nat): Regs
    requires |x| == 16 && i < 64
  {
    Regs(r.d, Update(r.a, Mix(i, r.b, r.c, r.d), x[WordIndex(i)], T(i), Shift(i), r.b), r.b, r.c)
  }

  function Operations(r: Regs, x: seq<Word>, n: nat): Regs
    requires |x| == 16 && n <= 64
  {
    if n == 0 then r else Operation(Operations(r, x, n - 1), x, n - 1)
  }

  // Bytes to words, low-order byte first (section 2).
  function WordAt(s: seq<Octet>, i: nat): Word
    requires 4 * i + 4 <= |s|
  {
    (s[4 * i] as Word) + ((s[4 * i + 1] as Word) << 8) + ((s[4 * i + 2] as Word) << 16) + ((s[4 * i + 3] as Word) << 24)
  }

  function Words(block: seq<Octet>): (x: seq<Word>)
    requires |block| == 64
    ensures |x| == 16
  {
    seq(16, i requires 0 <= i < 16 => WordAt(block, i))
  }

  function Add(x: Word, y: Word): Word { x + y }

  // Each register is incremented by the value it had before the block.
  function Increment(r: Regs, q: Regs): Regs {
    Regs(Add(r.a, q.a), Add(r.b, q.b), Add(r.c, q.c), Add(r.d, q.d))
  }

  function Compress(r: Regs, block: seq<Octet>): Regs
    requires |block| == 64
  {
    Increment(r, Operations(r, Words(block), 64))
  }

  // Compress every whole 64-byte block of s, in order.
  function Blocks(r: Regs, s: seq<Octet>): Regs
    requires |s| % 64 == 0
  {
    if |s| == 0 then r else Compress(Blocks(r, s[..|s| - 64]), s[|s| - 64..])
  }

  // Section 3.1: at least one and at most 64 padding bytes.
  function PadLength(n: nat): (k: nat)
    ensures 1 <= k <= 64 && (n + k) % 64 == 56
  {
    (55 - n) % 64 + 1
  }

  function Padding(k: nat): (p: seq<Octet>)
    requires k >= 1
    ensures |p| == k
  {
    [0x80] + seq(k - 1, _ => 0)
  }

  function OctetOf(v: nat): Octet
    requires v < 256
  {
    v as Octet
  }

  // Section 3.2: the low-order 64 bits of the length in bits, low-order byte first.
  function LengthOctets(n: nat): (s: seq<Octet>)
    ensures |s| == 8
  {
    var bits := (8 * n) % 0x1_0000_0000_0000_0000;
    [ OctetOf(bits % 256), OctetOf(bits / 0x100 % 256),
      OctetOf(bits / 0x1_0000 % 256), OctetOf(bits / 0x100_0000 % 256),
      OctetOf(bits / 0x1_0000_0000 % 256), OctetOf(bits / 0x100_0000_0000 % 256),
      OctetOf(bits / 0x1_0000_0000_0000 % 256), OctetOf(bits / 0x100_0000_0000_0000 % 256) ]
  }

  lemma LengthFillsBlock(n: nat)
    requires n % 64 == 56
    ensures (n + 8) % 64 == 0
  {
  }

  function Padded(msg: seq<Octet>): (s: seq<Octet>)
    ensures |s| % 64 == 0
  {
    var k := PadLength(|msg|);
    LengthFillsBlock(|msg| + k);
    msg + Padding(k) + LengthOctets(|msg|)
  }

  function WordOctets(w: Word): (s: seq<Octet>)
    ensures |s| == 4
  {
    [ (w & 0xff) as Octet, ((w >> 8) & 0xff) as Octet, ((w >> 16) & 0xff) as Octet, ((w >> 24) & 0xff) as Octet ]
  }

  // Section 3.5.
  function Serialise(r: Regs): (s: seq<Octet>)
    ensures |s| == 16
  {
    WordOctets(r.a) + WordOctets(r.b) + WordOctets(r.c) + WordOctets(r.d)
  }

  function Digest(msg: seq<Octet>): (s: seq<Octet>)
    ensures |s| == 16
  {
    Serialise(Blocks(INITIAL, Padded(msg)))
  }
}
