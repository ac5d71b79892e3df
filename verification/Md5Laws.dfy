/**
  What the parts of the MD5 specification mean, apart from the algorithm that uses them: bitwise
  laws of the auxiliary functions, the byte order of words, and the digest that section A.5 of RFC
  1321 gives for the empty message.
*/
module Md5Laws {
  import opened Md5Spec

  // ----- Auxiliary functions, bit by bit -----

  // F is y where x is set and z elsewhere.
  lemma FChooses(x: Word, y: Word, z: Word)
    ensures F(x, y, z) & x == y & x
    ensures F(x, y, z) & !x == z & !x
  {
  }

  // G is x where z is set and y elsewhere.
  lemma GChooses(x: Word, y: Word, z: Word)
    ensures G(x, y, z) & z == x & z
    ensures G(x, y, z) & !z == y & !z
  {
  }

  // H is z where x and y agree and its opposite elsewhere.
  lemma HIsParity(x: Word, y: Word, z: Word)
    ensures H(x, y, z) & !(x ^ y) == z & !(x ^ y)
    ensures H(x, y, z) & (x ^ y) == !z & (x ^ y)
  {
  }

  // I is the opposite of y where x is set or z is clear, and y elsewhere.
  lemma IInverts(x: Word, y: Word, z: Word)
    ensures I(x, y, z) & (x | !z) == !y & (x | !z)
    ensures I(x, y, z) & (!x & z) == y & (!x & z)
  {
  }

  // The rotations of the four rounds are circular.
  lemma RotatesInRounds1And2(x: Word)
    ensures Rotate(x, 7) == x.RotateLeft(7) && Rotate(x, 12) == x.RotateLeft(12)
    ensures Rotate(x, 17) == x.RotateLeft(17) && Rotate(x, 22) == x.RotateLeft(22)
    ensures Rotate(x, 5) == x.RotateLeft(5) && Rotate(x, 9) == x.RotateLeft(9)
    ensures Rotate(x, 14) == x.RotateLeft(14) && Rotate(x, 20) == x.RotateLeft(20)
  {
  }

  lemma RotatesInRounds3And4(x: Word)
    ensures Rotate(x, 4) == x.RotateLeft(4) && Rotate(x, 11) == x.RotateLeft(11)
    ensures Rotate(x, 16) == x.RotateLeft(16) && Rotate(x, 23) == x.RotateLeft(23)
    ensures Rotate(x, 6) == x.RotateLeft(6) && Rotate(x, 10) == x.RotateLeft(10)
    ensures Rotate(x, 15) == x.RotateLeft(15) && Rotate(x, 21) == x.RotateLeft(21)
  {
  }

  // ----- Byte order -----

  // The octets of a word are its digits to the base 256, low-order digit first.
  lemma OctetsAreDigits(w: Word)
    ensures WordOctets(w)[0] as Word == w % 0x100
    ensures WordOctets(w)[1] as Word == w / 0x100 % 0x100
    ensures WordOctets(w)[2] as Word == w / 0x1_0000 % 0x100
    ensures WordOctets(w)[3] as Word == w / 0x100_0000
  {
  }

  function Assembled(a: Octet, b: Octet, c: Octet, d: Octet): Word {
    (a as Word) + ((b as Word) << 8) + ((c as Word) << 16) + ((d as Word) << 24)
  }

  lemma OctetsOfAssembled(a: Octet, b: Octet, c: Octet, d: Octet)
    ensures WordOctets(Assembled(a, b, c, d)) == [a, b, c, d]
  {
  }

  // Taking a word of a block apart gives back its bytes.
  lemma WordsAndOctets(s: seq<Octet>, i: nat)
    requires 4 * i + 4 <= |s|
    ensures WordOctets(WordAt(s, i)) == s[4 * i..4 * i + 4]
  {
    var a, b, c, d := s[4 * i], s[4 * i + 1], s[4 * i + 2], s[4 * i + 3];
    OctetsOfAssembled(a, b, c, d);
    assert WordAt(s, i) == Assembled(a, b, c, d);
    hide *;
    assert s[4 * i..4 * i + 4] == [a, b, c, d];
  }

  // ----- The empty message -----

  // The words of its one block.
  const X: seq<Word> := [0x80, 0, 0, 0, 0, 0, 0, 0, 0, 0, 0, 0, 0, 0, 0, 0]

  // One operation with its table entries: m is the mixed word, w the register it writes.
  lemma Op(n: nat, a: Word, b: Word, c: Word, d: Word, m: Word, x: Word, t: Word, s: nat, w: Word)
    requires n < 64 && s < 32
    requires Mix(n, b, c, d) == m && X[WordIndex(n)] == x && T(n) == t && Shift(n) == s
    requires Update(a, m, x, t, s, b) == w
    ensures Operation(Regs(a, b, c, d), X, n) == Regs(d, w, b, c)
  {
    hide Mix, WordIndex, T, Shift, Update;
  }

  // Operations n and n + 1.
  function Two(r: Regs, n: nat): Regs
    requires n < 63
  {
    Operation(Operation(r, X, n), X, n + 1)
  }

  lemma Ops0()
    ensures Two(Regs(0x67452301, 0xefcdab89, 0x98badcfe, 0x10325476), 0)
         == Regs(0x98badcfe, 0xf59592dd, 0xa5202774, 0xefcdab89)
  {
    hide Operation;
    Op(0, 0x67452301, 0xefcdab89, 0x98badcfe, 0x10325476, 0x98badcfe, 0x80, 0xd76aa478, 7, 0xa5202774);
    Op(1, 0x10325476, 0xa5202774, 0xefcdab89, 0x98badcfe, 0xbd9afb8a, 0, 0xe8c7b756, 12, 0xf59592dd);
  }

  lemma Ops2()
    ensures Two(Regs(0x98badcfe, 0xf59592dd, 0xa5202774, 0xefcdab89), 2)
         == Regs(0xa5202774, 0x1b163203, 0xe7f06b23, 0xf59592dd)
  {
    hide Operation;
    Op(2, 0x98badcfe, 0xf59592dd, 0xa5202774, 0xefcdab89, 0xaf482b54, 0, 0x242070db, 17, 0xe7f06b23);
    Op(3, 0xefcdab89, 0xe7f06b23, 0xf59592dd, 0xa5202774, 0xe5900655, 0, 0xc1bdceee, 22, 0x1b163203);
  }

  lemma Ops4()
    ensures Two(Regs(0xa5202774, 0x1b163203, 0xe7f06b23, 0xf59592dd), 4)
         == Regs(0xe7f06b23, 0x2f35d494, 0x32033344, 0x1b163203)
  {
    hide Operation;
    Op(4, 0xa5202774, 0x1b163203, 0xe7f06b23, 0xf59592dd, 0xe791a2df, 0, 0xf57c0faf, 7, 0x32033344);
    Op(5, 0xf59592dd, 0x32033344, 0x1b163203, 0xe7f06b23, 0xd7f27a23, 0, 0x4787c62a, 12, 0x2f35d494);
  }

  lemma Ops6()
    ensures Two(Regs(0xe7f06b23, 0x2f35d494, 0x32033344, 0x1b163203), 6)
         == Regs(0x32033344, 0x9bc13ce9, 0xf5b158db, 0x2f35d494)
  {
    hide Operation;
    Op(6, 0xe7f06b23, 0x2f35d494, 0x32033344, 0x1b163203, 0x32033207, 0, 0xa8304613, 17, 0xf5b158db);
    Op(7, 0x1b163203, 0xf5b158db, 0x2f35d494, 0x32033344, 0x27337394, 0, 0xfd469501, 22, 0x9bc13ce9);
  }

  lemma Ops8()
    ensures Two(Regs(0x32033344, 0x9bc13ce9, 0xf5b158db, 0x2f35d494), 8)
         == Regs(0xf5b158db, 0xfce4a312, 0x3893b991, 0x9bc13ce9)
  {
    hide Operation;
    Op(8, 0x32033344, 0x9bc13ce9, 0xf5b158db, 0x2f35d494, 0xb5b5d8dd, 0, 0x698098d8, 7, 0x3893b991);
    Op(9, 0x2f35d494, 0x3893b991, 0x9bc13ce9, 0xf5b158db, 0xdda178cb, 0, 0x8b44f7af, 12, 0xfce4a312);
  }

  lemma Ops10()
    ensures Two(Regs(0xf5b158db, 0xfce4a312, 0x3893b991, 0x9bc13ce9), 10)
         == Regs(0x3893b991, 0x70768a29, 0xe1ef0576, 0xfce4a312)
  {
    hide Operation;
    Op(10, 0xf5b158db, 0xfce4a312, 0x3893b991, 0x9bc13ce9, 0x3b81bdf9, 0, 0xffff5bb1, 17, 0xe1ef0576);
    Op(11, 0x9bc13ce9, 0xe1ef0576, 0xfce4a312, 0x3893b991, 0xf8f4b993, 0, 0x895cd7be, 22, 0x70768a29);
  }

  lemma Ops12()
    ensures Two(Regs(0x3893b991, 0x70768a29, 0xe1ef0576, 0xfce4a312), 12)
         == Regs(0xe1ef0576, 0x374943a7, 0xf56c7cf1, 0x70768a29)
  {
    hide Operation;
    Op(12, 0x3893b991, 0x70768a29, 0xe1ef0576, 0xfce4a312, 0xece62132, 0, 0x6b901122, 7, 0xf56c7cf1);
    Op(13, 0xfce4a312, 0xf56c7cf1, 0x70768a29, 0xe1ef0576, 0x70e70927, 0, 0xfd987193, 12, 0x374943a7);
  }

  lemma Ops14()
    ensures Two(Regs(0xe1ef0576, 0x374943a7, 0xf56c7cf1, 0x70768a29), 14)
         == Regs(0xf56c7cf1, 0xd6819c6a, 0x5aa53f75, 0x374943a7)
  {
    hide Operation;
    Op(14, 0xe1ef0576, 0x374943a7, 0xf56c7cf1, 0x70768a29, 0x757ec8a9, 0, 0xa679438e, 17, 0x5aa53f75);
    Op(15, 0x70768a29, 0x5aa53f75, 0x374943a7, 0xf56c7cf1, 0xb74943a5, 0, 0x49b40821, 22, 0xd6819c6a);
  }

  lemma Ops16()
    ensures Two(Regs(0xf56c7cf1, 0xd6819c6a, 0x5aa53f75, 0x374943a7), 16)
         == Regs(0x5aa53f75, 0x7bd57a3a, 0x1c7d7513, 0xd6819c6a)
  {
    hide Operation;
    Op(16, 0xf56c7cf1, 0xd6819c6a, 0x5aa53f75, 0x374943a7, 0x5ea53c72, 0, 0xf61e2562, 5, 0x1c7d7513);
    Op(17, 0x374943a7, 0x1c7d7513, 0xd6819c6a, 0x5aa53f75, 0x9c25b51b, 0, 0xc040b340, 9, 0x7bd57a3a);
  }

  lemma Ops18()
    ensures Two(Regs(0x5aa53f75, 0x7bd57a3a, 0x1c7d7513, 0xd6819c6a), 18)
         == Regs(0x1c7d7513, 0xbd782e17, 0xc095f13a, 0x7bd57a3a)
  {
    hide Operation;
    Op(18, 0x5aa53f75, 0x7bd57a3a, 0x1c7d7513, 0xd6819c6a, 0x5afd793b, 0, 0x265e5a51, 14, 0xc095f13a);
    Op(19, 0xd6819c6a, 0xc095f13a, 0x7bd57a3a, 0x1c7d7513, 0x63957b3a, 0x80, 0xe9b6c7aa, 20, 0xbd782e17);
  }

  lemma Ops20()
    ensures Two(Regs(0x1c7d7513, 0xbd782e17, 0xc095f13a, 0x7bd57a3a), 20)
         == Regs(0xc095f13a, 0x68b7b3e3, 0x3d1e3e6c, 0xbd782e17)
  {
    hide Operation;
    Op(20, 0x1c7d7513, 0xbd782e17, 0xc095f13a, 0x7bd57a3a, 0xb950ab12, 0, 0xd62f105d, 5, 0x3d1e3e6c);
    Op(21, 0x7bd57a3a, 0x3d1e3e6c, 0xbd782e17, 0xc095f13a, 0x3d7c3e2d, 0, 0x02441453, 9, 0x68b7b3e3);
  }

  lemma Ops22()
    ensures Two(Regs(0xc095f13a, 0x68b7b3e3, 0x3d1e3e6c, 0xbd782e17), 22)
         == Regs(0x3d1e3e6c, 0xe422531a, 0xeb41643e, 0x68b7b3e3)
  {
    hide Operation;
    Op(22, 0xc095f13a, 0x68b7b3e3, 0x3d1e3e6c, 0xbd782e17, 0x2836326b, 0, 0xd8a1e681, 14, 0xeb41643e);
    Op(23, 0xbd782e17, 0xeb41643e, 0x68b7b3e3, 0x3d1e3e6c, 0x69a1a5af, 0, 0xe7d3fbc8, 20, 0xe422531a);
  }

  lemma Ops24()
    ensures Two(Regs(0x3d1e3e6c, 0xe422531a, 0xeb41643e, 0x68b7b3e3), 24)
         == Regs(0xeb41643e, 0xd28c77c2, 0x306ec122, 0xe422531a)
  {
    hide Operation;
    Op(24, 0x3d1e3e6c, 0xe422531a, 0xeb41643e, 0x68b7b3e3, 0xe362571e, 0, 0x21e1cde6, 5, 0x306ec122);
    Op(25, 0x68b7b3e3, 0x306ec122, 0xe422531a, 0xeb41643e, 0x24625322, 0, 0xc33707d6, 9, 0xd28c77c2);
  }

  lemma Ops26()
    ensures Two(Regs(0xeb41643e, 0xd28c77c2, 0x306ec122, 0xe422531a), 26)
         == Regs(0x306ec122, 0xa0572807, 0xa3c663da, 0xd28c77c2)
  {
    hide Operation;
    Op(26, 0xeb41643e, 0xd28c77c2, 0x306ec122, 0xe422531a, 0xd04cd322, 0, 0xf4d50d87, 14, 0xa3c663da);
    Op(27, 0xe422531a, 0xa3c663da, 0xd28c77c2, 0x306ec122, 0xe2c677c2, 0, 0x455a14ed, 20, 0xa0572807);
  }

  lemma Ops28()
    ensures Two(Regs(0x306ec122, 0xa0572807, 0xa3c663da, 0xd28c77c2), 28)
         == Regs(0xa3c663da, 0xae7813db, 0x13707036, 0xa0572807)
  {
    hide Operation;
    Op(28, 0x306ec122, 0xa0572807, 0xa3c663da, 0xd28c77c2, 0xa146201a, 0, 0xa9e3e905, 5, 0x13707036);
    Op(29, 0xd28c77c2, 0x13707036, 0xa0572807, 0xa3c663da, 0x03516817, 0, 0xfcefa3f8, 9, 0xae7813db);
  }

  lemma Ops30()
    ensures Two(Regs(0xa3c663da, 0xae7813db, 0x13707036, 0xa0572807), 30)
         == Regs(0x13707036, 0xa2205f1f, 0x1c31c384, 0xae7813db)
  {
    hide Operation;
    Op(30, 0xa3c663da, 0xae7813db, 0x13707036, 0xa0572807, 0xb3705033, 0, 0x676f02d9, 14, 0x1c31c384);
    Op(31, 0xa0572807, 0x1c31c384, 0xae7813db, 0x13707036, 0xbc3843cd, 0, 0x8d2a4c8a, 20, 0xa2205f1f);
  }

  lemma Ops32()
    ensures Two(Regs(0x13707036, 0xa2205f1f, 0x1c31c384, 0xae7813db), 32)
         == Regs(0x1c31c384, 0xc3689f5b, 0xdf63eaa1, 0xa2205f1f)
  {
    hide Operation;
    Op(32, 0x13707036, 0xa2205f1f, 0x1c31c384, 0xae7813db, 0x10698f40, 0, 0xfffa3942, 4, 0xdf63eaa1);
    Op(33, 0xae7813db, 0xdf63eaa1, 0xa2205f1f, 0x1c31c384, 0x6172763a, 0, 0x8771f681, 11, 0xc3689f5b);
  }

  lemma Ops34()
    ensures Two(Regs(0x1c31c384, 0xc3689f5b, 0xdf63eaa1, 0xa2205f1f), 34)
         == Regs(0xdf63eaa1, 0x004b6669, 0x12f3e755, 0xc3689f5b)
  {
    hide Operation;
    Op(34, 0x1c31c384, 0xc3689f5b, 0xdf63eaa1, 0xa2205f1f, 0xbe2b2ae5, 0, 0x6d9d6122, 16, 0x12f3e755);
    Op(35, 0xa2205f1f, 0x12f3e755, 0xc3689f5b, 0xdf63eaa1, 0x0ef892af, 0, 0xfde5380c, 23, 0x004b6669);
  }

  lemma Ops36()
    ensures Two(Regs(0xdf63eaa1, 0x004b6669, 0x12f3e755, 0xc3689f5b), 36)
         == Regs(0x12f3e755, 0xabc34e16, 0x5f7a9b2e, 0x004b6669)
  {
    hide Operation;
    Op(36, 0xdf63eaa1, 0x004b6669, 0x12f3e755, 0xc3689f5b, 0xd1d01e67, 0, 0xa4beea44, 4, 0x5f7a9b2e);
    Op(37, 0xc3689f5b, 0x5f7a9b2e, 0x004b6669, 0x12f3e755, 0x4dc21a12, 0, 0x4bdecfa9, 11, 0xabc34e16);
  }

  lemma Ops38()
    ensures Two(Regs(0x12f3e755, 0xabc34e16, 0x5f7a9b2e, 0x004b6669), 38)
         == Regs(0x5f7a9b2e, 0xc5dc8c15, 0x91ca4cb7, 0xabc34e16)
  {
    hide Operation;
    Op(38, 0x12f3e755, 0xabc34e16, 0x5f7a9b2e, 0x004b6669, 0xf4f2b351, 0, 0xf6bb4b60, 16, 0x91ca4cb7);
    Op(39, 0x004b6669, 0x91ca4cb7, 0xabc34e16, 0x5f7a9b2e, 0x6573998f, 0, 0xbebfbc70, 23, 0xc5dc8c15);
  }

  lemma Ops40()
    ensures Two(Regs(0x5f7a9b2e, 0xc5dc8c15, 0x91ca4cb7, 0xabc34e16), 40)
         == Regs(0x91ca4cb7, 0x76fd93d4, 0x4497169d, 0xc5dc8c15)
  {
    hide Operation;
    Op(40, 0x5f7a9b2e, 0xc5dc8c15, 0x91ca4cb7, 0xabc34e16, 0xffd58eb4, 0, 0x289b7ec6, 4, 0x4497169d);
    Op(41, 0xabc34e16, 0x4497169d, 0xc5dc8c15, 0x91ca4cb7, 0x1081d63f, 0x80, 0xeaa127fa, 11, 0x76fd93d4);
  }

  lemma Ops42()
    ensures Two(Regs(0x91ca4cb7, 0x76fd93d4, 0x4497169d, 0xc5dc8c15), 42)
         == Regs(0x4497169d, 0x0fe32453, 0xfd95f243, 0x76fd93d4)
  {
    hide Operation;
    Op(42, 0x91ca4cb7, 0x76fd93d4, 0x4497169d, 0xc5dc8c15, 0xf7b6095c, 0, 0xd4ef3085, 16, 0xfd95f243);
    Op(43, 0xc5dc8c15, 0xfd95f243, 0x76fd93d4, 0x4497169d, 0xcfff770a, 0, 0x04881d05, 23, 0x0fe32453);
  }

  lemma Ops44()
    ensures Two(Regs(0x4497169d, 0x0fe32453, 0xfd95f243, 0x76fd93d4), 44)
         == Regs(0xfd95f243, 0x22a31f54, 0x3f55edfd, 0x0fe32453)
  {
    hide Operation;
    Op(44, 0x4497169d, 0x0fe32453, 0xfd95f243, 0x76fd93d4, 0x848b45c4, 0, 0xd9d4d039, 4, 0x3f55edfd);
    Op(45, 0x76fd93d4, 0x3f55edfd, 0x0fe32453, 0xfd95f243, 0xcd233bed, 0, 0xe6db99e5, 11, 0x22a31f54);
  }

  lemma Ops46()
    ensures Two(Regs(0xfd95f243, 0x22a31f54, 0x3f55edfd, 0x0fe32453), 46)
         == Regs(0x3f55edfd, 0xca7d2dbd, 0x68d84ea2, 0x22a31f54)
  {
    hide Operation;
    Op(46, 0xfd95f243, 0x22a31f54, 0x3f55edfd, 0x0fe32453, 0x1215d6fa, 0, 0x1fa27cf8, 16, 0x68d84ea2);
    Op(47, 0x0fe32453, 0x68d84ea2, 0x22a31f54, 0x3f55edfd, 0x752ebc0b, 0, 0xc4ac5665, 23, 0xca7d2dbd);
  }

  lemma Ops48()
    ensures Two(Regs(0x3f55edfd, 0xca7d2dbd, 0x68d84ea2, 0x22a31f54), 48)
         == Regs(0x68d84ea2, 0x1688dc85, 0x93aa2577, 0xca7d2dbd)
  {
    hide Operation;
    Op(48, 0x3f55edfd, 0xca7d2dbd, 0x68d84ea2, 0x22a31f54, 0xb7a5a31d, 0x80, 0xf4292244, 6, 0x93aa2577);
    Op(49, 0x22a31f54, 0x93aa2577, 0xca7d2dbd, 0x68d84ea2, 0x5dd298c2, 0, 0x432aff97, 10, 0x1688dc85);
  }

  lemma Ops50()
    ensures Two(Regs(0x68d84ea2, 0x1688dc85, 0x93aa2577, 0xca7d2dbd), 50)
         == Regs(0x93aa2577, 0x561e0689, 0xcd85b8cb, 0x1688dc85)
  {
    hide Operation;
    Op(50, 0x68d84ea2, 0x1688dc85, 0x93aa2577, 0xca7d2dbd, 0xa420fbb0, 0, 0xab9423a7, 15, 0xcd85b8cb);
    Op(51, 0xca7d2dbd, 0xcd85b8cb, 0x1688dc85, 0x93aa2577, 0xfb5d264e, 0, 0xfc93a039, 21, 0x561e0689);
  }

  lemma Ops52()
    ensures Two(Regs(0x93aa2577, 0x561e0689, 0xcd85b8cb, 0x1688dc85), 52)
         == Regs(0xcd85b8cb, 0x3450f42b, 0x5625a114, 0x561e0689)
  {
    hide Operation;
    Op(52, 0x93aa2577, 0x561e0689, 0xcd85b8cb, 0x1688dc85, 0x32fa9f30, 0, 0x655b59c3, 6, 0x5625a114);
    Op(53, 0x1688dc85, 0x5625a114, 0x561e0689, 0xcd85b8cb, 0x2061e1bd, 0, 0x8f0ccc92, 10, 0x3450f42b);
  }

  lemma Ops54()
    ensures Two(Regs(0xcd85b8cb, 0x3450f42b, 0x5625a114, 0x561e0689), 54)
         == Regs(0x5625a114, 0x1e77fa61, 0x392ad0d0, 0x3450f42b)
  {
    hide Operation;
    Op(54, 0xcd85b8cb, 0x3450f42b, 0x5625a114, 0x561e0689, 0xebd45c6b, 0, 0xffeff47d, 15, 0x392ad0d0);
    Op(55, 0x561e0689, 0x392ad0d0, 0x3450f42b, 0x5625a114, 0x8daa2ad0, 0, 0x85845dd1, 21, 0x1e77fa61);
  }

  lemma Ops56()
    ensures Two(Regs(0x5625a114, 0x1e77fa61, 0x392ad0d0, 0x3450f42b), 56)
         == Regs(0x392ad0d0, 0xdfce00bc, 0x474a9c8c, 0x1e77fa61)
  {
    hide Operation;
    Op(56, 0x5625a114, 0x1e77fa61, 0x392ad0d0, 0x3450f42b, 0xe6d52b25, 0, 0x6fa87e4f, 6, 0x474a9c8c);
    Op(57, 0x3450f42b, 0x474a9c8c, 0x1e77fa61, 0x392ad0d0, 0xd9a845ce, 0, 0xfe2ce6e0, 10, 0xdfce00bc);
  }

  lemma Ops58()
    ensures Two(Regs(0x392ad0d0, 0xdfce00bc, 0x474a9c8c, 0x1e77fa61), 58)
         == Regs(0x474a9c8c, 0x30130182, 0x36594b14, 0xdfce00bc)
  {
    hide Operation;
    Op(58, 0x392ad0d0, 0xdfce00bc, 0x474a9c8c, 0x1e77fa61, 0xb8849932, 0, 0xa3014314, 15, 0x36594b14);
    Op(59, 0x1e77fa61, 0x36594b14, 0xdfce00bc, 0x474a9c8c, 0x61336bcb, 0, 0x4e0811a1, 21, 0x30130182);
  }

  lemma Ops60()
    ensures Two(Regs(0x474a9c8c, 0x30130182, 0x36594b14, 0xdfce00bc), 60)
         == Regs(0x36594b14, 0x6e10a476, 0x7246fad3, 0x30130182)
  {
    hide Operation;
    Op(60, 0x474a9c8c, 0x30130182, 0x36594b14, 0xdfce00bc, 0x066ab4d7, 0, 0xf7537e82, 6, 0x7246fad3);
    Op(61, 0xdfce00bc, 0x7246fad3, 0x30130182, 0x36594b14, 0xcbf5ff79, 0, 0xbd3af235, 10, 0x6e10a476);
  }

  lemma Ops62()
    ensures Two(Regs(0x36594b14, 0x6e10a476, 0x7246fad3, 0x30130182), 62)
         == Regs(0x7246fad3, 0x14e45506, 0xff4ea3eb, 0x6e10a476)
  {
    hide Operation;
    Op(62, 0x36594b14, 0x6e10a476, 0x7246fad3, 0x30130182, 0x9dba04ac, 0, 0x2ad7d2bb, 15, 0xff4ea3eb);
    Op(63, 0x30130182, 0xff4ea3eb, 0x6e10a476, 0x7246fad3, 0x91ef0399, 0, 0xeb86d391, 21, 0x14e45506);
  }

  lemma Twice(n: nat)
    requires n <= 62
    ensures Operations(INITIAL, X, n + 2) == Two(Operations(INITIAL, X, n), n)
  {
    hide Operation;
  }

  lemma NoOperations()
    ensures Operations(INITIAL, X, 0) == Regs(0x67452301, 0xefcdab89, 0x98badcfe, 0x10325476)
  {
  }

  // All 64 operations, two at a time.
  lemma AllOperations()
    ensures Operations(INITIAL, X, 64) == Regs(0x7246fad3, 0x14e45506, 0xff4ea3eb, 0x6e10a476)
  {
    hide *;
    NoOperations();
    Twice(0); Ops0(); Twice(2); Ops2(); Twice(4); Ops4(); Twice(6); Ops6();
    Twice(8); Ops8(); Twice(10); Ops10(); Twice(12); Ops12(); Twice(14); Ops14();
    Twice(16); Ops16(); Twice(18); Ops18(); Twice(20); Ops20(); Twice(22); Ops22();
    Twice(24); Ops24(); Twice(26); Ops26(); Twice(28); Ops28(); Twice(30); Ops30();
    Twice(32); Ops32(); Twice(34); Ops34(); Twice(36); Ops36(); Twice(38); Ops38();
    Twice(40); Ops40(); Twice(42); Ops42(); Twice(44); Ops44(); Twice(46); Ops46();
    Twice(48); Ops48(); Twice(50); Ops50(); Twice(52); Ops52(); Twice(54); Ops54();
    Twice(56); Ops56(); Twice(58); Ops58(); Twice(60); Ops60(); Twice(62); Ops62();
  }

  lemma EmptyPadded()
    ensures Padded([]) == [0x80] + seq(63, _ => 0)
  {
    assert PadLength(0) == 56;
    NoLength();
    PaddingIs(56);
    hide Padding, LengthOctets, PadLength;
    var p, n := Padding(56), LengthOctets(0);
    assert [] + p + n == p + n;
    assert forall i :: 1 <= i < 64 ==> (p + n)[i] == 0;
  }

  lemma NoLength()
    ensures forall i :: 0 <= i < 8 ==> LengthOctets(0)[i] == 0
  {
    ZeroOctet();
    hide OctetOf;
    var z := OctetOf(0);
    assert LengthOctets(0) == [z, z, z, z, z, z, z, z];
  }

  lemma ZeroOctet()
    ensures OctetOf(0) == 0
  {
  }

  // A one bit and then zero bits.
  lemma PaddingIs(k: nat)
    requires k >= 1
    ensures Padding(k)[0] == 0x80 && forall i :: 1 <= i < k ==> Padding(k)[i] == 0
  {
  }

  lemma EmptyWords(block: seq<Octet>)
    requires block == [0x80] + seq(63, _ => 0)
    ensures Words(block) == X
  {
    assert WordAt(block, 0) == 0x80 by {
      assert block[0] == 0x80 && block[1] == 0 && block[2] == 0 && block[3] == 0;
    }
    forall i | 1 <= i < 16 ensures WordAt(block, i) == 0 {
      assert block[4 * i] == 0 && block[4 * i + 1] == 0 && block[4 * i + 2] == 0 && block[4 * i + 3] == 0;
    }
    hide WordAt;
    assert forall i :: 1 <= i < 16 ==> X[i] == 0;
  }

  // The digest RFC 1321 gives for the empty message in section A.5.
  lemma EmptyDigest()
    ensures Digest([])
         == [0xd4, 0x1d, 0x8c, 0xd9, 0x8f, 0x00, 0xb2, 0x04, 0xe9, 0x80, 0x09, 0x98, 0xec, 0xf8, 0x42, 0x7e]
  {
    EmptyPadded();
    EmptyWords(Padded([]));
    AllOperations();
    EmptySerialised();
    var p: seq<Octet> := Padded([]);
    assert p[..|p| - 64] == [] && p[|p| - 64..] == p;
    hide Padded, Words, Operations, Serialise;
    assert Blocks(INITIAL, p) == Compress(Blocks(INITIAL, []), p);
  }

  lemma EmptySerialised()
    ensures Serialise(Increment(INITIAL, Regs(0x7246fad3, 0x14e45506, 0xff4ea3eb, 0x6e10a476)))
         == [0xd4, 0x1d, 0x8c, 0xd9, 0x8f, 0x00, 0xb2, 0x04, 0xe9, 0x80, 0x09, 0x98, 0xec, 0xf8, 0x42, 0x7e]
  {
    assert Increment(INITIAL, Regs(0x7246fad3, 0x14e45506, 0xff4ea3eb, 0x6e10a476))
        == Regs(0xd98c1dd4, 0x04b2008f, 0x980980e9, 0x7e42f8ec);
    assert WordOctets(0xd98c1dd4) == [0xd4, 0x1d, 0x8c, 0xd9];
    assert WordOctets(0x04b2008f) == [0x8f, 0x00, 0xb2, 0x04];
    assert WordOctets(0x980980e9) == [0xe9, 0x80, 0x09, 0x98];
    assert WordOctets(0x7e42f8ec) == [0xec, 0xf8, 0x42, 0x7e];
  }
}
