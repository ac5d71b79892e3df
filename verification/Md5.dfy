/**
  The streaming MD5 implementation of src/md5.c: a 64-byte carry buffer, a 64-bit
  bit count held in two 32-bit words, and 64 hand-unrolled steps per block.
*/
module Md5 {
  import opened Md5Spec

  // The two lines of every SET macro: f is the auxiliary function's value, x the message word.
  function Set(a: Word, f: Word, x: Word, s: nat, t: Word, b: Word): Word
    requires s < 32
  {
    Rotate(a + f + x + t, s) + b
  }

  lemma SetIsUpdate(a: Word, m: Word, x: Word, t: Word, s: nat, b: Word)
    requires s < 32
    ensures Set(a, m, x, s, t, b) == Update(a, m, x, t, s, b)
  {
  }

  // SET with the table entries of step i.
  function Step(x: seq<Word>, i: nat, a: Word, b: Word, c: Word, d: Word): Word
    requires |x| == 16 && i < 64
  {
    Set(a, Mix(i, b, c, d), x[WordIndex(i)], Shift(i), T(i), b)
  }

  lemma StepIsOperation(x: seq<Word>, i: nat, r: Regs)
    requires |x| == 16 && i < 64
    ensures Operation(r, x, i) == Regs(r.d, Step(x, i, r.a, r.b, r.c, r.d), r.b, r.c)
  {
    hide Set, Update, Mix, WordIndex, Shift, T;
    SetIsUpdate(r.a, Mix(i, r.b, r.c, r.d), x[WordIndex(i)], T(i), Shift(i), r.b);
  }

  // Four steps with the roles abcd, dabc, cdab, bcda bring the roles back to abcd.
  lemma Quad(start: Regs, x: seq<Word>, n: nat, q: Regs, r: Regs)
    requires |x| == 16 && n + 4 <= 64
    requires Operations(start, x, n) == q
    requires r.a == Step(x, n, q.a, q.b, q.c, q.d)
    requires r.d == Step(x, n + 1, q.d, r.a, q.b, q.c)
    requires r.c == Step(x, n + 2, q.c, r.d, r.a, q.b)
    requires r.b == Step(x, n + 3, q.b, r.c, r.d, r.a)
    ensures Operations(start, x, n + 4) == r
  {
    hide Step, Operation;
    StepIsOperation(x, n, q);
    var q1 := Regs(q.d, r.a, q.b, q.c);
    assert Operations(start, x, n + 1) == q1;
    StepIsOperation(x, n + 1, q1);
    var q2 := Regs(q.c, r.d, r.a, q.b);
    assert Operations(start, x, n + 2) == q2;
    StepIsOperation(x, n + 2, q2);
    var q3 := Regs(q.b, r.c, r.d, r.a);
    assert Operations(start, x, n + 3) == q3;
    StepIsOperation(x, n + 3, q3);
  }

  lemma Tables1()
    ensures WordIndex(0) == 0 && WordIndex(1) == 1 && WordIndex(2) == 2 && WordIndex(3) == 3
    ensures WordIndex(4) == 4 && WordIndex(5) == 5 && WordIndex(6) == 6 && WordIndex(7) == 7
    ensures WordIndex(8) == 8 && WordIndex(9) == 9 && WordIndex(10) == 10 && WordIndex(11) == 11
    ensures WordIndex(12) == 12 && WordIndex(13) == 13 && WordIndex(14) == 14 && WordIndex(15) == 15
    ensures Shift(0) == 7 && Shift(1) == 12 && Shift(2) == 17 && Shift(3) == 22
    ensures Shift(4) == 7 && Shift(5) == 12 && Shift(6) == 17 && Shift(7) == 22
    ensures Shift(8) == 7 && Shift(9) == 12 && Shift(10) == 17 && Shift(11) == 22
    ensures Shift(12) == 7 && Shift(13) == 12 && Shift(14) == 17 && Shift(15) == 22
  {
  }

  lemma QuadF(start: Regs, x: seq<Word>, n: nat, q: Regs, r: Regs)
    requires |x| == 16 && n + 4 <= 16
    requires Operations(start, x, n) == q
    requires r.a == Set(q.a, F(q.b, q.c, q.d), x[WordIndex(n)], Shift(n), T(n), q.b)
    requires r.d == Set(q.d, F(r.a, q.b, q.c), x[WordIndex(n + 1)], Shift(n + 1), T(n + 1), r.a)
    requires r.c == Set(q.c, F(r.d, r.a, q.b), x[WordIndex(n + 2)], Shift(n + 2), T(n + 2), r.d)
    requires r.b == Set(q.b, F(r.c, r.d, r.a), x[WordIndex(n + 3)], Shift(n + 3), T(n + 3), r.c)
    ensures Operations(start, x, n + 4) == r
  {
    hide Set, F, Rotate, Operations, Operation, WordIndex, Shift;
    Quad(start, x, n, q, r);
  }

  // Round 1, unrolled, with the register roles rotated by hand.
  method Round1(ghost start: Regs, x: seq<Word>, r: Regs) returns (r': Regs)
    requires |x| == 16
    requires Operations(start, x, 0) == r
    ensures Operations(start, x, 16) == r'
  {
    hide *;
    Tables1();
    var a, b, c, d := r.a, r.b, r.c, r.d;
    ghost var q0 := Regs(a, b, c, d);
    a := Set(a, F(b, c, d), x[0], 7, T(0), b);
    d := Set(d, F(a, b, c), x[1], 12, T(1), a);
    c := Set(c, F(d, a, b), x[2], 17, T(2), d);
    b := Set(b, F(c, d, a), x[3], 22, T(3), c);
    QuadF(start, x, 0, q0, Regs(a, b, c, d));
    ghost var q1 := Regs(a, b, c, d);
    a := Set(a, F(b, c, d), x[4], 7, T(4), b);
    d := Set(d, F(a, b, c), x[5], 12, T(5), a);
    c := Set(c, F(d, a, b), x[6], 17, T(6), d);
    b := Set(b, F(c, d, a), x[7], 22, T(7), c);
    QuadF(start, x, 4, q1, Regs(a, b, c, d));
    ghost var q2 := Regs(a, b, c, d);
    a := Set(a, F(b, c, d), x[8], 7, T(8), b);
    d := Set(d, F(a, b, c), x[9], 12, T(9), a);
    c := Set(c, F(d, a, b), x[10], 17, T(10), d);
    b := Set(b, F(c, d, a), x[11], 22, T(11), c);
    QuadF(start, x, 8, q2, Regs(a, b, c, d));
    ghost var q3 := Regs(a, b, c, d);
    a := Set(a, F(b, c, d), x[12], 7, T(12), b);
    d := Set(d, F(a, b, c), x[13], 12, T(13), a);
    c := Set(c, F(d, a, b), x[14], 17, T(14), d);
    b := Set(b, F(c, d, a), x[15], 22, T(15), c);
    QuadF(start, x, 12, q3, Regs(a, b, c, d));
    r' := Regs(a, b, c, d);
  }

  lemma Tables2()
    ensures WordIndex(16) == 1 && WordIndex(17) == 6 && WordIndex(18) == 11 && WordIndex(19) == 0
    ensures WordIndex(20) == 5 && WordIndex(21) == 10 && WordIndex(22) == 15 && WordIndex(23) == 4
    ensures WordIndex(24) == 9 && WordIndex(25) == 14 && WordIndex(26) == 3 && WordIndex(27) == 8
    ensures WordIndex(28) == 13 && WordIndex(29) == 2 && WordIndex(30) == 7 && WordIndex(31) == 12
    ensures Shift(16) == 5 && Shift(17) == 9 && Shift(18) == 14 && Shift(19) == 20
    ensures Shift(20) == 5 && Shift(21) == 9 && Shift(22) == 14 && Shift(23) == 20
    ensures Shift(24) == 5 && Shift(25) == 9 && Shift(26) == 14 && Shift(27) == 20
    ensures Shift(28) == 5 && Shift(29) == 9 && Shift(30) == 14 && Shift(31) == 20
  {
  }

  lemma QuadG(start: Regs, x: seq<Word>, n: nat, q: Regs, r: Regs)
    requires |x| == 16 && 16 <= n && n + 4 <= 32
    requires Operations(start, x, n) == q
    requires r.a == Set(q.a, G(q.b, q.c, q.d), x[WordIndex(n)], Shift(n), T(n), q.b)
    requires r.d == Set(q.d, G(r.a, q.b, q.c), x[WordIndex(n + 1)], Shift(n + 1), T(n + 1), r.a)
    requires r.c == Set(q.c, G(r.d, r.a, q.b), x[WordIndex(n + 2)], Shift(n + 2), T(n + 2), r.d)
    requires r.b == Set(q.b, G(r.c, r.d, r.a), x[WordIndex(n + 3)], Shift(n + 3), T(n + 3), r.c)
    ensures Operations(start, x, n + 4) == r
  {
    hide Set, G, Rotate, Operations, Operation, WordIndex, Shift;
    Quad(start, x, n, q, r);
  }

  // Round 2, unrolled, with the register roles rotated by hand.
  method Round2(ghost start: Regs, x: seq<Word>, r: Regs) returns (r': Regs)
    requires |x| == 16
    requires Operations(start, x, 16) == r
    ensures Operations(start, x, 32) == r'
  {
    hide *;
    Tables2();
    var a, b, c, d := r.a, r.b, r.c, r.d;
    ghost var q0 := Regs(a, b, c, d);
    a := Set(a, G(b, c, d), x[1], 5, T(16), b);
    d := Set(d, G(a, b, c), x[6], 9, T(17), a);
    c := Set(c, G(d, a, b), x[11], 14, T(18), d);
    b := Set(b, G(c, d, a), x[0], 20, T(19), c);
    QuadG(start, x, 16, q0, Regs(a, b, c, d));
    ghost var q1 := Regs(a, b, c, d);
    a := Set(a, G(b, c, d), x[5], 5, T(20), b);
    d := Set(d, G(a, b, c), x[10], 9, T(21), a);
    c := Set(c, G(d, a, b), x[15], 14, T(22), d);
    b := Set(b, G(c, d, a), x[4], 20, T(23), c);
    QuadG(start, x, 20, q1, Regs(a, b, c, d));
    ghost var q2 := Regs(a, b, c, d);
    a := Set(a, G(b, c, d), x[9], 5, T(24), b);
    d := Set(d, G(a, b, c), x[14], 9, T(25), a);
    c := Set(c, G(d, a, b), x[3], 14, T(26), d);
    b := Set(b, G(c, d, a), x[8], 20, T(27), c);
    QuadG(start, x, 24, q2, Regs(a, b, c, d));
    ghost var q3 := Regs(a, b, c, d);
    a := Set(a, G(b, c, d), x[13], 5, T(28), b);
    d := Set(d, G(a, b, c), x[2], 9, T(29), a);
    c := Set(c, G(d, a, b), x[7], 14, T(30), d);
    b := Set(b, G(c, d, a), x[12], 20, T(31), c);
    QuadG(start, x, 28, q3, Regs(a, b, c, d));
    r' := Regs(a, b, c, d);
  }

  lemma Tables3()
    ensures WordIndex(32) == 5 && WordIndex(33) == 8 && WordIndex(34) == 11 && WordIndex(35) == 14
    ensures WordIndex(36) == 1 && WordIndex(37) == 4 && WordIndex(38) == 7 && WordIndex(39) == 10
    ensures WordIndex(40) == 13 && WordIndex(41) == 0 && WordIndex(42) == 3 && WordIndex(43) == 6
    ensures WordIndex(44) == 9 && WordIndex(45) == 12 && WordIndex(46) == 15 && WordIndex(47) == 2
    ensures Shift(32) == 4 && Shift(33) == 11 && Shift(34) == 16 && Shift(35) == 23
    ensures Shift(36) == 4 && Shift(37) == 11 && Shift(38) == 16 && Shift(39) == 23
    ensures Shift(40) == 4 && Shift(41) == 11 && Shift(42) == 16 && Shift(43) == 23
    ensures Shift(44) == 4 && Shift(45) == 11 && Shift(46) == 16 && Shift(47) == 23
  {
  }

  lemma QuadH(start: Regs, x: seq<Word>, n: nat, q: Regs, r: Regs)
    requires |x| == 16 && 32 <= n && n + 4 <= 48
    requires Operations(start, x, n) == q
    requires r.a == Set(q.a, H(q.b, q.c, q.d), x[WordIndex(n)], Shift(n), T(n), q.b)
    requires r.d == Set(q.d, H(r.a, q.b, q.c), x[WordIndex(n + 1)], Shift(n + 1), T(n + 1), r.a)
    requires r.c == Set(q.c, H(r.d, r.a, q.b), x[WordIndex(n + 2)], Shift(n + 2), T(n + 2), r.d)
    requires r.b == Set(q.b, H(r.c, r.d, r.a), x[WordIndex(n + 3)], Shift(n + 3), T(n + 3), r.c)
    ensures Operations(start, x, n + 4) == r
  {
    hide Set, H, Rotate, Operations, Operation, WordIndex, Shift;
    Quad(start, x, n, q, r);
  }

  // Round 3, unrolled, with the register roles rotated by hand.
  method Round3(ghost start: Regs, x: seq<Word>, r: Regs) returns (r': Regs)
    requires |x| == 16
    requires Operations(start, x, 32) == r
    ensures Operations(start, x, 48) == r'
  {
    hide *;
    Tables3();
    var a, b, c, d := r.a, r.b, r.c, r.d;
    ghost var q0 := Regs(a, b, c, d);
    a := Set(a, H(b, c, d), x[5], 4, T(32), b);
    d := Set(d, H(a, b, c), x[8], 11, T(33), a);
    c := Set(c, H(d, a, b), x[11], 16, T(34), d);
    b := Set(b, H(c, d, a), x[14], 23, T(35), c);
    QuadH(start, x, 32, q0, Regs(a, b, c, d));
    ghost var q1 := Regs(a, b, c, d);
    a := Set(a, H(b, c, d), x[1], 4, T(36), b);
    d := Set(d, H(a, b, c), x[4], 11, T(37), a);
    c := Set(c, H(d, a, b), x[7], 16, T(38), d);
    b := Set(b, H(c, d, a), x[10], 23, T(39), c);
    QuadH(start, x, 36, q1, Regs(a, b, c, d));
    ghost var q2 := Regs(a, b, c, d);
    a := Set(a, H(b, c, d), x[13], 4, T(40), b);
    d := Set(d, H(a, b, c), x[0], 11, T(41), a);
    c := Set(c, H(d, a, b), x[3], 16, T(42), d);
    b := Set(b, H(c, d, a), x[6], 23, T(43), c);
    QuadH(start, x, 40, q2, Regs(a, b, c, d));
    ghost var q3 := Regs(a, b, c, d);
    a := Set(a, H(b, c, d), x[9], 4, T(44), b);
    d := Set(d, H(a, b, c), x[12], 11, T(45), a);
    c := Set(c, H(d, a, b), x[15], 16, T(46), d);
    b := Set(b, H(c, d, a), x[2], 23, T(47), c);
    QuadH(start, x, 44, q3, Regs(a, b, c, d));
    r' := Regs(a, b, c, d);
  }

  lemma Tables4()
    ensures WordIndex(48) == 0 && WordIndex(49) == 7 && WordIndex(50) == 14 && WordIndex(51) == 5
    ensures WordIndex(52) == 12 && WordIndex(53) == 3 && WordIndex(54) == 10 && WordIndex(55) == 1
    ensures WordIndex(56) == 8 && WordIndex(57) == 15 && WordIndex(58) == 6 && WordIndex(59) == 13
    ensures WordIndex(60) == 4 && WordIndex(61) == 11 && WordIndex(62) == 2 && WordIndex(63) == 9
    ensures Shift(48) == 6 && Shift(49) == 10 && Shift(50) == 15 && Shift(51) == 21
    ensures Shift(52) == 6 && Shift(53) == 10 && Shift(54) == 15 && Shift(55) == 21
    ensures Shift(56) == 6 && Shift(57) == 10 && Shift(58) == 15 && Shift(59) == 21
    ensures Shift(60) == 6 && Shift(61) == 10 && Shift(62) == 15 && Shift(63) == 21
  {
  }

  lemma QuadI(start: Regs, x: seq<Word>, n: nat, q: Regs, r: Regs)
    requires |x| == 16 && 48 <= n && n + 4 <= 64
    requires Operations(start, x, n) == q
    requires r.a == Set(q.a, I(q.b, q.c, q.d), x[WordIndex(n)], Shift(n), T(n), q.b)
    requires r.d == Set(q.d, I(r.a, q.b, q.c), x[WordIndex(n + 1)], Shift(n + 1), T(n + 1), r.a)
    requires r.c == Set(q.c, I(r.d, r.a, q.b), x[WordIndex(n + 2)], Shift(n + 2), T(n + 2), r.d)
    requires r.b == Set(q.b, I(r.c, r.d, r.a), x[WordIndex(n + 3)], Shift(n + 3), T(n + 3), r.c)
    ensures Operations(start, x, n + 4) == r
  {
    hide Set, I, Rotate, Operations, Operation, WordIndex, Shift;
    Quad(start, x, n, q, r);
  }

  // Round 4, unrolled, with the register roles rotated by hand.
  method Round4(ghost start: Regs, x: seq<Word>, r: Regs) returns (r': Regs)
    requires |x| == 16
    requires Operations(start, x, 48) == r
    ensures Operations(start, x, 64) == r'
  {
    hide *;
    Tables4();
    var a, b, c, d := r.a, r.b, r.c, r.d;
    ghost var q0 := Regs(a, b, c, d);
    a := Set(a, I(b, c, d), x[0], 6, T(48), b);
    d := Set(d, I(a, b, c), x[7], 10, T(49), a);
    c := Set(c, I(d, a, b), x[14], 15, T(50), d);
    b := Set(b, I(c, d, a), x[5], 21, T(51), c);
    QuadI(start, x, 48, q0, Regs(a, b, c, d));
    ghost var q1 := Regs(a, b, c, d);
    a := Set(a, I(b, c, d), x[12], 6, T(52), b);
    d := Set(d, I(a, b, c), x[3], 10, T(53), a);
    c := Set(c, I(d, a, b), x[10], 15, T(54), d);
    b := Set(b, I(c, d, a), x[1], 21, T(55), c);
    QuadI(start, x, 52, q1, Regs(a, b, c, d));
    ghost var q2 := Regs(a, b, c, d);
    a := Set(a, I(b, c, d), x[8], 6, T(56), b);
    d := Set(d, I(a, b, c), x[15], 10, T(57), a);
    c := Set(c, I(d, a, b), x[6], 15, T(58), d);
    b := Set(b, I(c, d, a), x[13], 21, T(59), c);
    QuadI(start, x, 56, q2, Regs(a, b, c, d));
    ghost var q3 := Regs(a, b, c, d);
    a := Set(a, I(b, c, d), x[4], 6, T(60), b);
    d := Set(d, I(a, b, c), x[11], 10, T(61), a);
    c := Set(c, I(d, a, b), x[2], 15, T(62), d);
    b := Set(b, I(c, d, a), x[9], 21, T(63), c);
    QuadI(start, x, 60, q3, Regs(a, b, c, d));
    r' := Regs(a, b, c, d);
  }

  // The byte-order independent loop that fills X[16].
  method LoadWords(p: seq<Octet>) returns (x: seq<Word>)
    requires |p| == 64
    ensures x == Words(p)
  {
    hide WordAt;
    var X := new Word[16];
    for i := 0 to 16
      invariant forall k :: 0 <= k < i ==> X[k] == WordAt(p, k)
    {
      X[i] := WordAt(p, i);
    }
    x := X[..];
  }

  // What is left of a sum in a C int. Signed overflow is undefined in C and wraps around on the
  // machines libfaim runs on; the same goes for the bit count md5_append shifts out of an int.
  function Int32(x: int): int {
    var low := x % 0x1_0000_0000;
    if low < 0x8000_0000 then low else low - 0x1_0000_0000
  }

  // The buffered bytes of a message of this length and nbytes more add up within a C int.
  predicate Sums(length: nat, nbytes: int) {
    length % 64 + nbytes < 0x8000_0000
  }

  // The two count words hold 8 * length modulo 2^64.
  ghost predicate Counted(count0: nat, count1: nat, length: nat) {
    && count0 < 0x1_0000_0000 && count1 < 0x1_0000_0000
    && count1 * 0x1_0000_0000 + count0 == (8 * length) % 0x1_0000_0000_0000_0000
  }

  // The registers hold the compression of the first n bytes of s.
  ghost predicate Compressed(abcd: Regs, s: seq<Octet>, n: nat) {
    n <= |s| && n % 64 == 0 && abcd == Blocks(INITIAL, s[..n])
  }

  lemma CompressedPrefix(abcd: Regs, s: seq<Octet>, t: seq<Octet>, n: nat)
    requires s <= t && Compressed(abcd, s, n)
    ensures Compressed(abcd, t, n)
  {
    assert s[..n] == t[..n];
  }

  // src/md5.c keeps count[2], abcd[4] and buf[64] in one struct.
  class Md5State {
    var count0: nat
    var count1: nat
    var abcd: Regs
    const buf: array<Octet>
    ghost var message: seq<Octet>  // everything appended so far

    // The registers have consumed all whole blocks of the message and buf starts with the
    // unprocessed tail.
    ghost predicate Absorbed(s: seq<Octet>)
      reads this, buf
    {
      && buf.Length == 64
      && Compressed(abcd, s, Whole(|s|))
      && buf[..|s| - Whole(|s|)] == s[Whole(|s|)..]
    }

    ghost predicate Valid()
      reads this, buf
    {
      Counted(count0, count1, |message|) && Absorbed(message)
    }

    // md5_init, on a freshly declared state.
    constructor ()
      ensures Valid() && fresh(buf) && message == []
    {
      count0, count1 := 0, 0;
      abcd := INITIAL;
      buf := new Octet[64];
      message := [];
    }

    // memcpy(buf + offset, src, |src|).
    method CopyToBuffer(offset: nat, src: seq<Octet>)
      requires offset + |src| <= buf.Length
      modifies buf
      ensures buf[..offset + |src|] == old(buf[..offset]) + src
    {
      forall i | 0 <= i < |src| {
        buf[offset + i] := src[i];
      }
    }

    // md5_process on the 64 bytes at p.
    method Process(p: seq<Octet>)
      requires |p| == 64
      modifies this`abcd
      ensures abcd == Compress(old(abcd), p)
    {
      hide *;
      var X := LoadWords(p);
      var was := abcd;
      NoOperations(was, X);
      var r := Round1(was, X, was);
      r := Round2(was, X, r);
      r := Round3(was, X, r);
      r := Round4(was, X, r);
      CompressIs(was, p, r);
      abcd := Regs(Add(was.a, r.a), Add(was.b, r.b), Add(was.c, r.c), Add(was.d, r.d));
    }

    // The update of the message length at the start of md5_append.
    method AddToCount(nbytes: nat, ghost length: nat)
      requires nbytes < 0x8000_0000 && Counted(count0, count1, length)
      modifies this`count0, this`count1
      ensures Counted(count0, count1, length + nbytes)
    {
      CountsAdvance(count0, count1, length, nbytes);
      var nbits := nbytes * 8 % 0x1_0000_0000;
      count1 := (count1 + nbytes / 0x2000_0000) % 0x1_0000_0000;
      count0 := (count0 + nbits) % 0x1_0000_0000;
      if count0 < nbits {
        count1 := (count1 + 1) % 0x1_0000_0000;
      }
    }

    // Process full blocks, then keep a final partial block.
    method AppendAligned(rest: seq<Octet>, ghost total: seq<Octet>, ghost done: nat)
      requires buf.Length == 64
      requires Compressed(abcd, total, done) && total[done..] == rest
      modifies this`abcd, buf
      ensures Absorbed(total)
    {
      hide Compress, Blocks;
      var p, left := 0, |rest|;
      while left >= 64
        invariant 0 <= p && 0 <= left && p + left == |rest|
        invariant Compressed(abcd, total, done + p)
      {
        Process(rest[p..p + 64]);
        assert rest[p..p + 64] == total[done + p..done + p + 64];
        BlocksExtend(total, done + p);
        p := p + 64;
        left := left - 64;
      }
      WholeIs(|total|, |total| - left);
      if left > 0 {
        CopyToBuffer(0, rest[p..]);
      }
      assert buf[..left] == rest[p..];
    }

    // Top up a partial block; it is processed once it holds 64 bytes. When the sum of offset and
    // length leaves the int range, memcpy writes behind the buffer: not ok.
    method FillPartial(offset: nat, data: seq<Octet>, ghost total: seq<Octet>, ghost done: nat)
      returns (ok: bool, copy: nat)
      requires buf.Length == 64 && 0 < offset < 64 && 0 < |data| < 0x8000_0000
      requires Compressed(abcd, total, done) && total[done..] == buf[..offset] + data
      modifies this`abcd, buf
      ensures ok <==> offset + |data| < 0x8000_0000
      ensures ok ==> copy == if offset + |data| > 64 then 64 - offset else |data|
      ensures ok && offset + copy == 64 ==> Compressed(abcd, total, done + 64) && total[done + 64..] == data[copy..]
      ensures ok && offset + copy < 64 ==> Compressed(abcd, total, done) && total[done..] == buf[..offset + copy]
    {
      hide Compress, Blocks;
      copy := if Int32(offset + |data|) > 64 then 64 - offset else |data|;
      ok := offset + copy <= 64;
      if !ok {
        return;
      }
      assert total[done..][..offset + copy] == buf[..offset] + data[..copy];
      CopyToBuffer(offset, data[..copy]);
      if offset + copy < 64 {
        return;
      }
      assert buf[..] == buf[..64] == total[done..done + 64];
      Process(buf[..]);
      BlocksExtend(total, done);
      assert total[done + 64..] == total[done..][64..] == data[copy..];
    }

    // md5_append. Not ok: it wrote behind its buffer, which happens exactly when the bytes in the
    // buffer and the new ones together are more than an int holds.
    method Append(data: seq<Octet>, nbytes: int) returns (ok: bool)
      requires Valid() && nbytes <= |data| && nbytes < 0x8000_0000
      modifies this, buf
      ensures ok <==> nbytes <= 0 || Sums(|old(message)|, nbytes)
      ensures ok ==> Valid() && message == old(message) + if nbytes <= 0 then [] else data[..nbytes]
    {
      hide Whole, Compressed;
      var offset := count0 / 8 % 64;
      ok := true;
      if nbytes <= 0 {
        return;
      }
      OffsetIsTail(count0, count1, |message|);
      hide Counted;
      ghost var done := Whole(|message|);
      ghost var total := message + data[..nbytes];
      CompressedPrefix(abcd, message, total, done);
      assert total[done..] == buf[..offset] + data[..nbytes];
      AddToCount(nbytes, |message|);
      message := total;

      var p := 0;
      if offset != 0 {
        ok, p := FillPartial(offset, data[..nbytes], total, done);
        if !ok {
          return;
        }
        if offset + p < 64 {
          WholeIs(|total|, done);
          return;
        }
        done := done + 64;
      }
      assert data[p..nbytes] == data[..nbytes][p..];
      AppendAligned(data[p..nbytes], total, done);
    }

    // md5_finish: save the length, pad to 56 modulo 64, append the length, write the registers.
    method Finish() returns (digest: seq<Octet>)
      requires Valid()
      modifies this, buf
      ensures digest == Digest(old(message))
    {
      hide Digest, LengthOctets, Padding, PadLength, Compressed, Counted, Serialise, Whole;
      ghost var msg := message;
      var data := SaveLength(|message|);
      var n := PadCount(|message|);
      PaddingPrefix(n);
      var ok := Append(Padding(64), n);
      ok := Append(data, 8);
      DigestOf(abcd, msg, message);
      digest := WriteDigest(abcd);
    }

    // The number of bytes that md5_finish pads with.
    method PadCount(ghost length: nat) returns (n: nat)
      requires Counted(count0, count1, length)
      ensures n == PadLength(length) && 1 <= n <= 64
    {
      ghost var octets := count0 / 8;
      OffsetIsTail(count0, count1, length);
      PadFromCount(octets, length);
      hide *;
      n := (55 - count0 / 8) % 64 + 1;
    }

    // The loop of md5_finish that takes the count words apart, low-order byte first.
    method SaveLength(ghost length: nat) returns (data: seq<Octet>)
      requires Valid() && length == |message|
      ensures data == LengthOctets(length) && |data| == 8
    {
      LengthFromCounts(count0, count1, length);
      hide *;
      data := SaveCounts(count0, count1);
    }
  }

  // The loop of md5_finish over the eight bytes of the count.
  method SaveCounts(count0: nat, count1: nat) returns (data: seq<Octet>)
    ensures |data| == 8 && forall k :: 0 <= k < 8 ==> data[k] == CountOctet(count0, count1, k)
  {
    hide CountOctet;
    var a := new Octet[8];
    for i := 0 to 8
      invariant forall k :: 0 <= k < i ==> a[k] == CountOctet(count0, count1, k)
    {
      a[i] := CountOctet(count0, count1, i);
    }
    data := a[..];
  }

  // The loop at the end of md5_finish: 16 bytes out of four registers.
  method WriteDigest(abcd: Regs) returns (digest: seq<Octet>)
    ensures digest == Serialise(abcd)
  {
    hide WordOctets;
    var a := new Octet[16];
    for i := 0 to 16
      invariant forall k :: 0 <= k < i ==> a[k] == WordOctets(Register(abcd, k / 4))[k % 4]
    {
      a[i] := ShiftedOctet(Register(abcd, i / 4), i % 4);
      ShiftedIs(Register(abcd, i / 4), i % 4);
    }
    digest := a[..];
    SerialiseAt(abcd, digest);
  }

  function Register(r: Regs, i: nat): Word
    requires i < 4
  {
    if i == 0 then r.a else if i == 1 then r.b else if i == 2 then r.c else r.d
  }

  function ShiftedOctet(w: Word, i: nat): Octet
    requires i < 4
  {
    ((if i == 0 then w else if i == 1 then w >> 8 else if i == 2 then w >> 16 else w >> 24) & 0xff) as Octet
  }

  lemma ShiftedIs(w: Word, i: nat)
    requires i < 4
    ensures ShiftedOctet(w, i) == WordOctets(w)[i]
  {
  }

  lemma SerialiseAt(abcd: Regs, s: seq<Octet>)
    requires |s| == 16 && forall k :: 0 <= k < 16 ==> s[k] == WordOctets(Register(abcd, k / 4))[k % 4]
    ensures s == Serialise(abcd)
  {
    hide WordOctets;
    FourOctets(abcd, s, 0);
    FourOctets(abcd, s, 1);
    FourOctets(abcd, s, 2);
    FourOctets(abcd, s, 3);
    Quarters(s);
  }

  lemma Quarters(s: seq<Octet>)
    requires |s| == 16
    ensures s == s[0..4] + s[4..8] + s[8..12] + s[12..16]
  {
    assert s[..8] == s[0..4] + s[4..8];
    assert s[..12] == s[..8] + s[8..12];
    assert s == s[..12] + s[12..16];
  }

  lemma FourOctets(abcd: Regs, s: seq<Octet>, j: nat)
    requires |s| == 16 && forall k :: 0 <= k < 16 ==> s[k] == WordOctets(Register(abcd, k / 4))[k % 4]
    requires j < 4
    ensures s[4 * j..4 * j + 4] == WordOctets(Register(abcd, j))
  {
    hide WordOctets, Register;
    forall k | 0 <= k < 4 ensures s[4 * j + k] == WordOctets(Register(abcd, j))[k] {
      assert (4 * j + k) / 4 == j && (4 * j + k) % 4 == k;
    }
  }

  function CountOctet(count0: nat, count1: nat, i: nat): Octet
    requires i < 8
  {
    var word := if i / 4 == 0 then count0 else count1;
    OctetOf(word / [1, 0x100, 0x1_0000, 0x100_0000][i % 4] % 256)
  }

  // The largest multiple of 64 up to n.
  function Whole(n: nat): (w: nat)
    ensures w % 64 == 0 && w <= n < w + 64
  {
    n - n % 64
  }

  lemma WholeIs(n: nat, w: nat)
    requires w % 64 == 0 && w <= n < w + 64
    ensures Whole(n) == w
  {
  }

  lemma DigestOf(abcd: Regs, msg: seq<Octet>, padded: seq<Octet>)
    requires padded == msg + Padding(PadLength(|msg|)) + LengthOctets(|msg|)
    requires Compressed(abcd, padded, Whole(|padded|))
    ensures Serialise(abcd) == Digest(msg)
  {
    hide Serialise, Blocks, Padding, LengthOctets;
    LengthFillsBlock(|msg| + PadLength(|msg|));
    assert padded[..|padded|] == padded;
  }

  lemma CompressIs(r: Regs, block: seq<Octet>, q: Regs)
    requires |block| == 64
    requires q == Operations(r, Words(block), 64)
    ensures Compress(r, block) == Regs(Add(r.a, q.a), Add(r.b, q.b), Add(r.c, q.c), Add(r.d, q.d))
  {
    hide Operations, Words, Add;
  }

  lemma NoOperations(r: Regs, x: seq<Word>)
    requires |x| == 16
    ensures Operations(r, x, 0) == r
  {
  }

  lemma BlocksExtend(s: seq<Octet>, n: nat)
    requires n % 64 == 0 && n + 64 <= |s|
    ensures Blocks(INITIAL, s[..n + 64]) == Compress(Blocks(INITIAL, s[..n]), s[n..n + 64])
  {
    hide Compress;
    assert s[..n + 64][..n] == s[..n];
    assert s[..n + 64][n..] == s[n..n + 64];
  }

  // The offset md5_append takes from the low count word is the length modulo 64.
  lemma OffsetIsTail(count0: nat, count1: nat, length: nat)
    requires count0 < 0x1_0000_0000
    requires count1 * 0x1_0000_0000 + count0 == (8 * length) % 0x1_0000_0000_0000_0000
    ensures count0 / 8 % 64 == length % 64 == length - Whole(length)
  {
    var q := 8 * length / 0x1_0000_0000_0000_0000;
    var m := q * 0x80_0000_0000_0000 + count1 * 0x80_0000;
    assert count0 == 8 * (length - 64 * m);
    assert count0 / 8 == length - 64 * m;
    SameMod64(length, m);
  }

  lemma SameMod64(x: int, m: int)
    ensures (x - 64 * m) % 64 == x % 64
  {
  }

  lemma Mod32(x: int, q: int, r: int)
    requires 0 <= r < 0x1_0000_0000 && x == q * 0x1_0000_0000 + r
    ensures x % 0x1_0000_0000 == r
  {
  }

  lemma Mod64(x: int, q: int, r: int)
    requires 0 <= r < 0x1_0000_0000_0000_0000 && x == q * 0x1_0000_0000_0000_0000 + r
    ensures x % 0x1_0000_0000_0000_0000 == r
  {
  }

  // Adding 8 * n to the two-word count, with the carry out of the low word.
  lemma CountsAdvance(count0: nat, count1: nat, length: nat, n: nat)
    requires count0 < 0x1_0000_0000 && count1 < 0x1_0000_0000 && n < 0x8000_0000
    requires count1 * 0x1_0000_0000 + count0 == (8 * length) % 0x1_0000_0000_0000_0000
    ensures
      var nbits := n * 8 % 0x1_0000_0000;
      var low := (count0 + nbits) % 0x1_0000_0000;
      var high := (count1 + n / 0x2000_0000) % 0x1_0000_0000;
      var carried := if low < nbits then (high + 1) % 0x1_0000_0000 else high;
      carried * 0x1_0000_0000 + low == (8 * (length + n)) % 0x1_0000_0000_0000_0000
  {
    var nbits := n * 8 % 0x1_0000_0000;
    var top := n / 0x2000_0000;
    assert 8 * n == top * 0x1_0000_0000 + nbits;
    var q := 8 * length / 0x1_0000_0000_0000_0000;
    var carry := if count0 + nbits >= 0x1_0000_0000 then 1 else 0;
    var low := count0 + nbits - carry * 0x1_0000_0000;
    Mod32(count0 + nbits, carry, low);
    var over := if count1 + top + carry >= 0x1_0000_0000 then 1 else 0;
    var high := count1 + top + carry - over * 0x1_0000_0000;
    Mod64(8 * (length + n), q + over, high * 0x1_0000_0000 + low);
  }

  lemma PadFromCount(octets: nat, length: nat)
    requires octets % 64 == length % 64
    ensures (55 - octets) % 64 + 1 == PadLength(length)
  {
    var m := octets / 64 - length / 64;
    assert octets == length + 64 * m;
    SameMod64(55 - length, m);
  }

  lemma PaddingPrefix(n: nat)
    requires 1 <= n <= 64
    ensures Padding(64)[..n] == Padding(n)
  {
  }

  lemma LowDigits(count0: nat, count1: nat)
    requires count0 < 0x1_0000_0000
    ensures
      var bits := count1 * 0x1_0000_0000 + count0;
      && bits % 256 == count0 % 256 && bits / 0x100 % 256 == count0 / 0x100 % 256
      && bits / 0x1_0000 % 256 == count0 / 0x1_0000 % 256 && bits / 0x100_0000 % 256 == count0 / 0x100_0000 % 256
  {
    var bits := count1 * 0x1_0000_0000 + count0;
    var d1 := count0 / 0x100;
    var d2 := d1 / 0x100;
    var d3 := d2 / 0x100;
    assert d2 == count0 / 0x1_0000 && d3 == count0 / 0x100_0000;
    Digit(bits, count1 * 0x100_0000 + d1, count0 % 0x100);
    var b1 := bits / 0x100;
    Digit(b1, count1 * 0x1_0000 + d2, d1 % 0x100);
    var b2 := b1 / 0x100;
    Digit(b2, count1 * 0x100 + d3, d2 % 0x100);
    var b3 := b2 / 0x100;
    assert b2 == bits / 0x1_0000 && b3 == bits / 0x100_0000;
    Digit(b3, count1 + d3 / 0x100, d3 % 0x100);
  }

  lemma Digit(x: nat, q: nat, r: nat)
    requires r < 0x100 && x == q * 0x100 + r
    ensures x / 0x100 == q && x % 0x100 == r
  {
  }

  lemma HighDigits(count0: nat, count1: nat)
    requires count0 < 0x1_0000_0000
    ensures
      var bits := count1 * 0x1_0000_0000 + count0;
      && bits / 0x1_0000_0000 == count1 && bits / 0x100_0000_0000 == count1 / 0x100
      && bits / 0x1_0000_0000_0000 == count1 / 0x1_0000 && bits / 0x100_0000_0000_0000 == count1 / 0x100_0000
  {
  }

  lemma LengthFromCounts(count0: nat, count1: nat, length: nat)
    requires count0 < 0x1_0000_0000 && count1 < 0x1_0000_0000
    requires count1 * 0x1_0000_0000 + count0 == (8 * length) % 0x1_0000_0000_0000_0000
    ensures |LengthOctets(length)| == 8
    ensures forall k :: 0 <= k < 8 ==> LengthOctets(length)[k] == CountOctet(count0, count1, k)
  {
    hide OctetOf;
    LowDigits(count0, count1);
    HighDigits(count0, count1);
    CountOctets(count0, count1);
    hide CountOctet;
  }

  lemma CountOctets(count0: nat, count1: nat)
    ensures CountOctet(count0, count1, 0) == OctetOf(count0 % 256)
    ensures CountOctet(count0, count1, 1) == OctetOf(count0 / 0x100 % 256)
    ensures CountOctet(count0, count1, 2) == OctetOf(count0 / 0x1_0000 % 256)
    ensures CountOctet(count0, count1, 3) == OctetOf(count0 / 0x100_0000 % 256)
    ensures CountOctet(count0, count1, 4) == OctetOf(count1 % 256)
    ensures CountOctet(count0, count1, 5) == OctetOf(count1 / 0x100 % 256)
    ensures CountOctet(count0, count1, 6) == OctetOf(count1 / 0x1_0000 % 256)
    ensures CountOctet(count0, count1, 7) == OctetOf(count1 / 0x100_0000 % 256)
  {
    hide OctetOf;
  }

  function Flatten(chunks: seq<seq<Octet>>): seq<Octet> {
    if |chunks| == 0 then [] else Flatten(chunks[..|chunks| - 1]) + chunks[|chunks| - 1]
  }

  // The first n chunks each add up with the bytes buffered before them.
  ghost predicate AllSum(chunks: seq<seq<Octet>>, n: nat)
    requires n <= |chunks|
  {
    forall i :: 0 <= i < n ==> |chunks[i]| == 0 || Sums(|Flatten(chunks[..i])|, |chunks[i]|)
  }

  // However a message is cut into chunks, one md5_append per chunk gives its digest, as long as
  // each chunk adds up with the buffered bytes; when one does not, it writes behind the buffer.
  // A chunk is at most as long as an int can say.
  method DigestChunks(chunks: seq<seq<Octet>>) returns (ok: bool, digest: seq<Octet>)
    requires forall c :: c in chunks ==> |c| < 0x8000_0000
    ensures ok <==> AllSum(chunks, |chunks|)
    ensures ok ==> digest == Digest(Flatten(chunks))
  {
    digest := [];
    var state := new Md5State();
    assert Flatten(chunks[..0]) == [];
    assert AllSum(chunks, 0);
    hide *;
    for i := 0 to |chunks|
      invariant state.Valid() && fresh(state.buf)
      invariant state.message == Flatten(chunks[..i]) && AllSum(chunks, i)
    {
      AllSumNext(chunks, i);
      ok := state.Append(chunks[i], |chunks[i]|);
      if !ok {
        return;
      }
      FlattenNext(chunks, i);
    }
    assert chunks[..|chunks|] == chunks;
    ok := true;
    digest := state.Finish();
  }

  lemma AllSumNext(chunks: seq<seq<Octet>>, i: nat)
    requires i < |chunks| && AllSum(chunks, i)
    ensures AllSum(chunks, i + 1) <==> |chunks[i]| <= 0 || Sums(|Flatten(chunks[..i])|, |chunks[i]|)
    ensures !AllSum(chunks, i + 1) ==> !AllSum(chunks, |chunks|)
  {
  }

  // Chunks below 2^31 - 63 bytes always add up; one byte and then 2^31 - 1 bytes do not.
  lemma WhenChunksSum(chunks: seq<seq<Octet>>, one: seq<Octet>, long: seq<Octet>)
    requires |one| == 1 && |long| == 0x7fff_ffff
    ensures (forall i :: 0 <= i < |chunks| ==> |chunks[i]| <= 0x7fff_ffc0) ==> AllSum(chunks, |chunks|)
    ensures !AllSum([one, long], 2)
  {
    var pair := [one, long];
    assert pair[..1] == [one];
    assert [one][..0] == [];
    assert Flatten([one]) == [] + one;
    assert pair[1] == long && !Sums(|Flatten(pair[..1])|, |long|);
  }

  lemma FlattenNext(chunks: seq<seq<Octet>>, i: nat)
    requires i < |chunks|
    ensures Flatten(chunks[..i + 1]) == Flatten(chunks[..i]) + chunks[i][..|chunks[i]|]
  {
    assert chunks[..i + 1][..i] == chunks[..i];
  }

  const AIM_MD5_STRING := "AOL Instant Messenger (SM)"

  function Ascii(s: string): (t: seq<Octet>)
    ensures |t| == |s|
  {
    seq(|s|, i requires 0 <= i < |s| => (s[i] as int % 256) as Octet)
  }

  // Every character goes into the digest as its code.
  lemma AsciiAt(s: string, k: nat)
    requires k < |s| && s[k] as int < 0x80
    ensures Ascii(s)[k] as int == s[k] as int
  {
  }

  // The bytes md5_append takes of a string whose length is passed on as an int.
  function Passed(s: seq<Octet>): (t: seq<Octet>)
    ensures |t| < 0x8000_0000 && (|s| < 0x8000_0000 ==> t == s)
  {
    if Int32(|s|) <= 0 then [] else s[..Int32(|s|)]
  }

  // aim_encode_password_md5: three appends and a finish.
  method EncodePassword(password: seq<Octet>, key: seq<Octet>) returns (ok: bool, digest: seq<Octet>)
    ensures ok <==> Passed(password) == [] || Sums(|Passed(key)|, |Passed(password)|)
    ensures ok ==> digest == Digest(Passed(key) + Passed(password) + Ascii(AIM_MD5_STRING))
    ensures ok && |password| < 0x8000_0000 && |key| < 0x8000_0000
        ==> digest == Digest(key + password + Ascii("AOL Instant Messenger (SM)"))
  {
    assert |AIM_MD5_STRING| == 26;
    hide Passed, Digest, Compressed, Counted, Whole, Ascii, Md5State.Valid;
    digest := [];
    var state := new Md5State();
    ok := AppendString(state, key);
    assert state.message == Passed(key);
    ok := AppendString(state, password);
    if !ok {
      return;
    }
    var product := Ascii(AIM_MD5_STRING);
    ok := AppendString(state, product);
    digest := state.Finish();
  }

  // md5_append with the length of a string.
  method AppendString(state: Md5State, s: seq<Octet>) returns (ok: bool)
    requires state.Valid()
    modifies state, state.buf
    ensures ok <==> Passed(s) == [] || Sums(|old(state.message)|, |Passed(s)|)
    ensures ok ==> state.Valid() && state.message == old(state.message) + Passed(s)
  {
    hide Digest, Compressed, Counted, Whole;
    ok := state.Append(s, Int32(|s|));
  }
}
