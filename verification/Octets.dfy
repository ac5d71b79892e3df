/**
  Bytes and the big-endian integers of the wire format (the aimutil_put and aimutil_get
  macros of include/aim.h).
*/
module Octets {

  type byte = x: int | 0 <= x < 0x100
  type u16 = x: int | 0 <= x < 0x1_0000
  type u32 = x: int | 0 <= x < 0x1_0000_0000

  // A byte string whose length fits the 16-bit length field of a record.
  type Short = s: seq<byte> | |s| < 0x1_0000

  datatype Option<+T> = None | Some(value: T)

  // The conversion to fu16_t and fu8_t that C performs on assignment.
  function Low16(v: int): u16 { v % 0x1_0000 }
  function Low8(v: int): byte { v % 0x100 }

  function Put16(v: u16): (s: seq<byte>)
    ensures |s| == 2
  {
    [v / 0x100, v % 0x100]
  }

  function Put32(v: u32): (s: seq<byte>)
    ensures |s| == 4
  {
    [v / 0x100_0000, v / 0x1_0000 % 0x100, v / 0x100 % 0x100, v % 0x100]
  }

  function Get16(s: seq<byte>): u16
    requires |s| == 2
  {
    s[0] as int * 0x100 + s[1]
  }

  function Get32(s: seq<byte>): u32
    requires |s| == 4
  {
    s[0] as int * 0x100_0000 + s[1] as int * 0x1_0000 + s[2] as int * 0x100 + s[3]
  }

  /** High-order byte first. */
  lemma HighByteFirst(v: u32)
    ensures Put16(0x0102) == [0x01, 0x02]
    ensures Put32(v) == Put16(v / 0x1_0000) + Put16(v % 0x1_0000)
  {
    var high, low := v / 0x1_0000, v % 0x1_0000;
    assert v / 0x100_0000 == high / 0x100 && v / 0x1_0000 % 0x100 == high % 0x100;
    assert v / 0x100 % 0x100 == low / 0x100 && v % 0x100 == low % 0x100;
  }

  lemma GetPut16(v: u16)
    ensures Get16(Put16(v)) == v
  {
  }

  lemma GetPut32(v: u32)
    ensures Get32(Put32(v)) == v
  {
    var high, low := v / 0x1_0000, v % 0x1_0000;
    assert v / 0x100_0000 == high / 0x100 && v / 0x1_0000 % 0x100 == high % 0x100;
    assert v / 0x100 % 0x100 == low / 0x100 && v % 0x100 == low % 0x100;
  }

  lemma PutGet16(s: seq<byte>)
    requires |s| == 2
    ensures Put16(Get16(s)) == s
  {
  }

  // Concatenation of a list of byte strings, in order.
  function Flatten(chunks: seq<seq<byte>>): seq<byte> {
    if |chunks| == 0 then [] else Flatten(chunks[..|chunks| - 1]) + chunks[|chunks| - 1]
  }

  lemma FlattenAppend(xs: seq<seq<byte>>, ys: seq<seq<byte>>)
    ensures Flatten(xs + ys) == Flatten(xs) + Flatten(ys)
  {
    if |ys| == 0 {
      assert xs + ys == xs;
    } else {
      var n := |ys| - 1;
      FlattenAppend(xs, ys[..n]);
      assert (xs + ys)[..|xs + ys| - 1] == xs + ys[..n];
    }
  }

  lemma Regroup(a: seq<byte>, b: seq<byte>, c: seq<byte>, d: seq<byte>, e: seq<byte>, rest: seq<byte>)
    ensures a + b + c + d + e + rest == a + (b + (c + (d + (e + rest))))
  {
    assert a + b + c + d + e + rest == a + b + c + d + (e + rest);
    assert a + b + c + d + (e + rest) == a + b + c + (d + (e + rest));
    assert a + b + c + (d + (e + rest)) == a + b + (c + (d + (e + rest)));
  }

  lemma FlattenTwo(s: seq<byte>, t: seq<byte>)
    ensures Flatten([s, t]) == s + t
  {
    FlattenOne(s);
    FlattenSnoc([s], t);
    assert [s] + [t] == [s, t];
  }

  lemma FlattenOne(s: seq<byte>)
    ensures Flatten([s]) == s
  {
    assert [s][..0] == [];
    assert Flatten([s]) == Flatten([]) + s;
  }

  lemma FlattenSnoc(xs: seq<seq<byte>>, s: seq<byte>)
    ensures Flatten(xs + [s]) == Flatten(xs) + s
  {
    assert (xs + [s])[..|xs|] == xs;
  }

  lemma FlattenFive(a: seq<byte>, b: seq<byte>, c: seq<byte>, d: seq<byte>, e: seq<byte>)
    ensures Flatten([a, b, c, d, e]) == a + b + c + d + e
  {
    FlattenTwo(a, b);
    FlattenSnoc([a, b], c);
    assert [a, b] + [c] == [a, b, c];
    FlattenSnoc([a, b, c], d);
    assert [a, b, c] + [d] == [a, b, c, d];
    FlattenSnoc([a, b, c, d], e);
    assert [a, b, c, d] + [e] == [a, b, c, d, e];
  }
}
