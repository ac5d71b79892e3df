/**
  Type-length-value chains (src/tlv.c): writing a chain, reading one back, and looking
  records up by type.
*/
module Tlvs {
  import opened Octets
  import opened ByteStream

  // The length field of an aim_tlv_t is the length of its value.
  datatype Tlv = Tlv(typ: u16, value: Short)

  function Record(t: Tlv): (s: seq<byte>)
    ensures |s| == 4 + |t.value|
  {
    Octets.Put16(t.typ) + Octets.Put16(|t.value|) + t.value
  }

  // The bytes of a chain, in order.
  function Wire(list: seq<Tlv>): seq<byte> {
    if |list| == 0 then [] else Record(list[0]) + Wire(list[1..])
  }

  lemma {:induction false} WireAppend(xs: seq<Tlv>, ys: seq<Tlv>)
    ensures Wire(xs + ys) == Wire(xs) + Wire(ys)
  {
    if |xs| == 0 {
      assert xs + ys == ys;
    } else {
      WireAppend(xs[1..], ys);
      assert (xs + ys)[1..] == xs[1..] + ys;
      assert Record(xs[0]) + (Wire(xs[1..]) + Wire(ys)) == Record(xs[0]) + Wire(xs[1..]) + Wire(ys);
    }
  }

  lemma WireNext(list: seq<Tlv>, i: nat)
    requires i < |list|
    ensures Wire(list[..i + 1]) == Wire(list[..i]) + Record(list[i])
  {
    assert list[..i + 1] == list[..i] + [list[i]];
    WireAppend(list[..i], [list[i]]);
    assert Wire([list[i]]) == Record(list[i]) + Wire([]) == Record(list[i]);
  }

  // A record that is only there under a condition.
  function One(present: bool, typ: u16, value: Short): seq<Tlv> {
    if present then [Tlv(typ, value)] else []
  }

  predicate Has(list: seq<Tlv>, typ: u16) {
    exists t :: t in list && t.typ == typ
  }

  lemma HasOne(present: bool, t: u16, value: Short, typ: u16)
    ensures Has(One(present, t, value), typ) <==> present && typ == t
  {
    assert present ==> Tlv(t, value) in One(present, t, value);
  }

  lemma HasAppend(xs: seq<Tlv>, ys: seq<Tlv>, typ: u16)
    ensures Has(xs + ys, typ) <==> Has(xs, typ) || Has(ys, typ)
  {
  }

  // In the order of their types, all below a bound.
  ghost predicate Rising(list: seq<Tlv>, bound: int) {
    && (forall i, j :: 0 <= i < j < |list| ==> list[i].typ < list[j].typ)
    && forall i :: 0 <= i < |list| ==> list[i].typ < bound
  }

  lemma RisingOne(list: seq<Tlv>, present: bool, t: u16, value: Short)
    requires Rising(list, t)
    ensures Rising(list + One(present, t, value), t + 1)
  {
  }

  lemma RisingMore(list: seq<Tlv>, bound: int, more: int)
    requires Rising(list, bound) && bound <= more
    ensures Rising(list, more)
  {
  }

  lemma NoneRise(bound: int)
    ensures Rising([], bound)
  {
  }

  /** A record on the wire: type and length, each high-order byte first, and the value. */
  lemma RecordLayout(t: Tlv)
    ensures var r := Record(t);
            && |r| == 4 + |t.value| && r[4..] == t.value
            && r[0] as int * 0x100 + r[1] == t.typ && r[2] as int * 0x100 + r[3] == |t.value|
  {
  }

  function Reverse(list: seq<Tlv>): (r: seq<Tlv>)
    ensures |r| == |list|
    ensures forall i :: 0 <= i < |list| ==> r[i] == list[|list| - 1 - i]
  {
    if |list| == 0 then [] else Reverse(list[1..]) + [list[0]]
  }

  // ----- Reading -----

  // Rejected is the NULL of the error exit; Diverges stands for a call that never returns.
  datatype ChainResult = Chain(list: seq<Tlv>) | Rejected | Diverges

  // The body of the loop in aim_readtlvchain: None is "goto errout".
  function ReadRecord(c: Cursor): (r: Option<(Tlv, Cursor)>)
    requires c.Valid()
    ensures r.Some? ==> r.value.1.Valid() && r.value.1.buf == c.buf && r.value.1.Room() <= c.Room()
    ensures r.Some? && c.Room() > 1 ==> r.value.1.Room() < c.Room()
  {
    var d := c.Skip(2);
    var e := d.Skip(2);
    if d.U16() > e.Room() then None
    else Some((Tlv(c.U16(), e.Take(d.U16()).value), e.Skip(d.U16())))
  }

  // n iterations of that loop; None means it is still running.
  function RunLoop(n: nat, c: Cursor, list: seq<Tlv>): Option<ChainResult>
    requires c.Valid()
  {
    if c.Room() == 0 then Some(Chain(list))
    else if n == 0 then None
    else
      match ReadRecord(c)
      case None => Some(Rejected)
      case Some((t, d)) => RunLoop(n - 1, d, [t] + list)
  }

  // The outcome of the loop, each record put in front of the list read so far.
  function ReadFrom(c: Cursor, list: seq<Tlv>): ChainResult
    requires c.Valid()
    decreases c.Room()
  {
    if c.Room() == 0 then Chain(list)
    else if c.Room() == 1 then Diverges
    else
      match ReadRecord(c)
      case None => Rejected
      case Some((t, d)) => ReadFrom(d, [t] + list)
  }

  // With a single byte left over neither aimbs_get16 advances and the length reads as 0.
  lemma OneByteIsStuck(c: Cursor)
    requires c.Valid() && c.Room() == 1
    ensures ReadRecord(c) == Some((Tlv(0, []), c))
  {
    assert c.Skip(2) == c && c.Rest()[..0] == [];
  }

  /** Diverges means exactly that no number of iterations ends the loop; every other outcome
      is reached after at most as many iterations as there are bytes. */
  lemma {:induction false} DivergesMeansForever(c: Cursor, list: seq<Tlv>, n: nat)
    requires c.Valid()
    ensures ReadFrom(c, list) == Diverges ==> RunLoop(n, c, list) == None
    ensures ReadFrom(c, list) != Diverges && n >= c.Room() ==> RunLoop(n, c, list) == Some(ReadFrom(c, list))
    decreases n
  {
    hide ReadRecord;
    if c.Room() > 0 && n > 0 {
      if c.Room() == 1 {
        OneByteIsStuck(c);
        StuckForever(c, list, n);
      } else {
        match ReadRecord(c)
        case None =>
        case Some((t, d)) => DivergesMeansForever(d, [t] + list, n - 1);
      }
    }
  }

  lemma {:induction false} StuckForever(c: Cursor, list: seq<Tlv>, n: nat)
    requires c.Valid() && c.Room() == 1
    ensures RunLoop(n, c, list) == None
    decreases n
  {
    if n > 0 {
      OneByteIsStuck(c);
      StuckForever(c, [Tlv(0, [])] + list, n - 1);
    }
  }

  // A byte string no record can be split off: too short for a header, or over-long.
  predicate Irreducible(s: seq<byte>) {
    |s| < 4 || Octets.Get16(s[2..4]) > |s| - 4
  }

  // The record a reducible byte string starts with.
  function First(s: seq<byte>): (t: Tlv)
    requires !Irreducible(s)
    ensures |s| >= 4 + |t.value|
  {
    Tlv(Octets.Get16(s[..2]), s[4..4 + Octets.Get16(s[2..4])])
  }

  lemma FirstIsPrefix(s: seq<byte>)
    requires !Irreducible(s)
    ensures s == Record(First(s)) + s[4 + |First(s).value|..]
  {
    Octets.PutGet16(s[..2]);
    Octets.PutGet16(s[2..4]);
    assert s[..2] + s[2..4] == s[..4];
    var n := |First(s).value|;
    assert s[..4] + s[4..4 + n] + s[4 + n..] == s;
  }

  lemma FirstOfRecord(t: Tlv, rest: seq<byte>)
    ensures !Irreducible(Record(t) + rest) && First(Record(t) + rest) == t
    ensures (Record(t) + rest)[4 + |t.value|..] == rest
  {
    var s := Record(t) + rest;
    assert s[..2] == Octets.Put16(t.typ) && s[2..4] == Octets.Put16(|t.value|);
    Octets.GetPut16(t.typ);
    Octets.GetPut16(|t.value|);
    assert s[4..4 + |t.value|] == t.value;
  }

  // Split off as many records as possible.
  function Decompose(s: seq<byte>): (seq<Tlv>, seq<byte>) {
    if Irreducible(s) then ([], s)
    else
      var (w, rest) := Decompose(s[4 + |First(s).value|..]);
      ([First(s)] + w, rest)
  }

  lemma RecordInFront(t: Tlv, w: seq<Tlv>, rest: seq<byte>)
    ensures Wire([t] + w) + rest == Record(t) + (Wire(w) + rest)
  {
    hide Record;
    assert ([t] + w)[1..] == w;
    assert Record(t) + Wire(w) + rest == Record(t) + (Wire(w) + rest);
  }

  lemma {:induction false} DecomposeWhole(s: seq<byte>)
    ensures Wire(Decompose(s).0) + Decompose(s).1 == s && Irreducible(Decompose(s).1)
  {
    hide Record, First;
    if Irreducible(s) {
      assert Wire([]) + s == s;
    } else {
      hide Wire;
      var t, s' := First(s), s[4 + |First(s).value|..];
      DecomposeWhole(s');
      FirstIsPrefix(s);
      RecordInFront(t, Decompose(s').0, Decompose(s').1);
    }
  }

  lemma {:induction false} DecomposeUnique(w: seq<Tlv>, rest: seq<byte>)
    requires Irreducible(rest)
    ensures Decompose(Wire(w) + rest) == (w, rest)
  {
    if |w| == 0 {
      assert Wire(w) + rest == rest;
    } else {
      var tail := Wire(w[1..]) + rest;
      assert Wire(w) + rest == Record(w[0]) + tail;
      FirstOfRecord(w[0], tail);
      DecomposeUnique(w[1..], rest);
      assert [w[0]] + w[1..] == w;
    }
  }

  // What reading makes of the bytes that remain after the last whole record.
  function Finish(list: seq<Tlv>, rest: seq<byte>): ChainResult {
    if |rest| == 0 then Chain(list)
    else if |rest| == 2 then Chain([Tlv(Octets.Get16(rest), [])] + list)
    else if |rest| < 4 then Diverges
    else Rejected
  }

  /** Reading returns the records in reverse order. It is cut off by what remains behind the
      last whole record: nothing and two bytes are accepted, one and three bytes are never
      got past, and an over-long record is rejected. */
  lemma {:induction false} ReadCharacterised(c: Cursor, list: seq<Tlv>)
    requires c.Valid()
    ensures var (w, rest) := Decompose(c.Rest());
            ReadFrom(c, list) == Finish(Reverse(w) + list, rest)
    decreases c.Room()
  {
    var s := c.Rest();
    if c.Room() == 0 {
      assert Reverse([]) + list == list;
    } else if c.Room() < 4 {
      assert Reverse([]) + list == list;
      ReadShort(c, list);
    } else if !Irreducible(s) {
      ReadWhole(c);
      hide ReadRecord, First, Finish, Irreducible;
      var t, d := First(s), c.Skip(4 + |First(s).value|);
      ReadCharacterised(d, [t] + list);
      ReverseNext(t, Decompose(d.Rest()).0, list);
    } else {
      assert s[2..][..2] == s[2..4];
      assert Reverse([]) + list == list;
    }
  }

  lemma ReverseNext(t: Tlv, w: seq<Tlv>, list: seq<Tlv>)
    ensures Reverse([t] + w) + list == Reverse(w) + ([t] + list)
  {
    assert ([t] + w)[1..] == w;
  }

  lemma ReadWhole(c: Cursor)
    requires c.Valid() && !Irreducible(c.Rest())
    ensures ReadRecord(c) == Some((First(c.Rest()), c.Skip(4 + |First(c.Rest()).value|)))
  {
    var s := c.Rest();
    var n := Octets.Get16(s[2..4]);
    assert s[2..][..2] == s[2..4];
    assert s[2..][2..][..n] == s[4..4 + n];
  }

  // Reading the header of a record that stands at the position, and jumping behind it.
  lemma HeaderRead(c: Cursor, t: Tlv, rest: seq<byte>)
    requires c.Valid() && c.Rest() == Record(t) + rest
    ensures 4 + |t.value| <= c.Room() && c.Skip(4 + |t.value|).Rest() == rest
    ensures c.U16() == t.typ && c.Skip(2).U16() == |t.value| && c.Skip(2).Skip(2).Rest() == t.value + rest
    ensures forall f: Cursor :: f.Valid() && f.buf == c.buf ==>
              f.SetPos(c.Skip(2).Skip(2).pos + |t.value|) == c.Skip(4 + |t.value|)
  {
    FirstOfRecord(t, rest);
    assert c.Rest()[2..][..2] == c.Rest()[2..4];
    assert c.Skip(2).Skip(2).Rest() == t.value + rest;
  }

  lemma ReadShort(c: Cursor, list: seq<Tlv>)
    requires c.Valid() && 1 <= c.Room() < 4
    ensures ReadFrom(c, list) == Finish(list, c.Rest())
  {
    if c.Room() >= 2 {
      var t, d := Tlv(c.U16(), []), c.Skip(2);
      assert d.Rest()[..0] == [];
      assert ReadRecord(c) == Some((t, d));
      if c.Room() == 2 {
        assert c.Rest()[..2] == c.Rest();
      }
    }
  }

  /** Reading what was written gives the reversed chain, and takes everything. */
  lemma ReadWritten(c: Cursor, list: seq<Tlv>)
    requires c.Valid() && c.Rest() == Wire(list)
    ensures ReadFrom(c, []) == Chain(Reverse(list))
  {
    ReadCharacterised(c, []);
    DecomposeUnique(list, []);
    assert Wire(list) + [] == Wire(list);
    assert Reverse(list) + [] == Reverse(list);
  }

  /** Every buffer is whole records and a rest that holds none. Reading ends on every buffer whose
      rest is of zero or two bytes or an over-long record, on no other, and rejects exactly the
      over-long ones. */
  lemma ReadOutcome(c: Cursor)
    requires c.Valid()
    ensures var (w, rest) := Decompose(c.Rest());
            && c.Rest() == Wire(w) + rest && Irreducible(rest)
            && (ReadFrom(c, []) == Diverges <==> |rest| == 1 || |rest| == 3)
            && (ReadFrom(c, []) == Rejected <==> |rest| >= 4)
            && (|rest| == 0 ==> ReadFrom(c, []) == Chain(Reverse(w)))
            && (|rest| == 2 ==> ReadFrom(c, []) == Chain([Tlv(Octets.Get16(rest), [])] + Reverse(w)))
  {
    ReadCharacterised(c, []);
    DecomposeWhole(c.Rest());
    hide ReadFrom, Decompose, Reverse, Irreducible;
    var (w, rest) := Decompose(c.Rest());
    assert Reverse(w) + [] == Reverse(w);
  }

  // aim_readtlvchain. Where the C loop would spin without consuming anything the model stops
  // and says so.
  method ReadChain(bs: Bstream) returns (r: ChainResult)
    requires bs.Valid()
    modifies bs`offset
    ensures bs.Valid() && r == old(ReadFrom(bs.View(), []))
    ensures r.Chain? ==> bs.View() == Cursor(old(bs.View()).buf, |old(bs.View()).buf|)
  {
    var list: seq<Tlv> := [];
    var room := bs.Empty();
    while room > 0
      invariant bs.Valid() && room == bs.View().Room() && bs.View().buf == old(bs.View()).buf
      invariant ReadFrom(bs.View(), list) == old(ReadFrom(bs.View(), []))
      decreases room
    {
      if room == 1 {
        return Diverges;
      }
      ghost var c := bs.View();
      var typ := bs.Get16();
      var length := bs.Get16();
      room := bs.Empty();
      if length > room {
        return Rejected;
      }
      var value := bs.GetRaw(length);
      assert ReadRecord(c) == Some((Tlv(typ, value.value), bs.View()));
      list := [Tlv(typ, value.value)] + list;
      room := bs.Empty();
    }
    r := Chain(list);
  }

  // ----- Looking up -----

  function Count(list: seq<Tlv>, t: u16): nat {
    if |list| == 0 then 0 else Count(list[..|list| - 1], t) + if list[|list| - 1].typ == t then 1 else 0
  }

  // aim_gettlv: the first record at which the number of type-t records seen reaches n.
  method GetTlv(list: seq<Tlv>, t: u16, n: int) returns (r: Option<Tlv>)
    ensures r == Nth(list, t, n)
  {
    var i := 0;
    for k := 0 to |list|
      invariant i == Count(list[..k], t)
      invariant NthFrom(list, t, n, k) == Nth(list, t, n)
    {
      CountNext(list, t, k);
      if list[k].typ == t {
        i := i + 1;
      }
      if i >= n {
        return Some(list[k]);
      }
    }
    return None;
  }

  function Nth(list: seq<Tlv>, t: u16, n: int): Option<Tlv> {
    NthFrom(list, t, n, 0)
  }

  function NthFrom(list: seq<Tlv>, t: u16, n: int, k: nat): Option<Tlv>
    requires k <= |list|
    decreases |list| - k
  {
    if k == |list| then None
    else if Count(list[..k + 1], t) >= n then Some(list[k])
    else NthFrom(list, t, n, k + 1)
  }

  lemma CountNext(list: seq<Tlv>, t: u16, k: nat)
    requires k < |list|
    ensures Count(list[..k + 1], t) == Count(list[..k], t) + if list[k].typ == t then 1 else 0
  {
    assert list[..k + 1][..k] == list[..k];
  }

  lemma {:induction false} CountAppend(xs: seq<Tlv>, ys: seq<Tlv>, t: u16)
    ensures Count(xs + ys, t) == Count(xs, t) + Count(ys, t)
  {
    if |ys| == 0 {
      assert xs + ys == xs;
    } else {
      assert (xs + ys)[..|xs + ys| - 1] == xs + ys[..|ys| - 1];
      CountAppend(xs, ys[..|ys| - 1], t);
    }
  }

  lemma {:induction false} CountReverse(list: seq<Tlv>, t: u16)
    ensures Count(Reverse(list), t) == Count(list, t)
  {
    if |list| > 0 {
      CountReverse(list[1..], t);
      CountAppend(Reverse(list[1..]), [list[0]], t);
      CountAppend([list[0]], list[1..], t);
      assert [list[0]] + list[1..] == list;
      assert Count([list[0]], t) == Count([], t) + if list[0].typ == t then 1 else 0;
    }
  }

  lemma {:induction false} NthFound(list: seq<Tlv>, t: u16, n: int, from: nat, k: nat)
    requires from <= k < |list|
    requires Count(list[..k], t) < n <= Count(list[..k + 1], t)
    ensures NthFrom(list, t, n, from) == Some(list[k])
    decreases k - from
  {
    if from < k {
      CountAppend(list[..from + 1], list[from + 1..k], t);
      assert list[..from + 1] + list[from + 1..k] == list[..k];
      NthFound(list, t, n, from + 1, k);
    }
  }

  lemma {:induction false} NthMissing(list: seq<Tlv>, t: u16, n: int, from: nat)
    requires from <= |list| && Count(list, t) < n
    ensures NthFrom(list, t, n, from) == None
    decreases |list| - from
  {
    if from < |list| {
      CountAppend(list[..from + 1], list[from + 1..], t);
      assert list[..from + 1] + list[from + 1..] == list;
      NthMissing(list, t, n, from + 1);
    }
  }

  /** On a chain that was read, the n-th record of type t is the n-th one counted from the end
      of the wire. */
  lemma NthFromEnd(wire: seq<Tlv>, t: u16, n: int, k: nat)
    requires k < |wire| && wire[k].typ == t && Count(wire[k + 1..], t) == n - 1
    ensures Nth(Reverse(wire), t, n) == Some(wire[k])
  {
    var list, j := Reverse(wire), |wire| - 1 - k;
    var behind := wire[k + 1..];
    assert list[..j] == Reverse(behind);
    CountReverse(behind, t);
    hide Reverse;
    CountNext(list, t, j);
    NthFound(list, t, n, 0, j);
  }

  /** The first of a type is found exactly when the wire holds one. */
  lemma NthIfAny(wire: seq<Tlv>, t: u16)
    ensures Nth(Reverse(wire), t, 1).Some? <==> Has(wire, t)
  {
    CountsAny(wire, t);
    CountReverse(wire, t);
    hide Reverse;
    var list := Reverse(wire);
    if Has(wire, t) {
      NthIfCounted(list, t, 0);
    } else {
      NthMissing(list, t, 1, 0);
    }
  }

  lemma {:induction false} CountsAny(list: seq<Tlv>, t: u16)
    ensures Count(list, t) > 0 <==> Has(list, t)
  {
    if |list| > 0 {
      var front, last := list[..|list| - 1], list[|list| - 1];
      CountsAny(front, t);
      assert list == front + [last];
      HasAppend(front, [last], t);
      assert last in [last];
    }
  }

  lemma {:induction false} NthIfCounted(list: seq<Tlv>, t: u16, k: nat)
    requires k <= |list| && Count(list, t) > 0 && Count(list[..k], t) == 0
    ensures NthFrom(list, t, 1, k).Some?
    decreases |list| - k
  {
    assert list[..|list|] == list;
    if Count(list[..k + 1], t) == 0 {
      NthIfCounted(list, t, k + 1);
    }
  }

  /** ... and there is none when the wire holds fewer than n. */
  lemma NthFromEndMissing(wire: seq<Tlv>, t: u16, n: int)
    requires Count(wire, t) < n
    ensures Nth(Reverse(wire), t, n) == None
  {
    CountReverse(wire, t);
    NthMissing(Reverse(wire), t, n, 0);
  }

  // ----- Building and writing -----

  // The effect of aim_writetlvchain: all of the chain or nothing.
  function Write(c: Cursor, list: seq<Tlv>): (d: Cursor)
    requires c.Valid()
    ensures d.Valid()
  {
    c.Put(Wire(list))
  }

  lemma WirePrefix(list: seq<Tlv>, i: nat)
    requires i < |list|
    ensures |Wire(list[..i])| + |Record(list[i])| <= |Wire(list)|
  {
    WireNext(list, i);
    assert list == list[..i + 1] + list[i + 1..];
    WireAppend(list[..i + 1], list[i + 1..]);
  }

  // The value aim_addtlvtochain_frozentlvlist stores: the inner chain, written through a
  // stream whose length is kept in 16 bits.
  function Frozen(inner: seq<Tlv>): Short {
    if |Wire(inner)| < 0x1_0000 then Wire(inner) else []
  }

  class TlvChain {
    var items: seq<Tlv>

    constructor ()
      ensures items == []
    {
      items := [];
    }

    // aim_addtlvtochain_raw: a copy of l bytes of v, at the end.
    method AddRaw(t: u16, l: u16, v: seq<byte>)
      requires l <= |v|
      modifies this
      ensures items == old(items) + [Tlv(t, v[..l])]
    {
      items := items + [Tlv(t, v[..l])];
    }

    method Add16(t: u16, v: u16)
      modifies this
      ensures items == old(items) + [Tlv(t, Octets.Put16(v))]
    {
      var v16 := Octets.Put16(v);
      AddRaw(t, 2, v16);
      assert v16[..2] == v16;
    }

    method Add32(t: u16, v: u32)
      modifies this
      ensures items == old(items) + [Tlv(t, Octets.Put32(v))]
    {
      var v32 := Octets.Put32(v);
      AddRaw(t, 4, v32);
      assert v32[..4] == v32;
    }

    method AddNoval(t: u16)
      modifies this
      ensures items == old(items) + [Tlv(t, [])]
    {
      AddRaw(t, 0, []);
    }

    // aim_sizetlvchain.
    method Size() returns (n: nat)
      ensures n == |Wire(items)|
    {
      n := 0;
      assert items[..0] == [];
      for i := 0 to |items|
        invariant n == |Wire(items[..i])|
      {
        WireNext(items, i);
        n := n + 4 + |items[i].value|;
      }
      assert items[..|items|] == items;
    }

    // One round of the write-out loop.
    static method PutRecord(bs: Bstream, t: Tlv)
      requires bs.Valid() && |Record(t)| <= bs.View().Room()
      modifies bs`offset, bs.data
      ensures bs.Valid() && bs.View() == old(bs.View()).Put(Record(t))
    {
      ghost var c := bs.View();
      var r := bs.Put16(t.typ);
      PutTwice(c, Octets.Put16(t.typ), Octets.Put16(|t.value|));
      r := bs.Put16(|t.value|);
      PutTwice(c, Octets.Put16(t.typ) + Octets.Put16(|t.value|), t.value);
      r := bs.PutRaw(t.value);
    }

    // aim_writetlvchain.
    method WriteTo(bs: Bstream) returns (ret: nat)
      requires bs.Valid()
      modifies bs`offset, bs.data
      ensures bs.Valid() && bs.View() == Write(old(bs.View()), items)
      ensures ret == if |Wire(items)| > old(bs.View()).Room() then 0 else 1
    {
      hide Record;
      var goodbuflen := Size();
      var room := bs.Empty();
      if goodbuflen > room {
        return 0;
      }
      ghost var c := bs.View();
      assert items[..0] == [];
      assert c.buf[..c.pos] + [] + c.buf[c.pos..] == c.buf;
      for i := 0 to |items|
        invariant bs.Valid() && bs.data == old(bs.data)
        invariant |Wire(items[..i])| <= c.Room()
        invariant bs.View() == c.Put(Wire(items[..i]))
      {
        WirePrefix(items, i);
        WireNext(items, i);
        PutTwice(c, Wire(items[..i]), Record(items[i]));
        PutRecord(bs, items[i]);
      }
      assert items[..|items|] == items;
      ret := 1;
    }

    // aim_addtlvtochain_frozentlvlist.
    method AddFrozen(t: u16, inner: TlvChain) returns (ret: nat)
      requires inner != this
      modifies this
      ensures items == if inner.items == [] then old(items) else old(items) + [Tlv(t, Frozen(inner.items))]
      ensures ret == |Wire(inner.items)|
    {
      hide Record;
      var buflen := inner.Size();
      if buflen <= 0 {
        return 0;
      }
      var buf := new byte[buflen];
      var bs := new Bstream(buf, buflen);
      var r := inner.WriteTo(bs);
      assert buf[..bs.offset] == bs.View().Written();
      assert bs.View().Written() == Frozen(inner.items);
      AddRaw(t, bs.offset, buf[..]);
      assert buf[..][..bs.offset] == buf[..bs.offset];
      ret := buflen;
    }
  }
}
