/**
  The bounded byte cursors of src/rxqueue.c. A Cursor is the abstract value of an
  aim_bstream_t; the class Bstream is the struct itself, updated in place. Every get and put
  that does not fit leaves the stream as it was: gets then return 0, puts write nothing.
*/
module ByteStream {
  import opened Octets

  datatype Cursor = Cursor(buf: seq<byte>, pos: nat) {

    ghost predicate Valid() {
      pos <= |buf| < 0x1_0000
    }

    // aim_bstream_empty: the bytes between the position and the end.
    function Room(): nat
      requires Valid()
    {
      |buf| - pos
    }

    function Rest(): seq<byte>
      requires Valid()
    {
      buf[pos..]
    }

    // Everything in front of the position: what a writer has put so far.
    function Written(): seq<byte>
      requires Valid()
    {
      buf[..pos]
    }

    function Put(s: seq<byte>): (c: Cursor)
      requires Valid()
      ensures c.Valid()
    {
      if |s| > Room() then this else Cursor(buf[..pos] + s + buf[pos + |s|..], pos + |s|)
    }

    function Skip(n: nat): (c: Cursor)
      requires Valid()
      ensures c.Valid() && c.buf == buf
      ensures n <= Room() ==> c.Rest() == Rest()[n..]
    {
      if n > Room() then this else Cursor(buf, pos + n)
    }

    // The n bytes at the position, if there are that many.
    function Take(n: nat): Option<seq<byte>>
      requires Valid()
    {
      if n > Room() then None else Some(Rest()[..n])
    }

    // The next n bytes as far as the buffer goes, without moving.
    function Peek(n: nat): (s: seq<byte>)
      requires Valid()
      ensures |s| == if n <= Room() then n else Room()
    {
      if n > Room() then Rest() else Rest()[..n]
    }

    function U8(): byte
      requires Valid()
    {
      if Room() < 1 then 0 else Rest()[0]
    }

    function U16(): u16
      requires Valid()
    {
      if Room() < 2 then 0 else Octets.Get16(Rest()[..2])
    }

    function U32(): u32
      requires Valid()
    {
      if Room() < 4 then 0 else Octets.Get32(Rest()[..4])
    }

    // aim_bstream_setpos: a position behind the end is refused.
    function SetPos(off: nat): (c: Cursor)
      requires Valid()
      ensures c.Valid()
    {
      if off > |buf| then this else Cursor(buf, off)
    }
  }

  // Reading bytes that are known to stand at the position.
  lemma ReadsPrefix(c: Cursor, s: seq<byte>, rest: seq<byte>)
    requires c.Valid() && c.Rest() == s + rest
    ensures |s| <= c.Room() && c.Take(|s|) == Some(s) && c.Skip(|s|).Rest() == rest
    ensures c.Room() == |s| + |rest| && c.Skip(|s|).Room() == |rest| && c.Peek(|s|) == s
    ensures |s| == 1 ==> c.U8() == s[0]
    ensures |s| == 2 ==> c.U16() == Octets.Get16(s)
    ensures |s| == 4 ==> c.U32() == Octets.Get32(s)
  {
    assert c.Rest()[..|s|] == s;
    assert c.Rest()[|s|..] == rest;
  }

  // A series of puts.
  function PutAll(c: Cursor, chunks: seq<seq<byte>>): (d: Cursor)
    requires c.Valid()
    ensures d.Valid() && |d.buf| == |c.buf|
  {
    if |chunks| == 0 then c else PutAll(c, chunks[..|chunks| - 1]).Put(chunks[|chunks| - 1])
  }

  lemma PutAllNext(c: Cursor, chunks: seq<seq<byte>>, s: seq<byte>)
    requires c.Valid()
    ensures PutAll(c, chunks + [s]) == PutAll(c, chunks).Put(s)
  {
    assert (chunks + [s])[..|chunks|] == chunks;
  }

  lemma Puts4(c: Cursor, s: seq<byte>, t: seq<byte>, u: seq<byte>, v: seq<byte>)
    requires c.Valid()
    ensures PutAll(c, [s, t, u, v]) == c.Put(s).Put(t).Put(u).Put(v)
  {
    PutAllNext(c, [], s);
    PutAllNext(c, [s], t);
    assert [s] + [t] == [s, t];
    PutAllNext(c, [s, t], u);
    assert [s, t] + [u] == [s, t, u];
    PutAllNext(c, [s, t, u], v);
    assert [s, t, u] + [v] == [s, t, u, v];
  }

  lemma PutAllAppend(c: Cursor, xs: seq<seq<byte>>, ys: seq<seq<byte>>)
    requires c.Valid()
    ensures PutAll(c, xs + ys) == PutAll(PutAll(c, xs), ys)
  {
    if |ys| == 0 {
      assert xs + ys == xs;
    } else {
      var n := |ys| - 1;
      PutAllAppend(c, xs, ys[..n]);
      assert (xs + ys)[..|xs + ys| - 1] == xs + ys[..n];
    }
  }

  // Every put was carried out.
  ghost predicate NothingDropped(c: Cursor, chunks: seq<seq<byte>>)
    requires c.Valid()
  {
    |chunks| == 0 ||
    var n := |chunks| - 1;
    NothingDropped(c, chunks[..n]) && |chunks[n]| <= PutAll(c, chunks[..n]).Room()
  }

  /** A series of puts drops nothing exactly when all of it fits, and then the stream holds
      the chunks one after the other. */
  lemma {:induction false} PutAllFits(c: Cursor, chunks: seq<seq<byte>>)
    requires c.Valid()
    ensures NothingDropped(c, chunks) <==> |Flatten(chunks)| <= c.Room()
    ensures NothingDropped(c, chunks) ==> PutAll(c, chunks) == c.Put(Flatten(chunks))
  {
    if |chunks| == 0 {
      assert c.buf[..c.pos] + [] + c.buf[c.pos..] == c.buf;
    } else {
      var n := |chunks| - 1;
      PutAllFits(c, chunks[..n]);
      if NothingDropped(c, chunks[..n]) {
        PutTwice(c, Flatten(chunks[..n]), chunks[n]);
      }
    }
  }

  lemma PutTwice(c: Cursor, s: seq<byte>, t: seq<byte>)
    requires c.Valid() && |s| <= c.Room()
    ensures c.Put(s).Room() == c.Room() - |s|
    ensures |s| + |t| <= c.Room() ==> c.Put(s).Put(t) == c.Put(s + t)
  {
    if |s| + |t| <= c.Room() {
      var d := c.Put(s);
      assert d.buf[..d.pos] == c.buf[..c.pos] + s;
      assert d.buf[d.pos + |t|..] == c.buf[c.pos + |s| + |t|..];
      assert c.buf[..c.pos] + s + t == c.buf[..c.pos] + (s + t);
    }
  }

  lemma PutFive(c: Cursor, s: seq<byte>, t: seq<byte>, u: seq<byte>, v: seq<byte>, w: seq<byte>)
    requires c.Valid() && |s| + |t| + |u| + |v| + |w| <= c.Room()
    ensures c.Put(s).Put(t).Put(u).Put(v).Put(w) == c.Put(s + t + u + v + w)
  {
    PutTwice(c, s, t);
    PutTwice(c, s + t, u);
    PutTwice(c, s + t + u, v);
    PutTwice(c, s + t + u + v, w);
  }

  // Going back to where a put started and reading on from there.
  lemma PutThenRead(c: Cursor, s: seq<byte>)
    requires c.Valid() && |s| <= c.Room()
    ensures var start := Cursor(c.Put(s).buf, c.pos);
            start.Valid() && start.Rest() == s + c.buf[c.pos + |s|..] && start.Skip(|s|) == c.Put(s)
  {
  }

  lemma PutWritten(c: Cursor, s: seq<byte>)
    requires c.Valid() && |s| <= c.Room()
    ensures c.Put(s).Written() == c.Written() + s
  {
  }

  class Bstream {
    var data: array<byte>
    var len: nat
    var offset: nat

    ghost predicate Valid()
      reads this
    {
      offset <= len <= data.Length && len < 0x1_0000
    }

    ghost function View(): (c: Cursor)
      requires Valid()
      reads this, data
      ensures c.Valid()
    {
      Cursor(data[..len], offset)
    }

    // aim_bstream_init: len is kept in 16 bits.
    constructor (data: array<byte>, len: int)
      requires Low16(len) <= data.Length
      ensures Valid() && this.data == data && this.len == Low16(len) && offset == 0
      ensures View() == Cursor(data[..Low16(len)], 0)
    {
      this.data := data;
      this.len := Low16(len);
      this.offset := 0;
    }

    method Empty() returns (n: nat)
      requires Valid()
      ensures n == View().Room()
    {
      n := len - offset;
    }

    // A negative position is taken and cut to 16 bits, and can leave the stream unusable.
    method SetPos(off: int) returns (ret: int)
      requires Valid()
      modifies this`offset
      ensures off >= 0 ==> Valid() && View() == old(View()).SetPos(off)
      ensures off < 0 ==> offset == Low16(off)
      ensures ret == if off > len then -1 else off
    {
      if off > len {
        return -1;
      }
      offset := Low16(off);
      ret := off;
    }

    method Rewind()
      requires Valid()
      modifies this`offset
      ensures Valid() && View() == Cursor(old(View()).buf, 0)
    {
      var ret := SetPos(0);
    }

    // A negative count moves back, in 16 bits.
    method Advance(n: int) returns (ret: int)
      requires Valid()
      modifies this`offset
      ensures n >= 0 ==> Valid() && View() == old(View()).Skip(n)
      ensures n < 0 ==> offset == Low16(old(offset) + n)
      ensures ret == if n > old(View()).Room() then 0 else n
    {
      if len - offset < n {
        return 0;
      }
      offset := Low16(offset + n);
      ret := n;
    }

    method Get8() returns (v: byte)
      requires Valid()
      modifies this`offset
      ensures Valid() && v == old(View()).U8() && View() == old(View()).Skip(1)
    {
      if len - offset < 1 {
        return 0;
      }
      offset := offset + 1;
      v := data[offset - 1];
    }

    method Get16() returns (v: u16)
      requires Valid()
      modifies this`offset
      ensures Valid() && v == old(View()).U16() && View() == old(View()).Skip(2)
    {
      if len - offset < 2 {
        return 0;
      }
      ghost var s := View().Rest()[..2];
      assert s == data[offset..offset + 2];
      offset := offset + 2;
      v := data[offset - 2] as int * 0x100 + data[offset - 1];
    }

    method Get32() returns (v: u32)
      requires Valid()
      modifies this`offset
      ensures Valid() && v == old(View()).U32() && View() == old(View()).Skip(4)
    {
      if len - offset < 4 {
        return 0;
      }
      ghost var s := View().Rest()[..4];
      assert s == data[offset..offset + 4];
      offset := offset + 4;
      v := data[offset - 4] as int * 0x100_0000 + data[offset - 3] as int * 0x1_0000
        + data[offset - 2] as int * 0x100 + data[offset - 1];
    }

    // aimbs_getraw: NULL when there are fewer than n bytes.
    method GetRaw(n: nat) returns (s: Option<seq<byte>>)
      requires Valid()
      modifies this`offset
      ensures Valid() && s == old(View()).Take(n) && View() == old(View()).Skip(n)
    {
      if len - offset < n {
        return None;
      }
      s := Some(data[offset..offset + n]);
      assert data[offset..offset + n] == data[..len][offset..][..n];
      offset := offset + n;
    }

    // What a pointer to the current position gives access to.
    method Peek(n: nat) returns (s: seq<byte>)
      requires Valid()
      ensures s == View().Peek(n)
    {
      s := data[offset..if offset + n <= len then offset + n else len];
      assert s == data[..len][offset..][..|s|];
    }

    method Put8(v: byte) returns (ret: nat)
      requires Valid()
      modifies this`offset, data
      ensures Valid() && View() == old(View()).Put([v])
      ensures ret == if old(View()).Room() < 1 then 0 else 1
    {
      if len - offset < 1 {
        return 0;
      }
      data[offset] := v;
      offset := offset + 1;
      ret := 1;
    }

    method Put16(v: u16) returns (ret: nat)
      requires Valid()
      modifies this`offset, data
      ensures Valid() && View() == old(View()).Put(Octets.Put16(v))
      ensures ret == if old(View()).Room() < 2 then 0 else 2
    {
      if len - offset < 2 {
        return 0;
      }
      data[offset] := v / 0x100;
      data[offset + 1] := v % 0x100;
      offset := offset + 2;
      ret := 2;
    }

    method Put32(v: u32) returns (ret: nat)
      requires Valid()
      modifies this`offset, data
      ensures Valid() && View() == old(View()).Put(Octets.Put32(v))
      ensures ret == if old(View()).Room() < 4 then 0 else 1
    {
      if len - offset < 4 {
        return 0;
      }
      ghost var s := Octets.Put32(v);
      assert s == [v / 0x100_0000, v / 0x1_0000 % 0x100, v / 0x100 % 0x100, v % 0x100];
      hide Octets.Put32;
      data[offset] := v / 0x100_0000;
      data[offset + 1] := v / 0x1_0000 % 0x100;
      data[offset + 2] := v / 0x100 % 0x100;
      data[offset + 3] := v % 0x100;
      offset := offset + 4;
      ret := 1;
    }

    method PutRaw(v: seq<byte>) returns (ret: nat)
      requires Valid()
      modifies this`offset, data
      ensures Valid() && View() == old(View()).Put(v)
      ensures ret == if old(View()).Room() < |v| then 0 else |v|
    {
      if len - offset < |v| {
        return 0;
      }
      forall i | 0 <= i < |v| {
        data[offset + i] := v[i];
      }
      offset := offset + |v|;
      ret := |v|;
    }

    // aimbs_putbs: copy n bytes from another stream; neither moves when they do not fit.
    method PutBs(src: Bstream, n: nat) returns (ret: nat)
      requires Valid() && src.Valid() && src != this && src.data != data
      modifies this`offset, data, src`offset
      ensures Valid() && src.Valid()
      ensures old(src.View().Take(n)).None? ==> View() == old(View()) && src.View() == old(src.View())
      ensures old(src.View().Take(n)).Some? ==>
                && View() == old(View()).Put(old(src.View().Take(n)).value)
                && src.View() == if n > old(View()).Room() then old(src.View()) else old(src.View()).Skip(n)
    {
      if src.len - src.offset < n {
        return 0;
      }
      if len - offset < n {
        return 0;
      }
      forall i | 0 <= i < n {
        data[offset + i] := src.data[src.offset + i];
      }
      offset := offset + n;
      src.offset := src.offset + n;
      ret := n;
    }
  }

  // A string written one byte at a time.
  function Bytewise(s: seq<byte>): seq<seq<byte>> {
    if |s| == 0 then [] else Bytewise(s[..|s| - 1]) + [[s[|s| - 1]]]
  }

  lemma BytewiseFlatten(s: seq<byte>)
    ensures Flatten(Bytewise(s)) == s
  {
    if |s| > 0 {
      var n := |s| - 1;
      BytewiseFlatten(s[..n]);
      FlattenSnoc(Bytewise(s[..n]), [s[n]]);
    }
  }

  method PutBytewise(bs: Bstream, s: seq<byte>)
    requires bs.Valid()
    modifies bs`offset, bs.data
    ensures bs.Valid() && bs.View() == PutAll(old(bs.View()), Bytewise(s))
  {
    hide PutAll;
    ghost var c := bs.View();
    NoPuts(c);
    assert s[..0] == [];
    for i := 0 to |s|
      invariant bs.Valid() && bs.data == old(bs.data)
      invariant bs.View() == PutAll(c, Bytewise(s[..i]))
    {
      var n := bs.Put8(s[i]);
      PutAllNext(c, Bytewise(s[..i]), [s[i]]);
      assert s[..i + 1][..i] == s[..i];
    }
    assert s[..|s|] == s;
  }

  lemma NoPuts(c: Cursor)
    requires c.Valid()
    ensures PutAll(c, []) == c
  {
  }
}
