/**
  User information blocks and the capability lists inside them (src/info.c).
*/
module UserInfos {
  import opened Octets
  import opened ByteStream
  import opened Tlvs

  // ----- Capabilities -----

  // A 32-bit mask, as the set of the numbers of its set bits.
  type Bits = set<nat>

  datatype Cap = Cap(bit: nat, data: seq<byte>)

  // The table aim_caps, without its end marker: the bit of each flag and its 16-byte identifier.
  const CAPS: seq<Cap> := [
    Cap(3, [0x74, 0x8f, 0x24, 0x20, 0x62, 0x87, 0x11, 0xd1, 0x82, 0x22, 0x44, 0x45, 0x53, 0x54, 0x00, 0x00]),
    Cap(1, [0x09, 0x46, 0x13, 0x41, 0x4c, 0x7f, 0x11, 0xd1, 0x82, 0x22, 0x44, 0x45, 0x53, 0x54, 0x00, 0x00]),
    Cap(5, [0x09, 0x46, 0x13, 0x43, 0x4c, 0x7f, 0x11, 0xd1, 0x82, 0x22, 0x44, 0x45, 0x53, 0x54, 0x00, 0x00]),
    Cap(10, [0x09, 0x46, 0x13, 0x44, 0x4c, 0x7f, 0x11, 0xd1, 0x82, 0x22, 0x44, 0x45, 0x53, 0x54, 0x00, 0x00]),
    Cap(2, [0x09, 0x46, 0x13, 0x45, 0x4c, 0x7f, 0x11, 0xd1, 0x82, 0x22, 0x44, 0x45, 0x53, 0x54, 0x00, 0x00]),
    Cap(0, [0x09, 0x46, 0x13, 0x46, 0x4c, 0x7f, 0x11, 0xd1, 0x82, 0x22, 0x44, 0x45, 0x53, 0x54, 0x00, 0x00]),
    Cap(7, [0x09, 0x46, 0x13, 0x47, 0x4c, 0x7f, 0x11, 0xd1, 0x82, 0x22, 0x44, 0x45, 0x53, 0x54, 0x00, 0x00]),
    Cap(4, [0x09, 0x46, 0x13, 0x48, 0x4c, 0x7f, 0x11, 0xd1, 0x82, 0x22, 0x44, 0x45, 0x53, 0x54, 0x00, 0x00]),
    Cap(14, [0x09, 0x46, 0x13, 0x49, 0x4c, 0x7f, 0x11, 0xd1, 0x82, 0x22, 0x44, 0x45, 0x53, 0x54, 0x00, 0x00]),
    Cap(6, [0x09, 0x46, 0x13, 0x4a, 0x4c, 0x7f, 0x11, 0xd1, 0x82, 0x22, 0x44, 0x45, 0x53, 0x54, 0x00, 0x00]),
    Cap(9, [0x09, 0x46, 0x13, 0x4a, 0x4c, 0x7f, 0x11, 0xd1, 0x22, 0x82, 0x44, 0x45, 0x53, 0x54, 0x00, 0x00]),
    Cap(8, [0x09, 0x46, 0x13, 0x4b, 0x4c, 0x7f, 0x11, 0xd1, 0x82, 0x22, 0x44, 0x45, 0x53, 0x54, 0x00, 0x00]),
    Cap(12, [0x97, 0xb1, 0x27, 0x51, 0x24, 0x3c, 0x43, 0x34, 0xad, 0x22, 0xd6, 0xab, 0xf7, 0x3f, 0x14, 0x92]),
    Cap(15, [0x2e, 0x7a, 0x64, 0x75, 0xfa, 0xdf, 0x4d, 0xc8, 0x88, 0x6f, 0xea, 0x35, 0x95, 0xfd, 0xb6, 0xdf]),
    Cap(13, [0x00, 0x00, 0x00, 0x00, 0x00, 0x00, 0x00, 0x00, 0x00, 0x00, 0x00, 0x00, 0x00, 0x00, 0x00, 0x00]),
    Cap(16, [0xf2, 0xe7, 0xc7, 0xf4, 0xfe, 0xad, 0x4d, 0xfb, 0xb2, 0x35, 0x36, 0x79, 0x8b, 0xdf, 0x00, 0x00]),
    Cap(11, [0xaa, 0x4a, 0x32, 0xb5, 0xf8, 0x84, 0x48, 0xc6, 0xa3, 0xd7, 0x8c, 0x50, 0x97, 0x19, 0xfd, 0x5b])
  ]

  predicate Listed(e: Cap) { e in CAPS }

  // The first table entry with this identifier.
  function Lookup(block: seq<byte>, i: nat): Bits
    requires i <= |CAPS|
    decreases |CAPS| - i
  {
    if i == |CAPS| then {} else if CAPS[i].data == block then {CAPS[i].bit} else Lookup(block, i + 1)
  }

  // The table entries from i on that are set in caps.
  function Chosen(caps: Bits, i: nat): (s: seq<Cap>)
    requires i <= |CAPS|
    ensures |s| <= |CAPS| - i
    ensures forall k :: 0 <= k < |s| ==> Listed(s[k]) && s[k].bit in caps
    decreases |CAPS| - i
  {
    if i == |CAPS| then []
    else if CAPS[i].bit in caps then [CAPS[i]] + Chosen(caps, i + 1)
    else Chosen(caps, i + 1)
  }

  function BitsOf(s: seq<Cap>): Bits {
    set k | 0 <= k < |s| :: s[k].bit
  }

  function Blocks(s: seq<Cap>): seq<byte> {
    if |s| == 0 then [] else s[0].data + Blocks(s[1..])
  }

  const KNOWN: Bits := set k | 0 <= k < |CAPS| :: CAPS[k].bit

  // aim_addtlvtochain_caps has room for 16 identifiers.
  function Sent(caps: Bits): (s: seq<Cap>)
    ensures |s| <= 16
  {
    var s := Chosen(caps, 0);
    if |s| <= 16 then s else s[..16]
  }

  // ----- Reading and writing capabilities -----

  // aim_getcap from byte offset on. None: fewer than 16 bytes are left, and the C code
  // compares against a null pointer.
  function GetCapFrom(c: Cursor, len: nat, offset: nat, flags: Bits): (r: Option<(Bits, Cursor)>)
    requires c.Valid()
    ensures r.Some? ==> r.value.1.Valid() && r.value.1.buf == c.buf && r.value.1.pos >= c.pos
    decreases c.Room()
  {
    if c.Room() == 0 || offset >= len then Some((flags, c))
    else
      match c.Take(16)
      case None => None
      case Some(block) => GetCapFrom(c.Skip(16), len, offset + 16, flags + Lookup(block, 0))
  }

  method GetCap(bs: Bstream, len: nat) returns (r: Option<Bits>)
    requires bs.Valid()
    modifies bs`offset
    ensures bs.Valid()
    ensures old(GetCapFrom(bs.View(), len, 0, {})) == if r.Some? then Some((r.value, bs.View())) else None
  {
    var flags: Bits := {};
    var offset := 0;
    var room := bs.Empty();
    while room > 0 && offset < len
      invariant bs.Valid() && room == bs.View().Room()
      invariant GetCapFrom(bs.View(), len, offset, flags) == old(GetCapFrom(bs.View(), len, 0, {}))
      decreases room
    {
      var cap := bs.GetRaw(16);
      if cap.None? {
        return None;
      }
      var found := Identify(cap.value);
      flags := flags + found;
      offset := offset + 16;
      room := bs.Empty();
    }
    r := Some(flags);
  }

  // The table search inside aim_getcap.
  method Identify(block: seq<byte>) returns (flag: Bits)
    ensures flag == Lookup(block, 0)
  {
    var i := 0;
    while i < |CAPS|
      invariant i <= |CAPS| && Lookup(block, i) == Lookup(block, 0)
    {
      if CAPS[i].data == block {
        return {CAPS[i].bit};
      }
      i := i + 1;
    }
    flag := {};
  }

  // aim_putcap: the loop ends when the stream is full.
  function PutCapFrom(c: Cursor, caps: Bits, i: nat): (d: Cursor)
    requires c.Valid() && i <= |CAPS|
    ensures d.Valid()
    decreases |CAPS| - i
  {
    if c.Room() == 0 || i == |CAPS| then c
    else PutCapFrom(if CAPS[i].bit in caps then c.Put(CAPS[i].data) else c, caps, i + 1)
  }

  method PutCap(bs: Bstream, caps: Bits)
    requires bs.Valid()
    modifies bs`offset, bs.data
    ensures bs.Valid() && bs.View() == PutCapFrom(old(bs.View()), caps, 0)
  {
    var i := 0;
    var room := bs.Empty();
    while room > 0
      invariant bs.Valid() && bs.data == old(bs.data) && room == bs.View().Room()
      invariant i <= |CAPS| && PutCapFrom(bs.View(), caps, i) == PutCapFrom(old(bs.View()), caps, 0)
      decreases |CAPS| - i
    {
      if i == |CAPS| {
        break;
      }
      if CAPS[i].bit in caps {
        var n := bs.PutRaw(CAPS[i].data);
      }
      i := i + 1;
      room := bs.Empty();
    }
  }

  const KEYS: seq<nat> := [0x2082, 0x4182, 0x4382, 0x4482, 0x4582, 0x4682, 0x4782, 0x4882, 0x4982, 0x4a82, 0x4a22,
                           0x4b82, 0x51ad, 0x7588, 0x0000, 0xf4b2, 0xb5a3]

  // Bytes 3 and 8 of an identifier already tell the table entries apart.
  lemma KeyOf(i: nat)
    requires i < |CAPS|
    ensures |CAPS[i].data| == 16
    ensures CAPS[i].data[3] as int * 0x100 + CAPS[i].data[8] == KEYS[i]
  {
  }

  lemma KeysDistinct(i: nat, j: nat)
    requires i < j < |CAPS|
    ensures KEYS[i] != KEYS[j]
  {
  }

  lemma LookupEntry(k: nat, i: nat)
    requires i <= k < |CAPS|
    ensures Lookup(CAPS[k].data, i) == {CAPS[k].bit}
    decreases k - i
  {
    if i < k {
      KeyOf(i);
      KeyOf(k);
      KeysDistinct(i, k);
      LookupEntry(k, i + 1);
    }
  }

  lemma BlocksLength(s: seq<Cap>)
    requires forall k :: 0 <= k < |s| ==> Listed(s[k])
    ensures |Blocks(s)| == 16 * |s|
  {
    if |s| > 0 {
      var k :| 0 <= k < |CAPS| && CAPS[k] == s[0];
      KeyOf(k);
      BlocksLength(s[1..]);
    }
  }

  lemma OneBlock(c: Cursor, e: Cap, rest: seq<byte>)
    requires c.Valid() && Listed(e) && c.Rest() == e.data + rest
    ensures c.Take(16) == Some(e.data) && Lookup(e.data, 0) == {e.bit}
    ensures c.Room() >= 16 && c.Skip(16).Rest() == rest
  {
    var k :| 0 <= k < |CAPS| && CAPS[k] == e;
    KeyOf(k);
    LookupEntry(k, 0);
  }

  /** aim_getcap finds exactly the capabilities whose identifiers stand on the wire, and stops
      right behind them. */
  lemma {:induction false} GetCapWritten(c: Cursor, s: seq<Cap>, rest: seq<byte>, offset: nat, flags: Bits)
    requires c.Valid() && c.Rest() == Blocks(s) + rest
    requires forall k :: 0 <= k < |s| ==> Listed(s[k])
    ensures |Blocks(s)| == 16 * |s|
    ensures GetCapFrom(c, offset + 16 * |s|, offset, flags) == Some((flags + BitsOf(s), c.Skip(16 * |s|)))
    decreases |s|
  {
    hide Lookup, Listed;
    BlocksLength(s);
    if |s| == 0 {
      assert flags + BitsOf(s) == flags;
    } else {
      assert Blocks(s) + rest == s[0].data + (Blocks(s[1..]) + rest);
      OneBlock(c, s[0], Blocks(s[1..]) + rest);
      GetCapWritten(c.Skip(16), s[1..], rest, offset + 16, flags + {s[0].bit});
      BitsOfCons(s);
      assert flags + {s[0].bit} + BitsOf(s[1..]) == flags + BitsOf(s);
    }
  }

  lemma BitsOfCons(s: seq<Cap>)
    requires |s| > 0
    ensures BitsOf(s) == {s[0].bit} + BitsOf(s[1..])
  {
    forall b | b in BitsOf(s)
      ensures b in {s[0].bit} + BitsOf(s[1..])
    {
      var k :| 0 <= k < |s| && s[k].bit == b;
      if k > 0 {
        assert s[1..][k - 1].bit == b;
      }
    }
    forall b | b in BitsOf(s[1..])
      ensures b in BitsOf(s)
    {
      var k :| 0 <= k < |s[1..]| && s[1..][k].bit == b;
      assert s[k + 1].bit == b;
    }
    assert s[0].bit in BitsOf(s);
  }

  // As many of the identifiers as fit, in order.
  function Fitting(s: seq<Cap>, room: nat): seq<byte> {
    Blocks(if |s| <= room / 16 then s else s[..room / 16])
  }

  lemma FittingCons(e: Cap, s: seq<Cap>, room: nat)
    requires |e.data| == 16
    ensures room >= 16 ==> Fitting([e] + s, room) == e.data + Fitting(s, room - 16)
    ensures room < 16 ==> Fitting(s, room) == []
    ensures room < 16 ==> Fitting([e] + s, room) == []
  {
    if room >= 16 {
      var n, t := room / 16, [e] + s;
      assert (room - 16) / 16 == n - 1;
      if |t| <= n {
        assert t[1..] == s;
      } else {
        assert t[..n][1..] == s[..n - 1] && t[..n][0] == e;
      }
    }
  }

  lemma {:induction false} FittingSize(s: seq<Cap>, room: nat)
    requires forall k :: 0 <= k < |s| ==> Listed(s[k])
    ensures |Fitting(s, room)| <= room
  {
    BlocksLength(if |s| <= room / 16 then s else s[..room / 16]);
  }

  // One identifier and then those that fit behind it.
  lemma PutOne(c: Cursor, e: Cap, t: seq<Cap>)
    requires c.Valid() && |e.data| == 16 && forall k :: 0 <= k < |t| ==> Listed(t[k])
    ensures c.Put(e.data).Put(Fitting(t, c.Put(e.data).Room())) == c.Put(Fitting([e] + t, c.Room()))
  {
    FittingCons(e, t, c.Room());
    var d := c.Put(e.data);
    FittingSize(t, d.Room());
    hide Fitting, Listed;
    if c.Room() >= 16 {
      PutTwice(c, e.data, Fitting(t, d.Room()));
    } else {
      PutNothing(c);
    }
  }

  lemma PutNothing(c: Cursor)
    requires c.Valid()
    ensures c.Put([]) == c
  {
    assert c.buf[..c.pos] + [] + c.buf[c.pos..] == c.buf;
  }

  /** aim_putcap appends the identifiers of the chosen capabilities, as many as fit. */
  lemma {:induction false} PutCapWrites(c: Cursor, caps: Bits, i: nat)
    requires c.Valid() && i <= |CAPS|
    ensures PutCapFrom(c, caps, i) == c.Put(Fitting(Chosen(caps, i), c.Room()))
    decreases |CAPS| - i
  {
    hide CAPS, Fitting, Listed, Cursor.Put;
    if c.Room() == 0 || i == |CAPS| {
      FittingEmpty(Chosen(caps, i), c.Room());
      PutNothing(c);
    } else if CAPS[i].bit in caps {
      KeyOf(i);
      PutCapWrites(c.Put(CAPS[i].data), caps, i + 1);
      PutOne(c, CAPS[i], Chosen(caps, i + 1));
    } else {
      PutCapWrites(c, caps, i + 1);
    }
  }

  lemma FittingEmpty(s: seq<Cap>, room: nat)
    requires |s| == 0 || room == 0
    ensures Fitting(s, room) == []
  {
  }

  // The bits of the table from entry i on that are set.
  function Known(caps: Bits, i: nat): Bits
    requires i <= |CAPS|
  {
    set k | i <= k < |CAPS| && CAPS[k].bit in caps :: CAPS[k].bit
  }

  lemma KnownNext(caps: Bits, i: nat)
    requires i < |CAPS|
    ensures Known(caps, i) == (if CAPS[i].bit in caps then {CAPS[i].bit} else {}) + Known(caps, i + 1)
  {
    hide CAPS;
  }

  lemma {:induction false} ChosenBits(caps: Bits, i: nat)
    requires i <= |CAPS|
    ensures BitsOf(Chosen(caps, i)) == Known(caps, i)
    decreases |CAPS| - i
  {
    hide CAPS;
    if i < |CAPS| {
      ChosenBits(caps, i + 1);
      ChosenNext(caps, i);
      KnownNext(caps, i);
      hide Known, Chosen, BitsOf;
      if CAPS[i].bit in caps {
        var s := [CAPS[i]] + Chosen(caps, i + 1);
        BitsOfCons(s);
        assert s[1..] == Chosen(caps, i + 1);
      }
    }
  }

  lemma {:induction false} ChosenAll(caps: Bits, i: nat)
    requires i <= |CAPS| && forall k :: i <= k < |CAPS| ==> CAPS[k].bit in caps
    ensures Chosen(caps, i) == CAPS[i..]
    decreases |CAPS| - i
  {
    hide CAPS;
    if i < |CAPS| {
      ChosenAll(caps, i + 1);
      ChosenNext(caps, i);
      assert CAPS[i..] == [CAPS[i]] + CAPS[i + 1..];
    }
  }

  lemma {:induction false} ChosenFewer(caps: Bits, i: nat, k: nat)
    requires i <= k < |CAPS| && CAPS[k].bit !in caps
    ensures |Chosen(caps, i)| < |CAPS| - i
    decreases k - i
  {
    hide CAPS;
    ChosenNext(caps, i);
    if i < k {
      ChosenFewer(caps, i + 1, k);
    }
  }

  lemma ChosenNext(caps: Bits, i: nat)
    requires i < |CAPS|
    ensures Chosen(caps, i)
         == if CAPS[i].bit in caps then [CAPS[i]] + Chosen(caps, i + 1) else Chosen(caps, i + 1)
  {
    hide CAPS;
  }

  // The identifiers AOL itself gave out differ in one byte only.
  function Aol(code: byte): seq<byte> {
    [0x09, 0x46, 0x13, code, 0x4c, 0x7f, 0x11, 0xd1, 0x82, 0x22, 0x44, 0x45, 0x53, 0x54, 0x00, 0x00]
  }

  // The codes for voice, file sending, ICQ, images and buddy icons.
  lemma AolCodes()
    ensures CAPS[1] == Cap(1, Aol(0x41)) && CAPS[2] == Cap(5, Aol(0x43)) && CAPS[3] == Cap(10, Aol(0x44))
    ensures CAPS[4] == Cap(2, Aol(0x45)) && CAPS[5] == Cap(0, Aol(0x46))
  {
  }

  // The codes for stocks, file requests, the ICQ server relay, games and buddy lists.
  lemma MoreAolCodes()
    ensures CAPS[6] == Cap(7, Aol(0x47)) && CAPS[7] == Cap(4, Aol(0x48)) && CAPS[8] == Cap(14, Aol(0x49))
    ensures CAPS[9] == Cap(6, Aol(0x4a)) && CAPS[11] == Cap(8, Aol(0x4b))
  {
  }

  // An identifier as four numbers of 32 bits.
  predicate IsUuid(s: seq<byte>, a: u32, b: u32, c: u32, d: u32) {
    && |s| == 16 && Octets.Get32(s[..4]) == a && Octets.Get32(s[4..8]) == b
    && Octets.Get32(s[8..12]) == c && Octets.Get32(s[12..]) == d
  }

  // The codes for chat, the second one for games, and the one for RTF.
  lemma OddCodes()
    ensures CAPS[0].bit == 3 && IsUuid(CAPS[0].data, 0x748f2420, 0x628711d1, 0x82224445, 0x53540000)
    ensures CAPS[10].bit == 9 && IsUuid(CAPS[10].data, 0x0946134a, 0x4c7f11d1, 0x22824445, 0x53540000)
    ensures CAPS[12].bit == 12 && IsUuid(CAPS[12].data, 0x97b12751, 0x243c4334, 0xad22d6ab, 0xf73f1492)
  {
  }

  // The codes for an unknown ICQ feature and for nothing.
  lemma StrangeCodes()
    ensures CAPS[13].bit == 15 && IsUuid(CAPS[13].data, 0x2e7a6475, 0xfadf4dc8, 0x886fea35, 0x95fdb6df)
    ensures CAPS[14].bit == 13 && |CAPS[14].data| == 16 && forall b :: b in CAPS[14].data ==> b == 0
  {
  }

  // The codes for encryption and for APs.
  lemma ForeignCodes()
    ensures CAPS[15].bit == 16 && IsUuid(CAPS[15].data, 0xf2e7c7f4, 0xfead4dfb, 0xb2353679, 0x8bdf0000)
    ensures CAPS[16].bit == 11 && IsUuid(CAPS[16].data, 0xaa4a32b5, 0xf88448c6, 0xa3d78c50, 0x9719fd5b)
  {
  }

  lemma LastEntry()
    ensures |CAPS| == 17 && BitsOf(CAPS[..16]) < KNOWN
  {
    forall k | 0 <= k < 16
      ensures CAPS[k].bit != CAPS[16].bit
    {
    }
    assert CAPS[16].bit in KNOWN;
    forall b | b in BitsOf(CAPS[..16])
      ensures b in KNOWN
    {
      var k :| 0 <= k < 16 && CAPS[..16][k].bit == b;
      assert CAPS[k].bit == b;
    }
  }

  /** The capabilities that arrive are exactly those that were set, if and only if all of them
      are known and not all of the known ones are set: the buffer holds 16 of the 17. */
  lemma CapabilitiesArrive(caps: Bits)
    ensures BitsOf(Sent(caps)) == caps <==> caps < KNOWN
    ensures BitsOf(Sent(caps)) <= caps * KNOWN
  {
    hide Chosen, CAPS;
    ChosenBits(caps, 0);
    LastEntry();
    assert BitsOf(Chosen(caps, 0)) == caps * KNOWN;
    if forall k :: 0 <= k < |CAPS| ==> CAPS[k].bit in caps {
      ChosenAll(caps, 0);
      assert CAPS[0..] == CAPS;
      assert KNOWN <= caps;
      assert Sent(caps) == CAPS[..16];
    } else {
      var k :| 0 <= k < |CAPS| && CAPS[k].bit !in caps;
      ChosenFewer(caps, 0, k);
      assert !(KNOWN <= caps);
    }
  }

  // ----- User information -----

  // The bits of aim_userinfo_t.present.
  datatype Present = Present(flags: bool, membersince: bool, onlinesince: bool, idle: bool, icqextstatus: bool,
                             icqipaddr: bool, icqdata: bool, capabilities: bool, sessionlen: bool, createtime: bool)

  datatype UserInfo = UserInfo(
    sn: seq<byte>, warnlevel: u16, idletime: u16, flags: u16, createtime: u32, membersince: u32, onlinesince: u32,
    sessionlen: u32, capabilities: Bits, icqstatus: u32, icqipaddr: u32, icqdata: seq<byte>, present: Present)

  const NOTHING := Present(false, false, false, false, false, false, false, false, false, false)
  const BLANK := UserInfo([], 0, 0, 0, 0, 0, 0, 0, {}, 0, 0, [], NOTHING)

  // The branches of aim_extractuserinfo: the effect of one record on the structure and the
  // stream. None: aim_getcap ran off the end.
  function Field(typ: u16, length: u16, c: Cursor, info: UserInfo): (r: Option<(UserInfo, Cursor)>)
    requires c.Valid()
    ensures r.Some? ==> r.value.1.Valid() && r.value.1.buf == c.buf && r.value.1.pos >= c.pos
  {
    var p := info.present;
    if typ == 0x0001 then
      Some((info.(flags := c.U16(), present := p.(flags := true)), c.Skip(2)))
    else if typ == 0x0002 then
      Some((info.(createtime := c.U32(), present := p.(createtime := true)), c.Skip(4)))
    else if typ == 0x0003 then
      Some((info.(onlinesince := c.U32(), present := p.(onlinesince := true)), c.Skip(4)))
    else if typ == 0x0004 then
      Some((info.(idletime := c.U16(), present := p.(idle := true)), c.Skip(2)))
    else if typ == 0x0005 then
      Some((info.(membersince := c.U32(), present := p.(membersince := true)), c.Skip(4)))
    else if typ == 0x0006 then
      Some((info.(icqstatus := c.Skip(2).U16(), present := p.(icqextstatus := true)), c.Skip(2).Skip(2)))
    else if typ == 0x000a then
      Some((info.(icqipaddr := c.U32(), present := p.(icqipaddr := true)), c.Skip(4)))
    else if typ == 0x000c then
      var crap := c.Take(0x25);
      Some((info.(icqdata := if crap.Some? then crap.value else info.icqdata, present := p.(icqdata := true)),
            c.Skip(0x25)))
    else if typ == 0x000d then
      match GetCapFrom(c, length, 0, {})
      case None => None
      case Some((caps, d)) => Some((info.(capabilities := caps, present := p.(capabilities := true)), d))
    else if typ == 0x000f || typ == 0x0010 then
      Some((info.(sessionlen := c.U32(), present := p.(sessionlen := true)), c.Skip(4)))
    else if typ == 0x000e || typ == 0x001d || typ == 0x001e then
      Some((info, c))
    else
      Some((info, Dump(c, Low8(length))))
  }

  // dumptlv reads n bytes, one at a time.
  function Dump(c: Cursor, n: nat): (d: Cursor)
    requires c.Valid()
    ensures d.Valid() && d.buf == c.buf && d.pos >= c.pos
    decreases n
  {
    if n == 0 then c else Dump(c.Skip(1), n - 1)
  }

  // One round of the loop: header, field, and the jump to the end of the record.
  function OneField(c: Cursor, info: UserInfo): (r: Option<(UserInfo, Cursor)>)
    requires c.Valid()
    ensures r.Some? ==> r.value.1.Valid() && r.value.1.buf == c.buf
  {
    var d := c.Skip(2);
    var e := d.Skip(2);
    match Field(c.U16(), d.U16(), e, info)
    case None => None
    case Some((info', f)) => Some((info', f.SetPos(e.pos + d.U16())))
  }

  function Fields(c: Cursor, info: UserInfo, n: nat): (r: Option<(UserInfo, Cursor)>)
    requires c.Valid()
    ensures r.Some? ==> r.value.1.Valid() && r.value.1.buf == c.buf
    decreases n
  {
    if n == 0 then Some((info, c))
    else
      match OneField(c, info)
      case None => None
      case Some((info', d)) => Fields(d, info', n - 1)
  }

  // aim_extractuserinfo.
  function Extract(c: Cursor): (r: Option<(UserInfo, Cursor)>)
    requires c.Valid()
    ensures r.Some? ==> r.value.1.Valid() && r.value.1.buf == c.buf
  {
    var snlen := c.U8();
    var d := c.Skip(1);
    var sn := d.Take(snlen);
    var e := d.Skip(snlen);
    var f := e.Skip(2);
    Fields(f.Skip(2), BLANK.(sn := if sn.Some? then sn.value else [], warnlevel := e.U16()), f.U16())
  }

  // The if-else chain of aim_extractuserinfo.
  method ReadField(bs: Bstream, typ: u16, length: u16, info: UserInfo) returns (r: Option<UserInfo>)
    requires bs.Valid()
    modifies bs`offset
    ensures bs.Valid()
    ensures old(Field(typ, length, bs.View(), info)) == if r.Some? then Some((r.value, bs.View())) else None
  {
    hide GetCapFrom;
    var p := info.present;
    if typ == 0x0001 {
      var v := bs.Get16();
      return Some(info.(flags := v, present := p.(flags := true)));
    } else if typ == 0x0002 {
      var v := bs.Get32();
      return Some(info.(createtime := v, present := p.(createtime := true)));
    } else if typ == 0x0003 {
      var v := bs.Get32();
      return Some(info.(onlinesince := v, present := p.(onlinesince := true)));
    } else if typ == 0x0004 {
      var v := bs.Get16();
      return Some(info.(idletime := v, present := p.(idle := true)));
    } else if typ == 0x0005 {
      var v := bs.Get32();
      return Some(info.(membersince := v, present := p.(membersince := true)));
    } else if typ == 0x0006 {
      var v := bs.Get16();
      v := bs.Get16();
      return Some(info.(icqstatus := v, present := p.(icqextstatus := true)));
    } else if typ == 0x000a {
      var v := bs.Get32();
      return Some(info.(icqipaddr := v, present := p.(icqipaddr := true)));
    } else if typ == 0x000c {
      var crap := bs.GetRaw(0x25);
      return Some(info.(icqdata := if crap.Some? then crap.value else info.icqdata, present := p.(icqdata := true)));
    } else if typ == 0x000d {
      var caps := GetCap(bs, length);
      if caps.None? {
        return None;
      }
      return Some(info.(capabilities := caps.value, present := p.(capabilities := true)));
    } else if typ == 0x000e {
    } else if typ == 0x000f || typ == 0x0010 {
      var v := bs.Get32();
      return Some(info.(sessionlen := v, present := p.(sessionlen := true)));
    } else if typ == 0x001d {
    } else if typ == 0x001e {
    } else {
      DumpTlv(bs, Low8(length));
    }
    r := Some(info);
  }

  method DumpTlv(bs: Bstream, len: byte)
    requires bs.Valid()
    modifies bs`offset
    ensures bs.Valid() && bs.View() == old(Dump(bs.View(), len))
  {
    for i := 0 to len
      invariant bs.Valid() && Dump(bs.View(), len - i) == old(Dump(bs.View(), len))
    {
      var b := bs.Get8();
    }
  }

  // One round of the loop of aim_extractuserinfo.
  method ReadRecordInto(bs: Bstream, info: UserInfo) returns (r: Option<UserInfo>)
    requires bs.Valid()
    modifies bs`offset
    ensures bs.Valid()
    ensures old(OneField(bs.View(), info)) == if r.Some? then Some((r.value, bs.View())) else None
  {
    hide Field;
    var typ := bs.Get16();
    var length := bs.Get16();
    var endpos := bs.offset + length;
    r := ReadField(bs, typ, length, info);
    if r.Some? {
      var p := bs.SetPos(endpos);
    }
  }

  method ExtractUserInfo(bs: Bstream) returns (r: Option<UserInfo>)
    requires bs.Valid()
    modifies bs`offset
    ensures bs.Valid()
    ensures old(Extract(bs.View())) == if r.Some? then Some((r.value, bs.View())) else None
  {
    hide OneField, Cursor.Skip, Cursor.U8, Cursor.U16, Cursor.Take;
    ghost var all := Extract(bs.View());
    var snlen := bs.Get8();
    var sn := bs.GetRaw(snlen);
    var warnlevel := bs.Get16();
    var info := BLANK.(sn := if sn.Some? then sn.value else [], warnlevel := warnlevel);
    var tlvcnt := bs.Get16();
    for curtlv := 0 to tlvcnt
      invariant bs.Valid()
      invariant Fields(bs.View(), info, tlvcnt - curtlv) == all
    {
      var next := ReadRecordInto(bs, info);
      if next.None? {
        return None;
      }
      info := next.value;
    }
    r := Some(info);
  }

  // ----- Writing -----

  // The value of the capability record.
  function CapValue(caps: Bits): (s: Short)
    ensures |s| == 16 * |Sent(caps)|
  {
    BlocksLength(Sent(caps));
    Blocks(Sent(caps))
  }

  // AIM_FLAG_AOL is bit 2 of the user flags.
  predicate IsAol(flags: u16) { flags / 4 % 2 == 1 }

  // The chain aim_putuserinfo builds; note that membersince goes out under type 2.
  function InfoChain(info: UserInfo): (list: seq<Tlv>)
    ensures |list| <= 6
  {
    var p := info.present;
    One(p.flags, 0x0001, Octets.Put16(info.flags))
    + One(p.membersince, 0x0002, Octets.Put32(info.membersince))
    + One(p.onlinesince, 0x0003, Octets.Put32(info.onlinesince))
    + One(p.idle, 0x0004, Octets.Put16(info.idletime))
    + One(p.capabilities && info.capabilities != {}, 0x000d, CapValue(info.capabilities))
    + One(p.sessionlen, if IsAol(info.flags) then 0x0010 else 0x000f, Octets.Put32(info.sessionlen))
  }

  lemma InfoRises(info: UserInfo)
    ensures Rising(InfoChain(info), 0x0011)
  {
    hide One, Rising, CapValue, Octets.Put16, Octets.Put32;
    var p, none := info.present, [];
    var last := if IsAol(info.flags) then 0x0010 else 0x000f;
    NoneRise(0x0001);
    RisingOne(none, p.flags, 0x0001, Octets.Put16(info.flags));
    var a := none + One(p.flags, 0x0001, Octets.Put16(info.flags));
    assert a == One(p.flags, 0x0001, Octets.Put16(info.flags));
    RisingOne(a, p.membersince, 0x0002, Octets.Put32(info.membersince));
    var b := a + One(p.membersince, 0x0002, Octets.Put32(info.membersince));
    RisingOne(b, p.onlinesince, 0x0003, Octets.Put32(info.onlinesince));
    var c := b + One(p.onlinesince, 0x0003, Octets.Put32(info.onlinesince));
    RisingOne(c, p.idle, 0x0004, Octets.Put16(info.idletime));
    var d := c + One(p.idle, 0x0004, Octets.Put16(info.idletime));
    RisingMore(d, 0x0005, 0x000d);
    RisingOne(d, p.capabilities && info.capabilities != {}, 0x000d, CapValue(info.capabilities));
    var e := d + One(p.capabilities && info.capabilities != {}, 0x000d, CapValue(info.capabilities));
    RisingMore(e, 0x000e, last);
    RisingOne(e, p.sessionlen, last, Octets.Put32(info.sessionlen));
    RisingMore(InfoChain(info), last + 1, 0x0011);
  }

  /** Which record types a block holds, in their order: each present field has one, capabilities only
      when some are set, and the length of the session goes out under 0x0010 for AOL users (bit 2 of
      the flags) and under 0x000f for others. */
  lemma InfoTypes(info: UserInfo, typ: u16)
    ensures var p, aol := info.present, info.flags / 4 % 2 == 1;
            && Rising(InfoChain(info), 0x0011)
            && (Has(InfoChain(info), typ) <==>
              (|| (typ == 0x0001 && p.flags) || (typ == 0x0002 && p.membersince)
               || (typ == 0x0003 && p.onlinesince) || (typ == 0x0004 && p.idle)
               || (typ == 0x000d && p.capabilities && info.capabilities != {})
               || (typ == 0x000f && p.sessionlen && !aol) || (typ == 0x0010 && p.sessionlen && aol)))
  {
    InfoRises(info);
    hide One, Has, Rising, CapValue, Octets.Put16, Octets.Put32;
    var p, caps := info.present, info.present.capabilities && info.capabilities != {};
    var a, b := Octets.Put16(info.flags), Octets.Put32(info.membersince);
    var c, d := Octets.Put32(info.onlinesince), Octets.Put16(info.idletime);
    var e, f := CapValue(info.capabilities), Octets.Put32(info.sessionlen);
    var last := if IsAol(info.flags) then 0x0010 else 0x000f;
    HasOne(p.flags, 0x0001, a, typ);
    HasOne(p.membersince, 0x0002, b, typ);
    HasOne(p.onlinesince, 0x0003, c, typ);
    HasOne(p.idle, 0x0004, d, typ);
    HasOne(caps, 0x000d, e, typ);
    HasOne(p.sessionlen, last, f, typ);
    var l2 := One(p.flags, 0x0001, a) + One(p.membersince, 0x0002, b);
    var l3 := l2 + One(p.onlinesince, 0x0003, c);
    var l4 := l3 + One(p.idle, 0x0004, d);
    var l5 := l4 + One(caps, 0x000d, e);
    HasAppend(One(p.flags, 0x0001, a), One(p.membersince, 0x0002, b), typ);
    HasAppend(l2, One(p.onlinesince, 0x0003, c), typ);
    HasAppend(l3, One(p.idle, 0x0004, d), typ);
    HasAppend(l4, One(caps, 0x000d, e), typ);
    HasAppend(l5, One(p.sessionlen, last, f), typ);
    assert InfoChain(info) == l5 + One(p.sessionlen, last, f);
  }

  function Header(info: UserInfo): seq<seq<byte>> {
    [[Low8(|info.sn|)], info.sn, Octets.Put16(info.warnlevel), Octets.Put16(|InfoChain(info)|)]
  }

  // aim_putuserinfo: the chain is written whole or not at all.
  function PutInfo(c: Cursor, info: UserInfo): (d: Cursor)
    requires c.Valid()
    ensures d.Valid()
  {
    Write(PutAll(c, Header(info)), InfoChain(info))
  }

  lemma CapValueFits(caps: Bits)
    ensures CapValue(caps) == Fitting(Chosen(caps, 0), 256) && |CapValue(caps)| <= 256
  {
  }

  // aim_addtlvtochain_caps.
  method AddCaps(chain: TlvChain, t: u16, caps: Bits)
    modifies chain
    ensures chain.items == old(chain.items) + One(caps != {}, t, CapValue(caps))
  {
    hide Chosen, CapValue, Fitting, PutCapFrom;
    if caps == {} {
      return;
    }
    var buf := new byte[16 * 16];
    var bs := new Bstream(buf, 16 * 16);
    ghost var c := bs.View();
    PutCap(bs, caps);
    PutCapWrites(c, caps, 0);
    CapValueFits(caps);
    PutWritten(c, CapValue(caps));
    assert buf[..][..bs.offset] == bs.View().Written() == [] + CapValue(caps) == CapValue(caps);
    chain.AddRaw(t, bs.offset, buf[..]);
  }

  // A 16-bit record for a field that is present.
  method AddIf16(chain: TlvChain, present: bool, t: u16, v: u16)
    modifies chain
    ensures chain.items == old(chain.items) + One(present, t, Octets.Put16(v))
  {
    if present {
      chain.Add16(t, v);
    }
  }

  method AddIf32(chain: TlvChain, present: bool, t: u16, v: u32)
    modifies chain
    ensures chain.items == old(chain.items) + One(present, t, Octets.Put32(v))
  {
    if present {
      chain.Add32(t, v);
    }
  }

  method BuildInfoChain(info: UserInfo) returns (chain: TlvChain)
    ensures fresh(chain) && chain.items == InfoChain(info)
  {
    hide CapValue, Octets.Put16, Octets.Put32, One;
    chain := new TlvChain();
    var p := info.present;
    AddIf16(chain, p.flags, 0x0001, info.flags);
    assert chain.items == One(p.flags, 0x0001, Octets.Put16(info.flags));
    AddIf32(chain, p.membersince, 0x0002, info.membersince);
    AddIf32(chain, p.onlinesince, 0x0003, info.onlinesince);
    AddIf16(chain, p.idle, 0x0004, info.idletime);
    ghost var front := chain.items;
    if p.capabilities {
      AddCaps(chain, 0x000d, info.capabilities);
    }
    OneAbsent(front, 0x000d, CapValue(info.capabilities));
    AddIf32(chain, p.sessionlen, if IsAol(info.flags) then 0x0010 else 0x000f, info.sessionlen);
  }

  lemma OneAbsent(front: seq<Tlv>, typ: u16, value: Short)
    ensures front + One(false, typ, value) == front
  {
  }

  method PutUserInfo(bs: Bstream, info: UserInfo)
    requires bs.Valid() && |info.sn| <= 32
    modifies bs`offset, bs.data
    ensures bs.Valid() && bs.View() == PutInfo(old(bs.View()), info)
  {
    hide InfoChain, Write;
    HeaderPuts(bs.View(), info);
    var n := bs.Put8(Low8(|info.sn|));
    n := bs.PutRaw(info.sn);
    n := bs.Put16(info.warnlevel);
    var chain := BuildInfoChain(info);
    n := bs.Put16(|chain.items|);
    n := chain.WriteTo(bs);
  }

  lemma HeaderPuts(c: Cursor, info: UserInfo)
    requires c.Valid()
    ensures PutAll(c, Header(info)) == c.Put([Low8(|info.sn|)]).Put(info.sn).Put(Octets.Put16(info.warnlevel))
                                        .Put(Octets.Put16(|InfoChain(info)|))
  {
    hide InfoChain, Octets.Put16, PutAll, Cursor.Put, Low8;
    Puts4(c, [Low8(|info.sn|)], info.sn, Octets.Put16(info.warnlevel), Octets.Put16(|InfoChain(info)|));
  }

  // ----- Round trip -----

  // The bytes of a user information block.
  function Encoded(info: UserInfo): seq<byte> {
    [Low8(|info.sn|)] + info.sn + Octets.Put16(info.warnlevel) + Octets.Put16(|InfoChain(info)|) + Wire(InfoChain(info))
  }

  // What the reader makes of a chain: each record's field, on a stream of its own.
  function Apply(t: Tlv, info: UserInfo): UserInfo {
    match Field(t.typ, |t.value|, Cursor(t.value, 0), info)
    case Some((info', _)) => info'
    case None => info
  }

  function ApplyAll(list: seq<Tlv>, info: UserInfo): UserInfo {
    if |list| == 0 then info else ApplyAll(list[1..], Apply(list[0], info))
  }

  // The shapes of the records that carry a field, as a server sends them.
  predicate Sized(t: Tlv, caps: Bits) {
    || (t.typ in {0x0001, 0x0004} && |t.value| == 2)
    || (t.typ in {0x0002, 0x0003, 0x0005, 0x0006, 0x000a, 0x000f, 0x0010} && |t.value| == 4)
    || (t.typ == 0x000c && |t.value| == 0x25)
    || (t.typ == 0x000d && t.value == CapValue(caps))
  }

  // A field does not look beyond its own record.
  lemma FieldLocal(c: Cursor, t: Tlv, caps: Bits, rest: seq<byte>, info: UserInfo)
    requires c.Valid() && Sized(t, caps) && c.Rest() == t.value + rest
    ensures Field(t.typ, |t.value|, c, info) == Some((Apply(t, info), c.Skip(|t.value|)))
  {
    hide Chosen, Blocks, Listed, Lookup;
    var own := Cursor(t.value, 0);
    assert own.Rest() == t.value;
    if t.typ == 0x000d {
      var s := Sent(caps);
      assert t.value == Blocks(s) by { CapValueIs(caps); }
      assert own.Rest() == Blocks(s) + [];
      GetCapWritten(c, s, rest, 0, {});
      GetCapWritten(own, s, [], 0, {});
    } else if |t.value| == 2 {
      assert c.Rest()[..2] == own.Rest()[..2];
    } else if t.typ == 0x0006 {
      assert c.Skip(2).Rest()[..2] == own.Skip(2).Rest()[..2];
    } else if t.typ == 0x000c {
      assert c.Rest()[..0x25] == own.Rest()[..0x25];
    } else {
      assert c.Rest()[..4] == own.Rest()[..4];
    }
  }

  lemma CapValueIs(caps: Bits)
    ensures CapValue(caps) == Blocks(Sent(caps)) && |CapValue(caps)| == 16 * |Sent(caps)|
    ensures forall k :: 0 <= k < |Sent(caps)| ==> Listed(Sent(caps)[k])
  {
  }

  lemma OneFieldWritten(c: Cursor, t: Tlv, caps: Bits, rest: seq<byte>, info: UserInfo)
    requires c.Valid() && Sized(t, caps) && c.Rest() == Record(t) + rest
    ensures OneField(c, info) == Some((Apply(t, info), c.Skip(|Record(t)|)))
  {
    hide Field, Sized, Apply;
    HeaderRead(c, t, rest);
    hide Cursor.Skip, Cursor.U16, Cursor.SetPos, Cursor.Rest, Record;
    FieldLocal(c.Skip(2).Skip(2), t, caps, rest, info);
    RecordSize(t);
  }

  lemma RecordSize(t: Tlv)
    ensures |Record(t)| == 4 + |t.value|
  {
  }

  lemma {:induction false} FieldsWritten(c: Cursor, list: seq<Tlv>, caps: Bits, rest: seq<byte>, info: UserInfo)
    requires c.Valid() && c.Rest() == Wire(list) + rest
    requires forall k :: 0 <= k < |list| ==> Sized(list[k], caps)
    ensures Fields(c, info, |list|) == Some((ApplyAll(list, info), c.Skip(|Wire(list)|)))
    decreases |list|
  {
    hide OneField, Sized, Apply, Record;
    if |list| > 0 {
      assert c.Rest() == Record(list[0]) + (Wire(list[1..]) + rest);
      OneFieldWritten(c, list[0], caps, Wire(list[1..]) + rest, info);
      FieldsWritten(c.Skip(|Record(list[0])|), list[1..], caps, rest, Apply(list[0], info));
    }
  }

  lemma {:induction false} ApplyAllAppend(xs: seq<Tlv>, ys: seq<Tlv>, info: UserInfo)
    ensures ApplyAll(xs + ys, info) == ApplyAll(ys, ApplyAll(xs, info))
  {
    hide Apply;
    if |xs| == 0 {
      assert xs + ys == ys;
    } else {
      assert (xs + ys)[1..] == xs[1..] + ys;
      ApplyAllAppend(xs[1..], ys, Apply(xs[0], info));
    }
  }

  lemma ApplyOne(xs: seq<Tlv>, present: bool, typ: u16, value: Short, info: UserInfo)
    ensures var before := ApplyAll(xs, info);
            ApplyAll(xs + One(present, typ, value), info) == if present then Apply(Tlv(typ, value), before) else before
  {
    hide Apply;
    ApplyAllAppend(xs, One(present, typ, value), info);
    if present {
      var t := Tlv(typ, value);
      assert [t][1..] == [];
      assert ApplyAll([t], ApplyAll(xs, info)) == Apply(t, ApplyAll(xs, info));
    }
  }

  lemma Apply16(v: u16, info: UserInfo)
    ensures Apply(Tlv(0x0001, Octets.Put16(v)), info) == info.(flags := v, present := info.present.(flags := true))
    ensures Apply(Tlv(0x0004, Octets.Put16(v)), info) == info.(idletime := v, present := info.present.(idle := true))
  {
    Octets.GetPut16(v);
    assert Cursor(Octets.Put16(v), 0).Rest()[..2] == Octets.Put16(v);
  }

  lemma Apply32(v: u32, info: UserInfo)
    ensures Apply(Tlv(0x0002, Octets.Put32(v)), info)
         == info.(createtime := v, present := info.present.(createtime := true))
    ensures Apply(Tlv(0x0003, Octets.Put32(v)), info)
         == info.(onlinesince := v, present := info.present.(onlinesince := true))
    ensures Apply(Tlv(0x000f, Octets.Put32(v)), info) == Apply(Tlv(0x0010, Octets.Put32(v)), info)
         == info.(sessionlen := v, present := info.present.(sessionlen := true))
  {
    Octets.GetPut32(v);
    assert Cursor(Octets.Put32(v), 0).Rest()[..4] == Octets.Put32(v);
  }

  lemma ApplyMemberSince(v: u32, info: UserInfo)
    ensures Apply(Tlv(0x0005, Octets.Put32(v)), info)
         == info.(membersince := v, present := info.present.(membersince := true))
  {
    Octets.GetPut32(v);
    assert Cursor(Octets.Put32(v), 0).Rest()[..4] == Octets.Put32(v);
  }

  lemma ApplyIcqStatus(u: u16, v: u16, info: UserInfo)
    ensures Apply(Tlv(0x0006, Octets.Put16(u) + Octets.Put16(v)), info)
         == info.(icqstatus := v, present := info.present.(icqextstatus := true))
  {
    Octets.GetPut16(v);
    assert Cursor(Octets.Put16(u) + Octets.Put16(v), 0).Skip(2).Rest()[..2] == Octets.Put16(v);
  }

  lemma ApplyIcqAddress(v: u32, info: UserInfo)
    ensures Apply(Tlv(0x000a, Octets.Put32(v)), info)
         == info.(icqipaddr := v, present := info.present.(icqipaddr := true))
  {
    Octets.GetPut32(v);
    assert Cursor(Octets.Put32(v), 0).Rest()[..4] == Octets.Put32(v);
  }

  lemma ApplyIcqData(data: seq<byte>, info: UserInfo)
    requires |data| == 0x25
    ensures Apply(Tlv(0x000c, data), info) == info.(icqdata := data, present := info.present.(icqdata := true))
  {
    assert Cursor(data, 0).Rest()[..0x25] == data;
  }

  // A record of any other type changes nothing and is passed over whole.
  lemma Ignored(c: Cursor, t: Tlv, rest: seq<byte>, info: UserInfo)
    requires c.Valid() && c.Rest() == Record(t) + rest
    requires t.typ !in {0x0001, 0x0002, 0x0003, 0x0004, 0x0005, 0x0006, 0x000a, 0x000c, 0x000d, 0x000f, 0x0010}
    ensures OneField(c, info) == Some((info, c.Skip(4 + |t.value|)))
  {
    HeaderRead(c, t, rest);
    hide Record, Cursor.Skip, Cursor.U16, Cursor.SetPos, Cursor.Rest, Dump, GetCapFrom;
  }

  lemma ApplyCaps(caps: Bits, info: UserInfo)
    ensures Apply(Tlv(0x000d, CapValue(caps)), info)
         == info.(capabilities := BitsOf(Sent(caps)), present := info.present.(capabilities := true))
  {
    hide Chosen, Blocks, Listed, Lookup;
    CapValueIs(caps);
    var own := Cursor(CapValue(caps), 0);
    assert own.Rest() == Blocks(Sent(caps)) + [];
    GetCapWritten(own, Sent(caps), [], 0, {});
    assert {} + BitsOf(Sent(caps)) == BitsOf(Sent(caps));
  }

  // What arrives: every present field under its own name, except that membersince arrives as
  // createtime; the capability bit is lost when no capability is set.
  function Received(info: UserInfo): UserInfo {
    var p := info.present;
    var caps := p.capabilities && info.capabilities != {};
    UserInfo(
      info.sn, info.warnlevel, if p.idle then info.idletime else 0, if p.flags then info.flags else 0,
      if p.membersince then info.membersince else 0, 0, if p.onlinesince then info.onlinesince else 0,
      if p.sessionlen then info.sessionlen else 0, if caps then BitsOf(Sent(info.capabilities)) else {}, 0, 0, [],
      Present(p.flags, false, p.onlinesince, p.idle, false, false, false, caps, p.sessionlen, p.membersince))
  }

  // Reading the block back gives every field and every bit that the structure said was present.
  ghost predicate Recovered(info: UserInfo) {
    var r, p := Received(info), info.present;
    && r.sn == info.sn && r.warnlevel == info.warnlevel && r.present == p
    && (p.flags ==> r.flags == info.flags) && (p.membersince ==> r.membersince == info.membersince)
    && (p.onlinesince ==> r.onlinesince == info.onlinesince) && (p.idle ==> r.idletime == info.idletime)
    && (p.sessionlen ==> r.sessionlen == info.sessionlen) && (p.createtime ==> r.createtime == info.createtime)
    && (p.capabilities ==> r.capabilities == info.capabilities)
  }

  /** aim_extractuserinfo inverts aim_putuserinfo exactly for structures without membersince,
      createtime and the ICQ fields, whose capabilities, when present, are some but not all of the
      known ones. */
  lemma InverseExactly(info: UserInfo)
    ensures var p := info.present;
            Recovered(info) <==>
              (&& !p.membersince && !p.createtime && !p.icqextstatus && !p.icqipaddr && !p.icqdata
               && (p.capabilities ==> {} < info.capabilities < KNOWN))
  {
    hide Sent, BitsOf, KNOWN;
    CapabilitiesArrive(info.capabilities);
  }

  /** Two structures that do not come back: one with only membersince, which arrives as
      createtime, and one with all known capabilities, of which the last one is lost. */
  lemma NotRecovered(since: u32, c: Cursor, rest: seq<byte>)
    requires c.Valid()
    requires c.Rest() == Encoded(BLANK.(membersince := since, present := NOTHING.(membersince := true))) + rest
    ensures Extract(c).Some?
    ensures Extract(c).value.0 == BLANK.(createtime := since, present := NOTHING.(createtime := true))
    ensures !Recovered(BLANK.(membersince := since, present := NOTHING.(membersince := true)))
    ensures !Recovered(BLANK.(capabilities := KNOWN, present := NOTHING.(capabilities := true)))
  {
    hide Encoded, Extract, KNOWN;
    var info := BLANK.(membersince := since, present := NOTHING.(membersince := true));
    ExtractWritten(c, info, rest);
    InverseExactly(info);
    InverseExactly(BLANK.(capabilities := KNOWN, present := NOTHING.(capabilities := true)));
    hide Recovered;
  }

  // The first four records of the chain.
  function FrontChain(info: UserInfo): seq<Tlv> {
    var p := info.present;
    One(p.flags, 0x0001, Octets.Put16(info.flags))
    + One(p.membersince, 0x0002, Octets.Put32(info.membersince))
    + One(p.onlinesince, 0x0003, Octets.Put32(info.onlinesince))
    + One(p.idle, 0x0004, Octets.Put16(info.idletime))
  }

  lemma FrontReceived(info: UserInfo, blank: UserInfo)
    requires blank == BLANK.(sn := info.sn, warnlevel := info.warnlevel)
    ensures ApplyAll(FrontChain(info), blank)
         == Received(info.(present := info.present.(capabilities := false, sessionlen := false)))
  {
    hide Apply, ApplyAll, One, CapValue, Sent, BitsOf, Octets.Put16, Octets.Put32;
    var p := info.present;
    var l1 := One(p.flags, 0x0001, Octets.Put16(info.flags));
    assert [] + l1 == l1;
    NoRecords(blank);
    ApplyOne([], p.flags, 0x0001, Octets.Put16(info.flags), blank);
    Apply16(info.flags, blank);
    ApplyOne(l1, p.membersince, 0x0002, Octets.Put32(info.membersince), blank);
    Apply32(info.membersince, ApplyAll(l1, blank));
    var l2 := l1 + One(p.membersince, 0x0002, Octets.Put32(info.membersince));
    ApplyOne(l2, p.onlinesince, 0x0003, Octets.Put32(info.onlinesince), blank);
    Apply32(info.onlinesince, ApplyAll(l2, blank));
    var l3 := l2 + One(p.onlinesince, 0x0003, Octets.Put32(info.onlinesince));
    ApplyOne(l3, p.idle, 0x0004, Octets.Put16(info.idletime), blank);
    Apply16(info.idletime, ApplyAll(l3, blank));
  }

  lemma CapsReceived(info: UserInfo, blank: UserInfo)
    requires blank == BLANK.(sn := info.sn, warnlevel := info.warnlevel)
    ensures var caps := info.present.capabilities && info.capabilities != {};
            ApplyAll(FrontChain(info) + One(caps, 0x000d, CapValue(info.capabilities)), blank)
              == Received(info.(present := info.present.(sessionlen := false)))
  {
    hide Apply, ApplyAll, One, CapValue, Sent, BitsOf, FrontChain;
    FrontReceived(info, blank);
    var l4 := FrontChain(info);
    ApplyOne(l4, info.present.capabilities && info.capabilities != {}, 0x000d, CapValue(info.capabilities), blank);
    ApplyCaps(info.capabilities, ApplyAll(l4, blank));
  }

  lemma ChainReceived(info: UserInfo)
    ensures ApplyAll(InfoChain(info), BLANK.(sn := info.sn, warnlevel := info.warnlevel)) == Received(info)
  {
    hide Apply, ApplyAll, One, CapValue, Sent, BitsOf, Octets.Put16, Octets.Put32;
    var p := info.present;
    var blank := BLANK.(sn := info.sn, warnlevel := info.warnlevel);
    CapsReceived(info, blank);
    var caps := p.capabilities && info.capabilities != {};
    var l5 := FrontChain(info) + One(caps, 0x000d, CapValue(info.capabilities));
    ApplyOne(l5, p.sessionlen, if IsAol(info.flags) then 0x0010 else 0x000f, Octets.Put32(info.sessionlen), blank);
    Apply32(info.sessionlen, ApplyAll(l5, blank));
  }

  lemma NoRecords(info: UserInfo)
    ensures ApplyAll([], info) == info
  {
  }

  lemma InfoChainSized(info: UserInfo)
    ensures forall k :: 0 <= k < |InfoChain(info)| ==> Sized(InfoChain(info)[k], info.capabilities)
  {
    hide CapValue, Octets.Put16, Octets.Put32, One;
    var p, caps := info.present, info.capabilities;
    var l0: seq<Tlv> := [];
    SizedOne(l0, p.flags, 0x0001, Octets.Put16(info.flags), caps);
    var l1 := One(p.flags, 0x0001, Octets.Put16(info.flags));
    assert l0 + l1 == l1;
    SizedOne(l1, p.membersince, 0x0002, Octets.Put32(info.membersince), caps);
    var l2 := l1 + One(p.membersince, 0x0002, Octets.Put32(info.membersince));
    SizedOne(l2, p.onlinesince, 0x0003, Octets.Put32(info.onlinesince), caps);
    var l3 := l2 + One(p.onlinesince, 0x0003, Octets.Put32(info.onlinesince));
    SizedOne(l3, p.idle, 0x0004, Octets.Put16(info.idletime), caps);
    var l4 := l3 + One(p.idle, 0x0004, Octets.Put16(info.idletime));
    SizedOne(l4, p.capabilities && caps != {}, 0x000d, CapValue(caps), caps);
    var l5 := l4 + One(p.capabilities && caps != {}, 0x000d, CapValue(caps));
    SizedOne(l5, p.sessionlen, if IsAol(info.flags) then 0x0010 else 0x000f, Octets.Put32(info.sessionlen), caps);
  }

  lemma SizedOne(xs: seq<Tlv>, present: bool, typ: u16, value: Short, caps: Bits)
    requires (forall k :: 0 <= k < |xs| ==> Sized(xs[k], caps)) && Sized(Tlv(typ, value), caps)
    ensures forall k :: 0 <= k < |xs + One(present, typ, value)| ==> Sized((xs + One(present, typ, value))[k], caps)
  {
    hide Sized;
  }

  // The header fields, read one after the other.
  lemma ExtractHeader(c: Cursor, sn: seq<byte>, warnlevel: u16, n: u16, tail: seq<byte>)
    requires c.Valid() && |sn| <= 32
    requires c.Rest() == [|sn|] + (sn + (Octets.Put16(warnlevel) + (Octets.Put16(n) + tail)))
    ensures 5 + |sn| <= c.Room() && c.Skip(5 + |sn|).Rest() == tail
    ensures Extract(c) == Fields(c.Skip(5 + |sn|), BLANK.(sn := sn, warnlevel := warnlevel), n)
  {
    hide Fields, Octets.Put16, Octets.Get16;
    var r3 := Octets.Put16(n) + tail;
    var r2 := Octets.Put16(warnlevel) + r3;
    ReadsPrefix(c, [|sn|], sn + r2);
    var d := c.Skip(1);
    ReadsPrefix(d, sn, r2);
    var e := d.Skip(|sn|);
    ReadsPrefix(e, Octets.Put16(warnlevel), r3);
    Octets.GetPut16(warnlevel);
    var f := e.Skip(2);
    ReadsPrefix(f, Octets.Put16(n), tail);
    Octets.GetPut16(n);
    assert f.Skip(2) == c.Skip(5 + |sn|);
  }

  /** Reading a block that aim_putuserinfo wrote recovers it and stops exactly at its end,
      whatever bytes follow. */
  lemma ExtractWritten(c: Cursor, info: UserInfo, rest: seq<byte>)
    requires c.Valid() && |info.sn| <= 32 && c.Rest() == Encoded(info) + rest
    ensures Extract(c) == Some((Received(info), c.Skip(|Encoded(info)|)))
  {
    hide InfoChain, Received, Sized, ApplyAll, Fields, Extract, Octets.Put16;
    var list := InfoChain(info);
    Regroup([|info.sn|], info.sn, Octets.Put16(info.warnlevel), Octets.Put16(|list|), Wire(list), rest);
    ExtractHeader(c, info.sn, info.warnlevel, |list|, Wire(list) + rest);
    InfoChainSized(info);
    FieldsWritten(c.Skip(5 + |info.sn|), list, info.capabilities, rest,
                  BLANK.(sn := info.sn, warnlevel := info.warnlevel));
    ChainReceived(info);
  }

  // ----- What a server sends -----

  const EVERYTHING := Present(true, true, true, true, true, true, true, true, true, true)

  // A record for every field; the first two bytes of the ICQ status are not looked at.
  function FirstFive(info: UserInfo): seq<Tlv> {
    [Tlv(0x0001, Octets.Put16(info.flags)), Tlv(0x0002, Octets.Put32(info.createtime)),
     Tlv(0x0003, Octets.Put32(info.onlinesince)), Tlv(0x0004, Octets.Put16(info.idletime)),
     Tlv(0x0005, Octets.Put32(info.membersince))]
  }

  function LastFive(info: UserInfo, pad: u16): seq<Tlv>
    requires |info.icqdata| == 0x25 && info.icqstatus < 0x1_0000
  {
    [Tlv(0x0006, Octets.Put16(pad) + Octets.Put16(info.icqstatus)), Tlv(0x000a, Octets.Put32(info.icqipaddr)),
     Tlv(0x000c, info.icqdata), Tlv(0x000d, CapValue(info.capabilities)),
     Tlv(0x0010, Octets.Put32(info.sessionlen))]
  }

  lemma ApplyFive(s: Tlv, t: Tlv, u: Tlv, v: Tlv, w: Tlv, info: UserInfo)
    ensures ApplyAll([s, t, u, v, w], info) == Apply(w, Apply(v, Apply(u, Apply(t, Apply(s, info)))))
  {
    hide Apply;
    var l4, l3, l2, l1 := [t, u, v, w], [u, v, w], [v, w], [w];
    assert [s, t, u, v, w][1..] == l4 && l4[1..] == l3 && l3[1..] == l2 && l2[1..] == l1 && l1[1..] == [];
    assert ApplyAll(l1, Apply(v, Apply(u, Apply(t, Apply(s, info)))))
        == Apply(w, Apply(v, Apply(u, Apply(t, Apply(s, info)))));
    assert ApplyAll(l2, Apply(u, Apply(t, Apply(s, info))))
        == ApplyAll(l1, Apply(v, Apply(u, Apply(t, Apply(s, info)))));
    assert ApplyAll(l3, Apply(t, Apply(s, info))) == ApplyAll(l2, Apply(u, Apply(t, Apply(s, info))));
    assert ApplyAll(l4, Apply(s, info)) == ApplyAll(l3, Apply(t, Apply(s, info)));
  }

  function Half(info: UserInfo): UserInfo {
    UserInfo(info.sn, info.warnlevel, info.idletime, info.flags, info.createtime, info.membersince, info.onlinesince,
             0, {}, 0, 0, [], NOTHING.(flags := true, createtime := true, onlinesince := true, idle := true,
                                       membersince := true))
  }

  lemma FirstHalf(info: UserInfo, r0: UserInfo)
    requires r0 == BLANK.(sn := info.sn, warnlevel := info.warnlevel)
    ensures ApplyAll(FirstFive(info), r0) == Half(info)
  {
    hide Apply, ApplyAll, Octets.Put16, Octets.Put32;
    var l := FirstFive(info);
    ApplyFive(l[0], l[1], l[2], l[3], l[4], r0);
    Apply16(info.flags, r0);
    var r1 := Apply(l[0], r0);
    Apply32(info.createtime, r1);
    var r2 := Apply(l[1], r1);
    Apply32(info.onlinesince, r2);
    var r3 := Apply(l[2], r2);
    Apply16(info.idletime, r3);
    var r4 := Apply(l[3], r3);
    ApplyMemberSince(info.membersince, r4);
    assert l == [l[0], l[1], l[2], l[3], l[4]];
  }

  lemma SecondHalf(info: UserInfo, pad: u16)
    requires info.present == EVERYTHING && info.capabilities < KNOWN
    requires |info.icqdata| == 0x25 && info.icqstatus < 0x1_0000
    ensures ApplyAll(LastFive(info, pad), Half(info)) == info
  {
    hide Apply, ApplyAll, Octets.Put16, Octets.Put32, CapValue, KNOWN, Sent, BitsOf;
    var l, r0 := LastFive(info, pad), Half(info);
    ApplyFive(l[0], l[1], l[2], l[3], l[4], r0);
    ApplyIcqStatus(pad, info.icqstatus, r0);
    var r1 := Apply(l[0], r0);
    ApplyIcqAddress(info.icqipaddr, r1);
    var r2 := Apply(l[1], r1);
    ApplyIcqData(info.icqdata, r2);
    var r3 := Apply(l[2], r2);
    ApplyCaps(info.capabilities, r3);
    CapabilitiesArrive(info.capabilities);
    var r4 := Apply(l[3], r3);
    Apply32(info.sessionlen, r4);
    assert l == [l[0], l[1], l[2], l[3], l[4]];
  }

  /** A block in which every field has its record is read back whole, and reading stops at its
      end. */
  lemma ServerBlockRead(c: Cursor, info: UserInfo, pad: u16, rest: seq<byte>)
    requires c.Valid() && |info.sn| <= 32 && |info.icqdata| == 0x25 && info.icqstatus < 0x1_0000
    requires info.present == EVERYTHING && info.capabilities < KNOWN
    requires c.Rest() == [|info.sn|] + (info.sn + (Octets.Put16(info.warnlevel) + (Octets.Put16(10)
                           + (Wire(FirstFive(info) + LastFive(info, pad)) + rest))))
    ensures var list := FirstFive(info) + LastFive(info, pad);
            Extract(c) == Some((info, c.Skip(5 + |info.sn|).Skip(|Wire(list)|)))
  {
    var r0 := BLANK.(sn := info.sn, warnlevel := info.warnlevel);
    FirstHalf(info, r0);
    SecondHalf(info, pad);
    ServerSized(info, pad);
    hide KNOWN, Extract, Fields, ApplyAll, FirstFive, LastFive, Sized, Half, Octets.Put16, Wire;
    var list := FirstFive(info) + LastFive(info, pad);
    ExtractHeader(c, info.sn, info.warnlevel, 10, Wire(list) + rest);
    FieldsWritten(c.Skip(5 + |info.sn|), list, info.capabilities, rest, r0);
    ApplyAllAppend(FirstFive(info), LastFive(info, pad), r0);
  }

  lemma ServerSized(info: UserInfo, pad: u16)
    requires |info.icqdata| == 0x25 && info.icqstatus < 0x1_0000
    ensures var list := FirstFive(info) + LastFive(info, pad);
            |list| == 10 && forall k :: 0 <= k < 10 ==> Sized(list[k], info.capabilities)
  {
    hide CapValue;
    var a, b := FirstFive(info), LastFive(info, pad);
    assert forall k :: 0 <= k < 5 ==> Sized(a[k], info.capabilities);
    assert forall k :: 0 <= k < 5 ==> Sized(b[k], info.capabilities);
  }

  lemma WireOne(xs: seq<Tlv>, present: bool, typ: u16, value: Short)
    ensures |Wire(xs + One(present, typ, value))| == |Wire(xs)| + if present then 4 + |value| else 0
  {
    WireAppend(xs, One(present, typ, value));
    if present {
      assert Wire([Tlv(typ, value)]) == Record(Tlv(typ, value)) + Wire([]);
    }
  }

  lemma {:induction false} EncodedSize(info: UserInfo)
    requires |info.sn| <= 32
    ensures |Encoded(info)| <= 333
  {
    hide CapValue, Octets.Put16, Octets.Put32, One;
    var p := info.present;
    CapValueFits(info.capabilities);
    WireOne([], p.flags, 0x0001, Octets.Put16(info.flags));
    var l1 := One(p.flags, 0x0001, Octets.Put16(info.flags));
    assert [] + l1 == l1;
    WireOne(l1, p.membersince, 0x0002, Octets.Put32(info.membersince));
    var l2 := l1 + One(p.membersince, 0x0002, Octets.Put32(info.membersince));
    WireOne(l2, p.onlinesince, 0x0003, Octets.Put32(info.onlinesince));
    var l3 := l2 + One(p.onlinesince, 0x0003, Octets.Put32(info.onlinesince));
    WireOne(l3, p.idle, 0x0004, Octets.Put16(info.idletime));
    var l4 := l3 + One(p.idle, 0x0004, Octets.Put16(info.idletime));
    WireOne(l4, p.capabilities && info.capabilities != {}, 0x000d, CapValue(info.capabilities));
    var l5 := l4 + One(p.capabilities && info.capabilities != {}, 0x000d, CapValue(info.capabilities));
    WireOne(l5, p.sessionlen, if IsAol(info.flags) then 0x0010 else 0x000f, Octets.Put32(info.sessionlen));
  }

  lemma PutInfoFits(c: Cursor, info: UserInfo)
    requires c.Valid() && |info.sn| <= 32 && |Encoded(info)| <= c.Room()
    ensures PutInfo(c, info) == c.Put(Encoded(info))
  {
    hide InfoChain, Octets.Put16, PutAll, Cursor.Put, Wire, Low8;
    var list := InfoChain(info);
    HeaderPuts(c, info);
    PutFive(c, [Low8(|info.sn|)], info.sn, Octets.Put16(info.warnlevel), Octets.Put16(|list|), Wire(list));
  }

  /** Inverse of aim_extractuserinfo: where the block fits, and 333 bytes always suffice,
      aim_extractuserinfo run from where aim_putuserinfo started ends where it ended. */
  lemma InfoRoundTrip(c: Cursor, info: UserInfo)
    requires c.Valid() && |info.sn| <= 32 && |Encoded(info)| <= c.Room()
    ensures Extract(Cursor(PutInfo(c, info).buf, c.pos)) == Some((Received(info), PutInfo(c, info)))
  {
    hide Encoded, Extract, Received, PutInfo;
    PutInfoFits(c, info);
    PutThenRead(c, Encoded(info));
    var start := Cursor(c.Put(Encoded(info)).buf, c.pos);
    ExtractWritten(start, info, c.buf[c.pos + |Encoded(info)|..]);
  }
}
