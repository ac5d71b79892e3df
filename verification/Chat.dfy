/**
  Chat room messages (src/chat.c): a message TLV frozen inside a message block, inside the
  TLV chain of the frame.
*/
module Chat {
  import opened Octets
  import opened ByteStream
  import opened Tlvs
  import opened Snacs
  import MsgCookies
  import UserInfos

  // ----- aim_chat_send_im -----

  const FRAME_LENGTH := 1152

  // AIM_CHATFLAGS_NOREFLECT and AIM_CHATFLAGS_AWAY.
  datatype ChatFlags = ChatFlags(noreflect: bool, away: bool)

  // The inner chain. strlen(msg) is passed on in 16 bits.
  function Inner(msg: seq<byte>): seq<Tlv> {
    [Tlv(0x0001, msg[..Low16(|msg|)])]
  }

  function Outer(flags: ChatFlags, msg: seq<byte>): seq<Tlv> {
    [Tlv(0x0001, [])] + One(!flags.noreflect, 0x0006, []) + One(flags.away, 0x0007, [])
    + [Tlv(0x0005, Frozen(Inner(msg)))]
  }

  function HeadChunks(snacid: u32, cookie: seq<byte>): seq<seq<byte>> {
    SnacChunks(0x000e, 0x0005, 0x0000, snacid) + Bytewise(cookie) + [Octets.Put16(0x0003)]
  }

  method BuildOuter(flags: ChatFlags, msg: seq<byte>) returns (otl: TlvChain)
    ensures fresh(otl) && otl.items == Outer(flags, msg)
  {
    otl := new TlvChain();
    var itl := new TlvChain();
    otl.AddNoval(0x0001);
    if !flags.noreflect {
      otl.AddNoval(0x0006);
    }
    if flags.away {
      otl.AddNoval(0x0007);
    }
    itl.AddRaw(0x0001, Low16(|msg|), msg);
    assert itl.items == Inner(msg);
    var n := otl.AddFrozen(0x0005, itl);
  }

  // The frame handed to the transmit queue, or none; msg is the string up to its terminator,
  // and msglen is only tested for being positive. The SNAC id and the random cookie come from
  // outside.
  method SendIm(flags: ChatFlags, msg: seq<byte>, msglen: int, snacid: u32, cookie: seq<byte>) returns (fr: Bstream?)
    requires |cookie| == 8
    ensures fr == null <==> msglen <= 0
    ensures fr != null ==> fr.Valid() && fr.len == FRAME_LENGTH
    ensures fr != null ==> fr.View().Written() == FrameBytes(flags, msg, snacid, cookie)
  {
    fr := null;
    if msglen <= 0 {
      return;
    }
    hide Outer, Wire, HeadChunks, PutAll, FrameBytes, Write;
    var data := new byte[FRAME_LENGTH];
    fr := new Bstream(data, FRAME_LENGTH);
    ghost var c := fr.View();
    PutHead(fr, snacid, cookie);
    var otl := BuildOuter(flags, msg);
    var n := otl.WriteTo(fr);
    FrameWritten(c, flags, msg, snacid, cookie);
  }

  method PutHead(fr: Bstream, snacid: u32, cookie: seq<byte>)
    requires fr.Valid()
    modifies fr`offset, fr.data
    ensures fr.Valid() && fr.View() == PutAll(old(fr.View()), HeadChunks(snacid, cookie))
  {
    hide SnacChunks, Bytewise, PutAll, Cursor.Put;
    ghost var c := fr.View();
    var n := PutSnac(fr, 0x000e, 0x0005, 0x0000, snacid);
    PutBytewise(fr, cookie);
    PutAllAppend(c, SnacChunks(0x000e, 0x0005, 0x0000, snacid), Bytewise(cookie));
    n := fr.Put16(0x0003);
    PutAllNext(c, SnacChunks(0x000e, 0x0005, 0x0000, snacid) + Bytewise(cookie), Octets.Put16(0x0003));
  }

  function Body(flags: ChatFlags, msg: seq<byte>): seq<byte> {
    if 20 + |Wire(Outer(flags, msg))| <= FRAME_LENGTH then Wire(Outer(flags, msg)) else []
  }

  // What the frame holds: the chain is written whole or not at all.
  function FrameBytes(flags: ChatFlags, msg: seq<byte>, snacid: u32, cookie: seq<byte>): seq<byte> {
    Flatten(SnacChunks(0x000e, 0x0005, 0x0000, snacid)) + cookie + Octets.Put16(0x0003) + Body(flags, msg)
  }

  lemma HeadFlatten(snacid: u32, cookie: seq<byte>)
    requires |cookie| == 8
    ensures Flatten(HeadChunks(snacid, cookie))
         == Flatten(SnacChunks(0x000e, 0x0005, 0x0000, snacid)) + cookie + Octets.Put16(0x0003)
    ensures |Flatten(HeadChunks(snacid, cookie))| == 20
  {
    hide Octets.Put16, Octets.Put32, Bytewise;
    var s := SnacChunks(0x000e, 0x0005, 0x0000, snacid);
    BytewiseFlatten(cookie);
    FlattenAppend(s, Bytewise(cookie));
    FlattenSnoc(s + Bytewise(cookie), Octets.Put16(0x0003));
    HeaderLayout(0x000e, 0x0005, 0x0000, snacid);
  }

  /** The frame on the wire: a SNAC of family 0x0e and subtype 5, the cookie, channel 3 and the
      chain. */
  lemma FrameLayout(flags: ChatFlags, msg: seq<byte>, snacid: u32, cookie: seq<byte>)
    requires |cookie| == 8
    ensures var f := FrameBytes(flags, msg, snacid, cookie);
            && |f| >= 20 && f[..6] == [0x00, 0x0e, 0x00, 0x05, 0x00, 0x00] && Octets.Get32(f[6..10]) == snacid
            && f[10..18] == cookie && f[18..20] == [0x00, 0x03] && f[20..] == Body(flags, msg)
  {
    HeaderLayout(0x000e, 0x0005, 0x0000, snacid);
    hide SnacChunks, Body, Flatten, Octets.Get32;
    var h, f := Flatten(SnacChunks(0x000e, 0x0005, 0x0000, snacid)), FrameBytes(flags, msg, snacid, cookie);
    assert f == h + (cookie + Octets.Put16(0x0003) + Body(flags, msg));
    assert f[..6] == h[..6] && f[6..10] == h[6..];
    assert f[10..18] == cookie && f[20..] == Body(flags, msg);
  }

  lemma FrameWritten(c: Cursor, flags: ChatFlags, msg: seq<byte>, snacid: u32, cookie: seq<byte>)
    requires c.Valid() && c.pos == 0 && |c.buf| == FRAME_LENGTH && |cookie| == 8
    ensures Write(PutAll(c, HeadChunks(snacid, cookie)), Outer(flags, msg)).Written()
         == FrameBytes(flags, msg, snacid, cookie)
  {
    hide Outer, Wire, SnacChunks, Octets.Put16;
    var head, wire := HeadChunks(snacid, cookie), Wire(Outer(flags, msg));
    HeadFlatten(snacid, cookie);
    hide HeadChunks;
    PutAllFits(c, head);
    PutWritten(c, Flatten(head));
    var d := c.Put(Flatten(head));
    assert d.Written() == [] + Flatten(head) == Flatten(head);
    assert d.Room() == FRAME_LENGTH - 20;
    if |wire| <= d.Room() {
      PutWritten(d, wire);
    } else {
      assert Flatten(head) + [] == Flatten(head);
    }
  }

  // ----- incomingmsg -----

  // Ignored: not channel 3. Crash: the user information ran off its record.
  datatype Incoming = Ignored | Message(userinfo: UserInfos.UserInfo, msg: Option<seq<byte>>) | Spins | Crash

  // The records of a chain that was read; a rejected chain is an empty list.
  function Records(r: ChainResult): seq<Tlv> {
    if r.Chain? then r.list else []
  }

  // The text inside the message block, if there is one.
  function BlockText(otl: seq<Tlv>): Option<seq<byte>> {
    match Nth(otl, 0x0005, 1)
    case None => None
    case Some(block) =>
      match Nth(Records(ReadFrom(Cursor(block.value, 0), [])), 0x0001, 1)
      case None => None
      case Some(t) => Some(t.value)
  }

  predicate BlockSpins(otl: seq<Tlv>) {
    var block := Nth(otl, 0x0005, 1);
    block.Some? && ReadFrom(Cursor(block.value.value, 0), []).Diverges?
  }

  // What is made of the outer chain.
  function Digested(otl: seq<Tlv>): Incoming {
    var source := Nth(otl, 0x0003, 1);
    var info := if source.Some? then UserInfos.Extract(Cursor(source.value.value, 0)) else None;
    if source.Some? && info.None? then Crash
    else if BlockSpins(otl) then Spins
    else Message(if info.Some? then info.value.0 else UserInfos.BLANK, BlockText(otl))
  }

  // incomingmsg, from behind the SNAC header: cookie, channel, chain.
  function IncomingMsg(c: Cursor): Incoming
    requires c.Valid()
  {
    var d := c.Skip(8);
    var e := d.Skip(2);
    if d.U16() != 0x0003 then Ignored
    else if ReadFrom(e, []).Diverges? then Spins
    else Digested(Records(ReadFrom(e, [])))
  }

  function CookieGone(list: seq<MsgCookies.Cookie>, cookie: seq<byte>): seq<MsgCookies.Cookie>
    requires |cookie| == 8
  {
    MsgCookies.Uncached(list, MsgCookies.Key(cookie, MsgCookies.TYPE_CHAT))
  }

  /** Once a message has been received its cookie, of type 5, is cached no more; all others are. */
  lemma CookieSpent(list: seq<MsgCookies.Cookie>, cookie: seq<byte>, key: MsgCookies.Key)
    requires |cookie| == 8 && MsgCookies.Distinct(list)
    ensures MsgCookies.Check(CookieGone(list, cookie), key)
         == if key == MsgCookies.Key(cookie, 5) then None else MsgCookies.Check(list, key)
  {
    MsgCookies.CheckUncached(list, MsgCookies.Key(cookie, MsgCookies.TYPE_CHAT), key);
  }

  method DropCookie(bs: Bstream, cookies: MsgCookies.CookieCache)
    requires bs.Valid() && cookies.Valid()
    modifies bs`offset, cookies
    ensures bs.Valid() && bs.View() == old(bs.View()).Skip(8) && cookies.Valid()
    ensures cookies.msgcookies == match old(bs.View()).Take(8)
                                  case None => old(cookies.msgcookies)
                                  case Some(cookie) => CookieGone(old(cookies.msgcookies), cookie)
  {
    hide MsgCookies.Uncached, MsgCookies.Check, MsgCookies.Distinct;
    var cookie := bs.GetRaw(8);
    if cookie.Some? {
      cookies.DropCookie(MsgCookies.Key(cookie.value, MsgCookies.TYPE_CHAT));
    }
  }

  method OpenValue(t: Tlv) returns (bs: Bstream)
    ensures fresh(bs) && fresh(bs.data) && bs.Valid() && bs.View() == Cursor(t.value, 0)
  {
    var buf := new byte[|t.value|](i requires 0 <= i < |t.value| => t.value[i]);
    bs := new Bstream(buf, |t.value|);
    assert buf[..|t.value|] == t.value;
  }

  method ReadBlock(otl: seq<Tlv>) returns (spins: bool, msg: Option<seq<byte>>)
    ensures spins <==> BlockSpins(otl)
    ensures !spins ==> msg == BlockText(otl)
  {
    hide ReadFrom, Nth;
    spins, msg := false, None;
    var msgblock := GetTlv(otl, 0x0005, 1);
    if msgblock.Some? {
      var tbs := OpenValue(msgblock.value);
      var r := ReadChain(tbs);
      if r.Diverges? {
        return true, None;
      }
      var itl := if r.Chain? then r.list else [];
      var t := GetTlv(itl, 0x0001, 1);
      if t.Some? {
        msg := Some(t.value.value);
      }
    }
  }

  // The callback's arguments. The message's cookie leaves the session's cookies.
  method ReceiveMsg(bs: Bstream, cookies: MsgCookies.CookieCache) returns (r: Incoming)
    requires bs.Valid() && cookies.Valid()
    modifies bs`offset, cookies
    ensures r == old(IncomingMsg(bs.View()))
    ensures cookies.Valid()
    ensures cookies.msgcookies == match old(bs.View()).Take(8)
                                  case None => old(cookies.msgcookies)
                                  case Some(cookie) => CookieGone(old(cookies.msgcookies), cookie)
  {
    hide ReadFrom, Nth, BlockText, BlockSpins, UserInfos.Extract, CookieGone;
    DropCookie(bs, cookies);
    var channel := bs.Get16();
    if channel != 0x0003 {
      r := Ignored;
      return;
    }
    var read := ReadChain(bs);
    if read.Diverges? {
      r := Spins;
      return;
    }
    var otl := if read.Chain? then read.list else [];
    var userinfo := UserInfos.BLANK;
    var source := GetTlv(otl, 0x0003, 1);
    if source.Some? {
      var tbs := OpenValue(source.value);
      var info := UserInfos.ExtractUserInfo(tbs);
      if info.None? {
        r := Crash;
        return;
      }
      userinfo := info.value;
    }
    var spins, msg := ReadBlock(otl);
    r := if spins then Spins else Message(userinfo, msg);
  }

  // ----- Round trip -----

  // The longest message that fits: 1120 bytes less 4 for each of the two optional TLVs.
  function Limit(flags: ChatFlags): nat {
    1120 - (if flags.noreflect then 0 else 4) - (if flags.away then 4 else 0)
  }

  lemma WireTwo(t: Tlv, u: Tlv)
    ensures Wire([t]) == Record(t) && Wire([t] + [u]) == Record(t) + Record(u)
  {
    assert Wire([t]) == Record(t) + Wire([]);
    assert Wire([u]) == Record(u) + Wire([]);
    WireAppend([t], [u]);
  }

  lemma OuterSize(flags: ChatFlags, msg: seq<byte>)
    ensures |Wire(Outer(flags, msg))| == 1128 - Limit(flags) + |Frozen(Inner(msg))|
    ensures |Wire(Inner(msg))| == 4 + Low16(|msg|)
  {
    assert Low16(|msg|) <= |msg|;
    hide Frozen, Low16;
    var a, d := [Tlv(0x0001, [])], [Tlv(0x0005, Frozen(Inner(msg)))];
    var b, c := One(!flags.noreflect, 0x0006, []), One(flags.away, 0x0007, []);
    WireAppend(a, b);
    WireAppend(a + b, c);
    WireAppend(a + b + c, d);
    WireTwo(a[0], d[0]);
    WireTwo(d[0], a[0]);
    WireTwo(Tlv(0x0006, []), a[0]);
    WireTwo(Tlv(0x0007, []), a[0]);
    WireTwo(Inner(msg)[0], a[0]);
  }

  /** The chain is written exactly when the text, cut to 16 bits, is within the limit, or so
      close to 2^16 that the message block comes out empty. */
  lemma ChainWritten(flags: ChatFlags, msg: seq<byte>)
    ensures Body(flags, msg) != [] <==> Low16(|msg|) <= Limit(flags) || Low16(|msg|) >= 0xfffc
  {
    hide Outer;
    OuterSize(flags, msg);
  }

  // The block is the last record on the wire and the only one of its type.
  lemma BlockFound(flags: ChatFlags, msg: seq<byte>)
    ensures var otl := Reverse(Outer(flags, msg));
            && Nth(otl, 0x0005, 1) == Some(Tlv(0x0005, Frozen(Inner(msg))))
            && Nth(otl, 0x0003, 1) == None
  {
    var wire := Outer(flags, msg);
    var k := |wire| - 1;
    assert wire[k + 1..] == [];
    NthFromEnd(wire, 0x0005, 1, k);
    NoneOfType(wire, 0x0003);
    NthFromEndMissing(wire, 0x0003, 1);
  }

  lemma NoneOfType(list: seq<Tlv>, t: u16)
    requires forall i :: 0 <= i < |list| ==> list[i].typ != t
    ensures Count(list, t) == 0
  {
    if |list| > 0 {
      NoneOfType(list[..|list| - 1], t);
    }
  }

  lemma InnerRead(msg: seq<byte>)
    ensures ReadFrom(Cursor(Frozen(Inner(msg)), 0), []).Chain?
    ensures BlockText(Reverse([Tlv(0x0005, Frozen(Inner(msg)))]))
         == if Low16(|msg|) < 0xfffc then Some(msg[..Low16(|msg|)]) else None
    ensures Nth(Records(ReadFrom(Cursor(Frozen(Inner(msg)), 0), [])), 0x0001, 1)
         == if Low16(|msg|) < 0xfffc then Some(Inner(msg)[0]) else None
  {
    var c := Cursor(Frozen(Inner(msg)), 0);
    assert c.Rest() == Frozen(Inner(msg));
    WireTwo(Inner(msg)[0], Inner(msg)[0]);
    var block := Tlv(0x0005, Frozen(Inner(msg)));
    assert [block][1..] == [];
    NthFromEnd([block], 0x0005, 1, 0);
    if Low16(|msg|) < 0xfffc {
      ReadWritten(c, Inner(msg));
      assert Inner(msg)[1..] == [];
      NthFromEnd(Inner(msg), 0x0001, 1, 0);
    } else {
      ReadWritten(c, []);
    }
  }

  // What arrives of a message, for every flag combination and every text.
  function Arriving(flags: ChatFlags, msg: seq<byte>): Option<seq<byte>> {
    if Low16(|msg|) <= Limit(flags) then Some(msg[..Low16(|msg|)]) else None
  }

  lemma BodyReceived(flags: ChatFlags, msg: seq<byte>, c: Cursor)
    requires c.Valid() && c.Rest() == Body(flags, msg)
    ensures ReadFrom(c, []).Chain?
    ensures Digested(ReadFrom(c, []).list) == Message(UserInfos.BLANK, Arriving(flags, msg))
  {
    hide Outer, Wire, Frozen;
    ChainWritten(flags, msg);
    OuterSize(flags, msg);
    if Body(flags, msg) == [] {
      NoneOfType([], 0x0003);
      ReadNothing(c);
    } else {
      ReadWritten(c, Outer(flags, msg));
      BlockFound(flags, msg);
      InnerRead(msg);
    }
  }

  lemma ReadNothing(c: Cursor)
    requires c.Valid() && c.Rest() == []
    ensures ReadFrom(c, []) == Chain([])
    ensures Digested([]) == Message(UserInfos.BLANK, None)
  {
    assert Nth([], 0x0005, 1) == None && Nth([], 0x0003, 1) == None;
  }

  /** The flags on the wire: record 6 asks for the message to be shown to its sender as well, and
      record 7 marks one that was sent while away. */
  lemma FlagsWritten(flags: ChatFlags, msg: seq<byte>, c: Cursor)
    requires c.Valid() && c.Rest() == Body(flags, msg) && Body(flags, msg) != []
    ensures var r := ReadFrom(c, []);
            && r.Chain? && Nth(r.list, 0x0001, 1).Some?
            && (Nth(r.list, 0x0006, 1).Some? <==> !flags.noreflect)
            && (Nth(r.list, 0x0007, 1).Some? <==> flags.away)
  {
    ReadWritten(c, Outer(flags, msg));
    hide Wire, ReadFrom, Nth, Frozen, Inner, Has;
    OuterHas(flags, msg, 0x0001);
    OuterHas(flags, msg, 0x0006);
    OuterHas(flags, msg, 0x0007);
    NthIfAny(Outer(flags, msg), 0x0001);
    NthIfAny(Outer(flags, msg), 0x0006);
    NthIfAny(Outer(flags, msg), 0x0007);
  }

  lemma OuterHas(flags: ChatFlags, msg: seq<byte>, typ: u16)
    ensures Has(Outer(flags, msg), typ) <==>
              typ in {0x0001, 0x0005} || (typ == 0x0006 && !flags.noreflect) || (typ == 0x0007 && flags.away)
  {
    hide Frozen, Inner;
    var a, d := Tlv(0x0001, []), Tlv(0x0005, Frozen(Inner(msg)));
    var b, c := One(!flags.noreflect, 0x0006, []), One(flags.away, 0x0007, []);
    HasOne(!flags.noreflect, 0x0006, [], typ);
    HasOne(flags.away, 0x0007, [], typ);
    HasSingle(a, typ);
    HasSingle(d, typ);
    hide Has, One;
    HasAppend([a], b, typ);
    HasAppend([a] + b, c, typ);
    HasAppend([a] + b + c, [d], typ);
  }

  lemma HasSingle(t: Tlv, typ: u16)
    ensures Has([t], typ) <==> t.typ == typ
  {
    assert t in [t];
  }

  /** The receiver of the payload of aim_chat_send_im, from behind the SNAC header, gets
      Arriving(flags, msg); so it gets the message that was sent exactly when that is no
      longer than the limit. */
  lemma ChatRoundTrip(flags: ChatFlags, msg: seq<byte>, cookie: seq<byte>, c: Cursor)
    requires |cookie| == 8
    requires c.Valid() && c.Rest() == cookie + (Octets.Put16(0x0003) + Body(flags, msg))
    ensures IncomingMsg(c) == Message(UserInfos.BLANK, Arriving(flags, msg))
    ensures IncomingMsg(c) == Message(UserInfos.BLANK, Some(msg)) <==> |msg| <= Limit(flags)
  {
    hide Body, Digested;
    Octets.GetPut16(0x0003);
    ReadsPrefix(c, cookie, Octets.Put16(0x0003) + Body(flags, msg));
    ReadsPrefix(c.Skip(8), Octets.Put16(0x0003), Body(flags, msg));
    BodyReceived(flags, msg, c.Skip(8).Skip(2));
    ArrivingWhole(flags, msg);
  }

  lemma ArrivingWhole(flags: ChatFlags, msg: seq<byte>)
    ensures Arriving(flags, msg) == Some(msg) <==> |msg| <= Limit(flags)
  {
    assert |msg[..Low16(|msg|)]| == Low16(|msg|);
    assert msg[..|msg|] == msg;
  }

  function Relayed(source: Short, msg: Short): seq<Tlv> {
    [Tlv(0x0003, source), Tlv(0x0001, []), Tlv(0x0005, Frozen([Tlv(0x0001, msg)]))]
  }

  /** A message as the server passes it on, with its sender's user information in record 3: the
      client gets both. */
  lemma RelayedMessage(cookie: seq<byte>, source: Short, info: UserInfos.UserInfo, end: Cursor, msg: seq<byte>,
        c: Cursor)
    requires |cookie| == 8 && |msg| < 0xfffc && UserInfos.Extract(Cursor(source, 0)) == Some((info, end))
    requires c.Valid() && c.Rest() == cookie + ([0x00, 0x03] + Wire(Relayed(source, msg)))
    ensures IncomingMsg(c) == Message(info, Some(msg))
  {
    var wire, channel := Relayed(source, msg), [0x00, 0x03];
    ReadsPrefix(c, cookie, channel + Wire(wire));
    ReadsPrefix(c.Skip(8), channel, Wire(wire));
    ReadWritten(c.Skip(8).Skip(2), wire);
    RelayedDigested(source, info, end, msg);
    hide Wire, ReadFrom, Relayed, Digested, Cursor.Skip, Cursor.Rest;
    assert Octets.Get16(channel) == 0x0003;
  }

  lemma RelayedDigested(source: Short, info: UserInfos.UserInfo, end: Cursor, msg: seq<byte>)
    requires |msg| < 0xfffc && UserInfos.Extract(Cursor(source, 0)) == Some((info, end))
    ensures Digested(Reverse(Relayed(source, msg))) == Message(info, Some(msg))
  {
    hide Nth, Reverse, UserInfos.Extract, Frozen;
    RelayedFound(Relayed(source, msg));
    assert msg[..|msg|] == msg;
    assert Inner(msg) == [Tlv(0x0001, msg)];
    DigestedIs(Reverse(Relayed(source, msg)), source, info, end, msg);
  }

  lemma DigestedIs(otl: seq<Tlv>, source: Short, info: UserInfos.UserInfo, end: Cursor, msg: seq<byte>)
    requires |msg| < 0xfffc && UserInfos.Extract(Cursor(source, 0)) == Some((info, end))
    requires Nth(otl, 0x0003, 1) == Some(Tlv(0x0003, source))
    requires Nth(otl, 0x0005, 1) == Some(Tlv(0x0005, Frozen(Inner(msg))))
    ensures Digested(otl) == Message(info, Some(msg))
  {
    InnerRead(msg);
    hide ReadFrom, Nth, Frozen, UserInfos.Extract;
    assert msg[..|msg|] == msg;
  }

  lemma RelayedFound(wire: seq<Tlv>)
    requires |wire| == 3 && wire[0].typ == 0x0003 && wire[1].typ == 0x0001 && wire[2].typ == 0x0005
    ensures Nth(Reverse(wire), 0x0003, 1) == Some(wire[0]) && Nth(Reverse(wire), 0x0005, 1) == Some(wire[2])
  {
    NoneOfType(wire[1..], 0x0003);
    NoneOfType(wire[3..], 0x0005);
    NthFromEnd(wire, 0x0003, 1, 0);
    NthFromEnd(wire, 0x0005, 1, 2);
  }
}
