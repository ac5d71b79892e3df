/**
  Channel 1 instant messages (src/im.c): building the message in place with
  aim_send_im_ext, and taking it apart again in incomingim_ch1.
*/
module Icbm {
  import opened Octets
  import opened ByteStream
  import opened Tlvs
  import opened Snacs

  // The AIM_IMFLAGS bits; a mask is the set of its bits.
  datatype ImFlag = AWAY | ACK | UNICODE | ISO_8859_1 | BUDDYREQ | HASICON | SUBENC_MACINTOSH | CUSTOMFEATURES
                  | EXTDATA | CUSTOMCHARSET | MULTIPART | OFFLINE

  type ImFlags = set<ImFlag>

  function On(b: bool, flag: ImFlag): ImFlags { if b then {flag} else {} }

  // aim_mpmsg_section_t; data is None where the parser stores a null pointer.
  datatype Section = Section(charset: u16, charsubset: u16, data: Option<seq<byte>>, datalen: u16) {
    predicate Whole() {
      data.Some? && |data.value| == datalen
    }
  }

  type WholeSection = s: Section | s.Whole() witness Section(0, 0, Some([]), 0)

  // aim_mpmsg_t.
  class Mpmsg {
    var numparts: nat
    var parts: seq<Section>

    predicate Valid()
      reads this
    {
      numparts == |parts|
    }

    // aim_mpmsg_init.
    constructor ()
      ensures Valid() && parts == []
    {
      numparts, parts := 0, [];
    }

    // mpmsg_addsection: at the end of the list.
    method AddSection(s: Section)
      requires Valid()
      modifies this
      ensures Valid() && parts == old(parts) + [s]
    {
      parts := parts + [s];
      numparts := numparts + 1;
    }
  }

  // ----- What aim_send_im_ext writes -----

  // struct aim_sendimext_args; featureslen is a byte, and parts is mpmsg.
  datatype ImArgs = ImArgs(
    destsn: seq<byte>, flags: ImFlags, msg: Option<seq<byte>>, msglen: int, parts: seq<WholeSection>,
    iconlen: u32, iconstamp: int, iconsum: u32, features: seq<byte>, charset: u16, charsubset: u16)
  {
    // The buffers are as long as their length fields say.
    predicate Valid() {
      (msg.Some? ==> msglen <= |msg.value|) && |features| < 0x100
    }
  }

  const MAXMSGLEN := 7987
  const DEFFEATURES: seq<byte> := [0x01, 0x01, 0x01, 0x02]

  datatype Verdict = Acceptable | Invalid | TooBig

  // The argument checks.
  function Check(args: ImArgs): Verdict {
    if MULTIPART in args.flags then
      if |args.parts| <= 0 then Invalid else Acceptable
    else if args.msg.None? || args.msglen <= 0 then Invalid
    else if args.msglen >= MAXMSGLEN then TooBig
    else Acceptable
  }

  function Features(args: ImArgs): (f: seq<byte>)
    requires args.Valid()
    ensures |f| < 0x100
  {
    if CUSTOMFEATURES in args.flags then args.features else DEFFEATURES
  }

  // A single message is sent as one section.
  function Sections(args: ImArgs): seq<WholeSection>
    requires args.Valid() && Check(args) == Acceptable
  {
    if MULTIPART in args.flags then args.parts
    else
      var body := Some(args.msg.value[..args.msglen]);
      if CUSTOMCHARSET in args.flags then [Section(args.charset, args.charsubset, body, args.msglen)]
      else if UNICODE in args.flags then [Section(0x0002, 0x0000, body, args.msglen)]
      else if ISO_8859_1 in args.flags then [Section(0x0003, 0x0000, body, args.msglen)]
      else [Section(0x0000, 0x0000, body, args.msglen)]
  }

  /** What the checks decide: a multipart message needs a section; any other one needs a text of 1
      to 7986 bytes, and is refused as too big from 7987 on. */
  lemma CheckDecides(args: ImArgs)
    ensures Check(args) == Acceptable <==>
              (if MULTIPART in args.flags then args.parts != [] else args.msg.Some? && 1 <= args.msglen <= 7986)
    ensures Check(args) == TooBig <==> MULTIPART !in args.flags && args.msg.Some? && args.msglen >= 7987
  {
  }

  /** The features sent are the caller's own or the four default ones. */
  lemma FeaturesDecided(args: ImArgs)
    requires args.Valid()
    ensures CUSTOMFEATURES in args.flags ==> Features(args) == args.features
    ensures CUSTOMFEATURES !in args.flags ==> Features(args) == [1, 1, 1, 2]
  {
  }

  /** A message that is not multipart is one section with the whole text, in the character set that
      was given or that its flags name: 0x0002 for UNICODE, else 0x0003 for ISO-8859-1, else 0. */
  lemma SingleSection(args: ImArgs)
    requires args.Valid() && Check(args) == Acceptable && MULTIPART !in args.flags
    ensures |Sections(args)| == 1
    ensures var s := Sections(args)[0];
            && s.data == Some(args.msg.value[..args.msglen]) && s.datalen == args.msglen
            && (CUSTOMCHARSET in args.flags ==> s.charset == args.charset && s.charsubset == args.charsubset)
            && (CUSTOMCHARSET !in args.flags ==>
                 && s.charsubset == 0x0000
                 && (UNICODE in args.flags <==> s.charset == 0x0002)
                 && (ISO_8859_1 in args.flags && UNICODE !in args.flags <==> s.charset == 0x0003)
                 && (ISO_8859_1 !in args.flags && UNICODE !in args.flags <==> s.charset == 0x0000))
  {
  }

  // The "painfully calculated" size of the message TLV.
  function MsgTlvLen(features: seq<byte>, parts: seq<Section>): nat {
    1 + 1 + 2 + |features| + PartsLen(parts)
  }

  function PartsLen(parts: seq<Section>): nat {
    if |parts| == 0 then 0 else PartsLen(parts[..|parts| - 1]) + 2 + 2 + 4 + parts[|parts| - 1].datalen
  }

  // The puts of one section, in order; lengths are cut to 16 bits.
  function SectionChunks(s: WholeSection): seq<seq<byte>> {
    [Octets.Put16(0x0101), Octets.Put16(Low16(s.datalen + 4)), Octets.Put16(s.charset), Octets.Put16(s.charsubset),
     s.data.value]
  }

  function SectionsChunks(parts: seq<WholeSection>): seq<seq<byte>> {
    if |parts| == 0 then [] else SectionsChunks(parts[..|parts| - 1]) + SectionChunks(parts[|parts| - 1])
  }

  function FeatureChunks(features: seq<byte>): seq<seq<byte>> {
    [[0x05], [0x01], Octets.Put16(Low16(|features|)), features]
  }

  // SNAC header, cookie, channel, and the destination with its length byte.
  function EnvelopeChunks(snacid: u32, cookie: seq<byte>, destsn: seq<byte>): seq<seq<byte>> {
    SnacChunks(0x0004, 0x0006, 0x0000, snacid) + Bytewise(cookie)
    + [Octets.Put16(0x0001), [Low8(|destsn|)], destsn]
  }

  function Mark(present: bool, typ: u16): seq<seq<byte>> {
    if present then [Octets.Put16(typ), Octets.Put16(0x0000)] else []
  }

  function IconChunks(args: ImArgs): seq<seq<byte>> {
    if HASICON in args.flags then
      [Octets.Put16(0x0008), Octets.Put16(0x000c), Octets.Put32(args.iconlen), Octets.Put16(0x0001),
       Octets.Put16(Low16(args.iconsum)), Octets.Put32(args.iconstamp % 0x1_0000_0000)]
    else []
  }

  function OptionChunks(args: ImArgs): seq<seq<byte>> {
    Mark(ACK in args.flags, 0x0003) + Mark(AWAY in args.flags, 0x0004) + Mark(OFFLINE in args.flags, 0x0006)
    + IconChunks(args) + Mark(BUDDYREQ in args.flags, 0x0009)
  }

  // Every put of aim_send_im_ext, in order.
  function ImChunks(args: ImArgs, snacid: u32, cookie: seq<byte>): seq<seq<byte>>
    requires args.Valid() && Check(args) == Acceptable
  {
    var f, parts := Features(args), Sections(args);
    EnvelopeChunks(snacid, cookie, args.destsn)
    + [Octets.Put16(0x0002), Octets.Put16(Low16(MsgTlvLen(f, parts)))]
    + FeatureChunks(f) + SectionsChunks(parts) + OptionChunks(args)
  }

  // ----- Sizes -----

  function SectionBytes(s: WholeSection): seq<byte> {
    Octets.Put16(0x0101) + Octets.Put16(Low16(s.datalen + 4)) + Octets.Put16(s.charset) + Octets.Put16(s.charsubset)
    + s.data.value
  }

  function SectionsBytes(parts: seq<WholeSection>): seq<byte> {
    if |parts| == 0 then [] else SectionsBytes(parts[..|parts| - 1]) + SectionBytes(parts[|parts| - 1])
  }

  lemma {:induction false} SectionsFlatten(parts: seq<WholeSection>)
    ensures Flatten(SectionsChunks(parts)) == SectionsBytes(parts)
    ensures |SectionsBytes(parts)| == PartsLen(parts)
  {
    if |parts| > 0 {
      var n := |parts| - 1;
      var s := parts[n];
      SectionsFlatten(parts[..n]);
      FlattenAppend(SectionsChunks(parts[..n]), SectionChunks(s));
      FlattenFive(Octets.Put16(0x0101), Octets.Put16(Low16(s.datalen + 4)), Octets.Put16(s.charset),
                  Octets.Put16(s.charsubset), s.data.value);
    }
  }

  lemma FeaturesFlatten(features: seq<byte>)
    requires |features| < 0x100
    ensures Flatten(FeatureChunks(features)) == [0x05] + [0x01] + Octets.Put16(|features|) + features
  {
    var d := Octets.Put16(|features|);
    FlattenTwo([0x05], [0x01]);
    FlattenSnoc([[0x05], [0x01]], d);
    assert [[0x05], [0x01]] + [d] == [[0x05], [0x01], d];
    FlattenSnoc([[0x05], [0x01], d], features);
    assert [[0x05], [0x01], d] + [features] == [[0x05], [0x01], d, features];
  }

  // The value of the message TLV.
  function MsgValue(features: seq<byte>, parts: seq<WholeSection>): seq<byte>
    requires |features| < 0x100
  {
    [0x05] + [0x01] + Octets.Put16(|features|) + features + SectionsBytes(parts)
  }

  /** The size computed beforehand is the number of bytes put inside the message TLV, for every
      feature string and every section list. */
  lemma MsgTlvLenExact(features: seq<byte>, parts: seq<WholeSection>)
    requires |features| < 0x100
    ensures Flatten(FeatureChunks(features) + SectionsChunks(parts)) == MsgValue(features, parts)
    ensures |MsgValue(features, parts)| == MsgTlvLen(features, parts)
  {
    FeaturesFlatten(features);
    SectionsFlatten(parts);
    FlattenAppend(FeatureChunks(features), SectionsChunks(parts));
  }

  function EnvelopeBytes(snacid: u32, cookie: seq<byte>, destsn: seq<byte>): seq<byte> {
    Octets.Put16(0x0004) + Octets.Put16(0x0006) + Octets.Put16(0x0000) + Octets.Put32(snacid) + cookie
    + Octets.Put16(0x0001) + [Low8(|destsn|)] + destsn
  }

  lemma EnvelopeFlatten(snacid: u32, cookie: seq<byte>, destsn: seq<byte>)
    ensures Flatten(EnvelopeChunks(snacid, cookie, destsn)) == EnvelopeBytes(snacid, cookie, destsn)
  {
    hide Octets.Put16, Octets.Put32;
    var a, b, c, d := Octets.Put16(0x0004), Octets.Put16(0x0006), Octets.Put16(0x0000), Octets.Put32(snacid);
    var e, f := Octets.Put16(0x0001), [Low8(|destsn|)];
    FlattenTwo(a, b);
    FlattenSnoc([a, b], c);
    assert [a, b] + [c] == [a, b, c];
    FlattenSnoc([a, b, c], d);
    assert [a, b, c] + [d] == [a, b, c, d];
    BytewiseFlatten(cookie);
    FlattenAppend([a, b, c, d], Bytewise(cookie));
    var front := [a, b, c, d] + Bytewise(cookie);
    FlattenSnoc(front, e);
    FlattenSnoc(front + [e], f);
    FlattenSnoc(front + [e] + [f], destsn);
    assert front + [e] + [f] + [destsn] == front + [e, f, destsn];
  }

  function IconValue(args: ImArgs): Short {
    Octets.Put32(args.iconlen) + Octets.Put16(0x0001) + Octets.Put16(Low16(args.iconsum))
    + Octets.Put32(args.iconstamp % 0x1_0000_0000)
  }

  function Icon(args: ImArgs): seq<Tlv> {
    if HASICON in args.flags then [Tlv(0x0008, IconValue(args))] else []
  }

  function OptionTlvs(args: ImArgs): seq<Tlv> {
    One(ACK in args.flags, 0x0003, []) + One(AWAY in args.flags, 0x0004, []) + One(OFFLINE in args.flags, 0x0006, [])
    + Icon(args) + One(BUDDYREQ in args.flags, 0x0009, [])
  }

  lemma MarkFlatten(present: bool, typ: u16)
    ensures Flatten(Mark(present, typ)) == Wire(One(present, typ, []))
    ensures |Wire(One(present, typ, []))| == if present then 4 else 0
  {
    if present {
      FlattenTwo(Octets.Put16(typ), Octets.Put16(0x0000));
      assert Wire([Tlv(typ, [])]) == Record(Tlv(typ, [])) + Wire([]);
    }
  }

  lemma IconFlatten(args: ImArgs)
    ensures Flatten(IconChunks(args)) == Wire(Icon(args))
    ensures |Wire(Icon(args))| == if HASICON in args.flags then 16 else 0
  {
    hide Octets.Put16, Octets.Put32;
    if HASICON in args.flags {
      var a, b, c, d := Octets.Put16(0x0008), Octets.Put16(0x000c), Octets.Put32(args.iconlen), Octets.Put16(0x0001);
      var e, f := Octets.Put16(Low16(args.iconsum)), Octets.Put32(args.iconstamp % 0x1_0000_0000);
      FlattenFive(a, b, c, d, e);
      FlattenSnoc([a, b, c, d, e], f);
      assert [a, b, c, d, e] + [f] == [a, b, c, d, e, f];
      assert a + b + c + d + e + f == a + b + (c + d + e + f);
      assert Wire(Icon(args)) == Record(Tlv(0x0008, IconValue(args))) + Wire([]);
    }
  }

  lemma OptionsFlatten(args: ImArgs)
    ensures Flatten(OptionChunks(args)) == Wire(OptionTlvs(args))
    ensures |Flatten(OptionChunks(args))| + 25 == Overhead(args.flags)
  {
    hide Mark, One, Icon, IconChunks;
    var flags := args.flags;
    var a, b := Mark(ACK in flags, 0x0003), Mark(AWAY in flags, 0x0004);
    var c, e := Mark(OFFLINE in flags, 0x0006), Mark(BUDDYREQ in flags, 0x0009);
    var d := IconChunks(args);
    FlattenAppend(a, b);
    FlattenAppend(a + b, c);
    FlattenAppend(a + b + c, d);
    FlattenAppend(a + b + c + d, e);
    var p, q := One(ACK in flags, 0x0003, []), One(AWAY in flags, 0x0004, []);
    var r, t := One(OFFLINE in flags, 0x0006, []), One(BUDDYREQ in flags, 0x0009, []);
    var s := Icon(args);
    WireAppend(p, q);
    WireAppend(p + q, r);
    WireAppend(p + q + r, s);
    WireAppend(p + q + r + s, t);
    MarkFlatten(ACK in flags, 0x0003);
    MarkFlatten(AWAY in flags, 0x0004);
    MarkFlatten(OFFLINE in flags, 0x0006);
    IconFlatten(args);
    MarkFlatten(BUDDYREQ in flags, 0x0009);
  }

  // The bytes of a message outside the value of its message TLV and the destination name.
  function Overhead(flags: ImFlags): nat {
    10 + 8 + 2 + 1 + 4 + (if ACK in flags then 4 else 0) + (if AWAY in flags then 4 else 0)
    + (if OFFLINE in flags then 4 else 0) + (if HASICON in flags then 16 else 0) + (if BUDDYREQ in flags then 4 else 0)
  }

  // The TLVs of the message.
  function ImTlvs(args: ImArgs): seq<Tlv>
    requires args.Valid() && Check(args) == Acceptable
    requires MsgTlvLen(Features(args), Sections(args)) < 0x1_0000
  {
    MsgTlvLenExact(Features(args), Sections(args));
    [Tlv(0x0002, MsgValue(Features(args), Sections(args)))] + OptionTlvs(args)
  }

  /** The frame is the envelope followed by a chain of TLVs. */
  lemma ImBytes(args: ImArgs, snacid: u32, cookie: seq<byte>)
    requires args.Valid() && Check(args) == Acceptable && |cookie| == 8
    requires MsgTlvLen(Features(args), Sections(args)) < 0x1_0000
    ensures Flatten(ImChunks(args, snacid, cookie)) == EnvelopeBytes(snacid, cookie, args.destsn) + Wire(ImTlvs(args))
    ensures |Flatten(ImChunks(args, snacid, cookie))|
         == MsgTlvLen(Features(args), Sections(args)) + |args.destsn| + Overhead(args.flags)
  {
    hide EnvelopeChunks, FeatureChunks, SectionsChunks, OptionChunks, MsgValue, OptionTlvs, MsgTlvLen;
    hide Features, Sections, Octets.Put16, Octets.Put32;
    var f, parts := Features(args), Sections(args);
    MsgTlvLenExact(f, parts);
    var n := MsgTlvLen(f, parts);
    var a, b := EnvelopeChunks(snacid, cookie, args.destsn), [Octets.Put16(0x0002), Octets.Put16(n)];
    var c, d := FeatureChunks(f) + SectionsChunks(parts), OptionChunks(args);
    assert ImChunks(args, snacid, cookie) == a + b + c + d;
    EnvelopeFlatten(snacid, cookie, args.destsn);
    FlattenTwo(Octets.Put16(0x0002), Octets.Put16(n));
    FlattenAppend(a, b);
    FlattenAppend(a + b, c);
    FlattenAppend(a + b + c, d);
    OptionsFlatten(args);
    var t := Tlv(0x0002, MsgValue(f, parts));
    assert ([t] + OptionTlvs(args))[1..] == OptionTlvs(args);
    assert Wire(ImTlvs(args)) == Record(t) + Wire(OptionTlvs(args));
  }

  /** The buffer of msgtlvlen + 128 bytes: no put is dropped exactly when the destination name
      fits in what the fixed fields and the requested options leave of the 128 bytes. */
  lemma BufferSuffices(args: ImArgs, snacid: u32, cookie: seq<byte>, c: Cursor)
    requires args.Valid() && Check(args) == Acceptable && |cookie| == 8
    requires c.Valid() && c.pos == 0 && |c.buf| == MsgTlvLen(Features(args), Sections(args)) + 128
    ensures NothingDropped(c, ImChunks(args, snacid, cookie)) <==> |args.destsn| + Overhead(args.flags) <= 128
    ensures |args.destsn| <= 71 ==> NothingDropped(c, ImChunks(args, snacid, cookie))
  {
    hide ImChunks, Features, Sections, MsgTlvLen;
    ImBytes(args, snacid, cookie);
    PutAllFits(c, ImChunks(args, snacid, cookie));
  }

  // ----- aim_send_im_ext itself -----

  // Everything in front of the message TLV.
  method PutEnvelope(bs: Bstream, snacid: u32, cookie: seq<byte>, destsn: seq<byte>)
    requires bs.Valid() && |cookie| == 8
    modifies bs`offset, bs.data
    ensures bs.Valid() && bs.View() == PutAll(old(bs.View()), EnvelopeChunks(snacid, cookie, destsn))
  {
    ghost var c := bs.View();
    ghost var head := SnacChunks(0x0004, 0x0006, 0x0000, snacid);
    hide PutAll, SnacChunks, Bytewise, Octets.Put16;
    var n := PutSnac(bs, 0x0004, 0x0006, 0x0000, snacid);
    PutBytewise(bs, cookie);
    PutAllAppend(c, head, Bytewise(cookie));
    ghost var front := head + Bytewise(cookie);
    n := bs.Put16(0x0001);
    PutAllNext(c, front, Octets.Put16(0x0001));
    n := bs.Put8(Low8(|destsn|));
    PutAllNext(c, front + [Octets.Put16(0x0001)], [Low8(|destsn|)]);
    n := bs.PutRaw(destsn);
    PutAllNext(c, front + [Octets.Put16(0x0001)] + [[Low8(|destsn|)]], destsn);
    assert front + [Octets.Put16(0x0001)] + [[Low8(|destsn|)]] + [destsn]
        == front + [Octets.Put16(0x0001), [Low8(|destsn|)], destsn];
  }

  method PutFeatures(bs: Bstream, features: seq<byte>)
    requires bs.Valid() && |features| < 0x100
    modifies bs`offset, bs.data
    ensures bs.Valid() && bs.View() == PutAll(old(bs.View()), FeatureChunks(features))
  {
    Puts4(bs.View(), [0x05], [0x01], Octets.Put16(|features|), features);
    var n := bs.Put8(0x05);
    n := bs.Put8(0x01);
    n := bs.Put16(|features|);
    n := bs.PutRaw(features);
  }

  method PutSection(bs: Bstream, s: WholeSection)
    requires bs.Valid()
    modifies bs`offset, bs.data
    ensures bs.Valid() && bs.View() == PutAll(old(bs.View()), SectionChunks(s))
  {
    hide PutAll, Octets.Put16;
    ghost var a, b := Octets.Put16(0x0101), Octets.Put16(Low16(s.datalen + 4));
    ghost var c, d := Octets.Put16(s.charset), Octets.Put16(s.charsubset);
    Puts4(bs.View(), a, b, c, d);
    PutAllNext(bs.View(), [a, b, c, d], s.data.value);
    assert [a, b, c, d] + [s.data.value] == [a, b, c, d, s.data.value];
    var n := bs.Put16(0x0101);
    n := bs.Put16(Low16(s.datalen + 4));
    n := bs.Put16(s.charset);
    n := bs.Put16(s.charsubset);
    n := bs.PutRaw(s.data.value);
  }

  method PutSections(bs: Bstream, parts: seq<WholeSection>)
    requires bs.Valid()
    modifies bs`offset, bs.data
    ensures bs.Valid() && bs.View() == PutAll(old(bs.View()), SectionsChunks(parts))
  {
    hide SectionChunks;
    ghost var c := bs.View();
    for i := 0 to |parts|
      invariant bs.Valid() && bs.data == old(bs.data)
      invariant bs.View() == PutAll(c, SectionsChunks(parts[..i]))
    {
      PutSection(bs, parts[i]);
      assert parts[..i + 1][..i] == parts[..i];
      PutAllAppend(c, SectionsChunks(parts[..i]), SectionChunks(parts[i]));
    }
    assert parts[..|parts|] == parts;
  }

  method PutMark(bs: Bstream, present: bool, typ: u16)
    requires bs.Valid()
    modifies bs`offset, bs.data
    ensures bs.Valid() && bs.View() == PutAll(old(bs.View()), Mark(present, typ))
  {
    if present {
      PutAllNext(bs.View(), [], Octets.Put16(typ));
      PutAllNext(bs.View(), [Octets.Put16(typ)], Octets.Put16(0x0000));
      assert [Octets.Put16(typ)] + [Octets.Put16(0x0000)] == Mark(present, typ);
      var n := bs.Put16(typ);
      n := bs.Put16(0x0000);
    }
  }

  method PutIcon(bs: Bstream, args: ImArgs)
    requires bs.Valid()
    modifies bs`offset, bs.data
    ensures bs.Valid() && bs.View() == PutAll(old(bs.View()), IconChunks(args))
  {
    if HASICON !in args.flags {
      return;
    }
    ghost var a, b := Octets.Put16(0x0008), Octets.Put16(0x000c);
    ghost var c, d := Octets.Put32(args.iconlen), Octets.Put16(0x0001);
    ghost var e, f := Octets.Put16(Low16(args.iconsum)), Octets.Put32(args.iconstamp % 0x1_0000_0000);
    Puts4(bs.View(), a, b, c, d);
    hide PutAll, Octets.Put16, Octets.Put32;
    PutAllNext(bs.View(), [a, b, c, d], e);
    PutAllNext(bs.View(), [a, b, c, d] + [e], f);
    assert [a, b, c, d] + [e] + [f] == [a, b, c, d, e, f];
    var n := bs.Put16(0x0008);
    n := bs.Put16(0x000c);
    n := bs.Put32(args.iconlen);
    n := bs.Put16(0x0001);
    n := bs.Put16(Low16(args.iconsum));
    n := bs.Put32(args.iconstamp % 0x1_0000_0000);
  }

  method PutOptions(bs: Bstream, args: ImArgs)
    requires bs.Valid()
    modifies bs`offset, bs.data
    ensures bs.Valid() && bs.View() == PutAll(old(bs.View()), OptionChunks(args))
  {
    hide PutAll, Mark, IconChunks;
    var flags := args.flags;
    ghost var v := bs.View();
    ghost var a, b := Mark(ACK in flags, 0x0003), Mark(AWAY in flags, 0x0004);
    ghost var c, e := Mark(OFFLINE in flags, 0x0006), Mark(BUDDYREQ in flags, 0x0009);
    ghost var d := IconChunks(args);
    PutMark(bs, ACK in flags, 0x0003);
    PutMark(bs, AWAY in flags, 0x0004);
    PutAllAppend(v, a, b);
    PutMark(bs, OFFLINE in flags, 0x0006);
    PutAllAppend(v, a + b, c);
    PutIcon(bs, args);
    PutAllAppend(v, a + b + c, d);
    PutMark(bs, BUDDYREQ in flags, 0x0009);
    PutAllAppend(v, a + b + c + d, e);
  }

  // The calculation of msgtlvlen.
  method CountMsgTlv(features: seq<byte>, parts: seq<Section>) returns (n: nat)
    ensures n == MsgTlvLen(features, parts)
  {
    n := 1 + 1;
    n := n + 2 + |features|;
    for i := 0 to |parts|
      invariant n == 1 + 1 + 2 + |features| + PartsLen(parts[..i])
    {
      n := n + 2 + 2;
      n := n + 4 + parts[i].datalen;
      assert parts[..i + 1][..i] == parts[..i];
    }
    assert parts[..|parts|] == parts;
  }

  // aim_send_im_ext up to the enqueueing of the frame. The SNAC id and the random cookie come
  // from outside.
  // A new frame's buffer holds whatever was in that memory: start is its stream at that moment.
  method SendImExt(args: ImArgs, snacid: u32, cookie: seq<byte>)
    returns (v: Verdict, fr: Bstream?, ghost start: Cursor)
    requires args.Valid() && |cookie| == 8
    ensures v == Check(args) && (fr != null <==> v == Acceptable)
    ensures fr != null ==> fr.Valid() && fresh(fr) && fresh(fr.data)
    ensures fr != null ==>
              && start.Valid() && start.pos == 0
              && |start.buf| == fr.len == Low16(MsgTlvLen(Features(args), Sections(args)) + 128)
              && fr.View() == PutAll(start, ImChunks(args, snacid, cookie))
    ensures fr != null && Fits(args) ==>
              fr.View().Written() == EnvelopeBytes(snacid, cookie, args.destsn) + Wire(ImTlvs(args))
  {
    hide EnvelopeChunks, FeatureChunks, SectionsChunks, OptionChunks, PutAll, Features, Sections;
    hide MsgTlvLen, EnvelopeBytes, ImTlvs, Cursor.Put, Octets.Put16;
    v, fr, start := Check(args), null, Cursor([], 0);
    if v != Acceptable {
      return;
    }
    var features, parts := Features(args), Sections(args);
    var msgtlvlen := CountMsgTlv(features, parts);
    var data := new byte[msgtlvlen + 128];
    fr := new Bstream(data, msgtlvlen + 128);
    start := fr.View();
    PutEnvelope(fr, snacid, cookie, args.destsn);
    ghost var a := EnvelopeChunks(snacid, cookie, args.destsn);
    PutTlvHeader(fr, start, a, msgtlvlen);
    ghost var ab := a + [Octets.Put16(0x0002), Octets.Put16(Low16(msgtlvlen))];
    PutFeatures(fr, features);
    PutAllAppend(start, ab, FeatureChunks(features));
    PutSections(fr, parts);
    PutAllAppend(start, ab + FeatureChunks(features), SectionsChunks(parts));
    PutOptions(fr, args);
    PutAllAppend(start, ab + FeatureChunks(features) + SectionsChunks(parts), OptionChunks(args));
    if Fits(args) {
      FittingFrame(args, snacid, cookie, start);
    }
  }

  // Type and length of the message TLV.
  method PutTlvHeader(fr: Bstream, ghost start: Cursor, ghost a: seq<seq<byte>>, msgtlvlen: nat)
    requires fr.Valid() && start.Valid() && fr.View() == PutAll(start, a)
    modifies fr`offset, fr.data
    ensures fr.Valid()
    ensures fr.View() == PutAll(start, a + [Octets.Put16(0x0002), Octets.Put16(Low16(msgtlvlen))])
  {
    hide PutAll, Cursor.Put, Octets.Put16;
    ghost var s, t := Octets.Put16(0x0002), Octets.Put16(Low16(msgtlvlen));
    PutAllNext(start, a, s);
    PutAllNext(start, a + [s], t);
    assert a + [s] + [t] == a + [s, t];
    var n := fr.Put16(0x0002);
    n := fr.Put16(Low16(msgtlvlen));
  }

  // The frame fits 16 bits, and the name and the options fit the 128 spare bytes.
  ghost predicate Fits(args: ImArgs)
    requires args.Valid() && Check(args) == Acceptable
  {
    MsgTlvLen(Features(args), Sections(args)) + 128 < 0x1_0000 && |args.destsn| + Overhead(args.flags) <= 128
  }

  lemma FittingFrame(args: ImArgs, snacid: u32, cookie: seq<byte>, c: Cursor)
    requires args.Valid() && Check(args) == Acceptable && |cookie| == 8 && Fits(args)
    requires c.Valid() && c.pos == 0 && |c.buf| == MsgTlvLen(Features(args), Sections(args)) + 128
    ensures PutAll(c, ImChunks(args, snacid, cookie)).Written()
         == EnvelopeBytes(snacid, cookie, args.destsn) + Wire(ImTlvs(args))
  {
    hide ImChunks, Features, Sections, MsgTlvLen, ImTlvs, EnvelopeBytes;
    var chunks := ImChunks(args, snacid, cookie);
    BufferSuffices(args, snacid, cookie, c);
    PutAllFits(c, chunks);
    ImBytes(args, snacid, cookie);
    PutWritten(c, Flatten(chunks));
    assert c.Written() + Flatten(chunks) == Flatten(chunks);
  }

  // ----- incomingim_ch1 -----

  // struct aim_incomingim_ch1_args; featureslen and extdatalen are bytes.
  datatype InArgs = InArgs(
    parts: seq<Section>, flags: ImFlags, msg: Option<seq<byte>>, msglen: u16, iconstamp: u32, iconlen: u32,
    iconsum: u16, features: seq<byte>, featureslen: byte, extdata: Option<seq<byte>>, extdatalen: byte,
    charset: u16, charsubset: u16)

  const BLANK := InArgs([], {}, None, 0, 0, 0, 0, [], 0, None, 0, 0, 0)

  // Overrun: the code reads behind the end of its buffer. Diverges: it never returns.
  datatype Ch1Result = Done(args: InArgs) | Overrun | Diverges

  // One section of incomingim_ch1_parsemsgs: two bytes skipped, a length that includes the
  // character set, the character set, and the text.
  function ParseSection(c: Cursor): (r: (Section, Cursor))
    requires c.Valid()
    ensures r.1.Valid() && r.1.buf == c.buf
    ensures c.Room() > 0 ==> r.1.Room() < c.Room()
  {
    var d := c.Skip(1).Skip(1);
    var e := d.Skip(2);
    var f := e.Skip(2);
    var g := f.Skip(2);
    var n := Low16(d.U16() as int - 4);
    (Section(e.U16(), f.U16(), g.Take(n), n), g.Skip(n))
  }

  function ParseSections(c: Cursor, parts: seq<Section>): seq<Section>
    requires c.Valid()
    decreases c.Room()
  {
    if c.Room() == 0 then parts
    else
      var (s, d) := ParseSection(c);
      ParseSections(d, parts + [s])
  }

  // The first section with the given character set.
  function FirstWith(parts: seq<Section>, charset: u16, i: nat): Option<Section>
    requires i <= |parts|
    decreases |parts| - i
  {
    if i == |parts| then None
    else if parts[i].charset == charset then Some(parts[i])
    else FirstWith(parts, charset, i + 1)
  }

  // charsetpri: ASCII, then ISO-8859-1, then UNICODE.
  const CHARSET_PRIORITY: seq<u16> := [0x0000, 0x0003, 0x0002]

  function Best(parts: seq<Section>, k: nat): Option<Section>
    requires k <= 3
    decreases 3 - k
  {
    if k == 3 then None
    else
      var s := FirstWith(parts, CHARSET_PRIORITY[k], 0);
      if s.Some? then s else Best(parts, k + 1)
  }

  // The flags that tell about the chosen section.
  function SectionFlags(flags: ImFlags, s: Section): ImFlags {
    flags + {CUSTOMCHARSET} + On(s.charset == 0x0002, UNICODE) + On(s.charset == 0x0003, ISO_8859_1)
    + On(s.charsubset == 0x000b, SUBENC_MACINTOSH)
  }

  // The fields filled in from the chosen section.
  function Present(args: InArgs): InArgs {
    var flags := args.flags + {MULTIPART};
    match Best(args.parts, 0)
    case None => args.(flags := flags, charset := 0xffff, charsubset := 0xffff, msg := None, msglen := 0)
    case Some(s) =>
      args.(flags := SectionFlags(flags, s), charset := s.charset, charsubset := s.charsubset,
            msg := s.data, msglen := s.datalen)
  }

  function WithMessage(args: InArgs, n: byte, features: seq<byte>, parts: seq<Section>): InArgs {
    args.(featureslen := n, features := features, flags := args.flags + {CUSTOMFEATURES}, parts := parts)
  }

  // The message block: features, then sections up to the end of the TLV. None: the sections
  // would be read behind the buffer.
  function MessageField(length: u16, c: Cursor, args: InArgs): (r: Option<(InArgs, Cursor)>)
    requires c.Valid()
    ensures r.Some? ==> r.value.1.Valid() && r.value.1.buf == c.buf && r.value.1.pos >= c.pos
  {
    var d := c.Skip(1).Skip(1);
    var n := Low8(d.U16());
    var e := d.Skip(2);
    var f := e.Skip(n);
    var inner := Low16(length as int - 2 - 2 - n);
    if inner > f.Room() then None
    else
      Some((Present(WithMessage(args, n, e.Peek(n), ParseSections(Cursor(f.Peek(inner), 0), args.parts))), f))
  }

  function IconField(c: Cursor, args: InArgs): (r: (InArgs, Cursor))
    requires c.Valid()
    ensures r.1.Valid() && r.1.buf == c.buf && r.1.pos >= c.pos
  {
    var d := c.Skip(4).Skip(2);
    var e := d.Skip(2);
    var flags := if c.U32() != 0 then args.flags + {HASICON} else args.flags;
    (args.(iconlen := c.U32(), iconsum := d.U16(), iconstamp := e.U32(), flags := flags), e.Skip(4))
  }

  // The branches of the TLV loop.
  function Ch1Field(typ: u16, length: u16, c: Cursor, args: InArgs): (r: Option<(InArgs, Cursor)>)
    requires c.Valid()
    ensures r.Some? ==> r.value.1.Valid() && r.value.1.buf == c.buf && r.value.1.pos >= c.pos
  {
    var flags := args.flags;
    if typ == 0x0002 then MessageField(length, c, args)
    else if typ == 0x0003 then Some((args.(flags := flags + {ACK}), c))
    else if typ == 0x0004 then Some((args.(flags := flags + {AWAY}), c))
    else if typ == 0x0006 then Some((args.(flags := flags + {OFFLINE}), c))
    else if typ == 0x0008 then Some(IconField(c, args))
    else if typ == 0x0009 then Some((args.(flags := flags + {BUDDYREQ}), c))
    else if typ == 0x0017 then
      var n := Low8(length);
      Some((args.(extdatalen := n, extdata := c.Take(n)), c.Skip(n)))
    else Some((args, c))
  }

  // One round of the loop, ending with the jump to the end of the TLV.
  function Ch1Step(c: Cursor, args: InArgs): (r: Option<(InArgs, Cursor)>)
    requires c.Valid()
    ensures r.Some? ==> r.value.1.Valid() && r.value.1.buf == c.buf
    ensures r.Some? && c.Room() >= 2 ==> r.value.1.Room() < c.Room()
  {
    var d := c.Skip(2);
    var e := d.Skip(2);
    match Ch1Field(c.U16(), d.U16(), e, args)
    case None => None
    case Some((args', f)) => Some((args', f.SetPos(e.pos + d.U16())))
  }

  function Ch1(c: Cursor, args: InArgs): Ch1Result
    requires c.Valid()
    decreases c.Room()
  {
    if c.Room() == 0 then Done(args)
    else if c.Room() == 1 then Ch1Result.Diverges
    else
      match Ch1Step(c, args)
      case None => Overrun
      case Some((args', d)) => Ch1(d, args')
  }

  // A single byte left over is never got past: the round changes nothing at all.
  lemma Ch1Stuck(c: Cursor, args: InArgs)
    requires c.Valid() && c.Room() == 1
    ensures Ch1Step(c, args) == Some((args, c))
  {
  }

  // n rounds of the loop; None means it is still running.
  function Ch1Loop(n: nat, c: Cursor, args: InArgs): Option<Ch1Result>
    requires c.Valid()
  {
    if c.Room() == 0 then Some(Done(args))
    else if n == 0 then None
    else
      match Ch1Step(c, args)
      case None => Some(Overrun)
      case Some((args', d)) => Ch1Loop(n - 1, d, args')
  }

  /** Diverges means exactly that no number of rounds ends the loop; every other outcome is
      reached after at most as many rounds as there are bytes. */
  lemma {:induction false} Ch1Forever(c: Cursor, args: InArgs, n: nat)
    requires c.Valid()
    ensures Ch1(c, args) == Ch1Result.Diverges ==> Ch1Loop(n, c, args) == None
    ensures Ch1(c, args) != Ch1Result.Diverges && n >= c.Room() ==> Ch1Loop(n, c, args) == Some(Ch1(c, args))
    decreases n
  {
    hide Ch1Step;
    if c.Room() > 0 && n > 0 {
      if c.Room() == 1 {
        Ch1StuckForever(c, args, n);
      } else {
        match Ch1Step(c, args)
        case None =>
        case Some((args', d)) => Ch1Forever(d, args', n - 1);
      }
    }
  }

  lemma {:induction false} Ch1StuckForever(c: Cursor, args: InArgs, n: nat)
    requires c.Valid() && c.Room() == 1
    ensures Ch1Loop(n, c, args) == None
    decreases n
  {
    if n > 0 {
      Ch1Stuck(c, args);
      hide Ch1Step;
      Ch1StuckForever(c, args, n - 1);
    }
  }

  // Whether the TLV at the position is a message block whose sections are said to go on behind the
  // buffer; a length too short for its own features wraps around to such a one.
  predicate RunsOver(c: Cursor)
    requires c.Valid()
  {
    var length := c.Skip(2).U16();
    var d := c.Skip(2).Skip(2).Skip(1).Skip(1);
    var n := Low8(d.U16());
    c.U16() == 0x0002 && Low16(length as int - 2 - 2 - n) > d.Skip(2).Skip(n).Room()
  }

  lemma StepRunsOver(c: Cursor, args: InArgs)
    requires c.Valid()
    ensures Ch1Step(c, args).None? <==> RunsOver(c)
  {
    hide ParseSections, Present, WithMessage, IconField, Low8, Low16;
    hide Cursor.Skip, Cursor.U16, Cursor.Take, Cursor.Peek, Cursor.Room, Cursor.SetPos;
  }

  // A round on a whole record ends behind it.
  lemma StepLands(c: Cursor, t: Tlv, rest: seq<byte>, args: InArgs)
    requires c.Valid() && c.Rest() == Record(t) + rest
    ensures 4 + |t.value| <= c.Room() && c.Skip(4 + |t.value|).Rest() == rest
    ensures Ch1Step(c, args).Some? ==> Ch1Step(c, args).value.1 == c.Skip(4 + |t.value|)
  {
    HeaderRead(c, t, rest);
    hide Ch1Field, Record;
  }

  // A round on an over-long record goes on where the reads of its own field ended, so the rest of
  // the buffer is taken for records from there.
  lemma StepOverLong(c: Cursor, args: InArgs)
    requires c.Valid() && c.Room() >= 4 && c.Skip(2).U16() > c.Room() - 4
    ensures var field := Ch1Field(c.U16(), c.Skip(2).U16(), c.Skip(2).Skip(2), args);
            Ch1Step(c, args) == field
  {
    hide Ch1Field, Cursor.U16;
  }

  // No message block among these records runs over.
  ghost predicate Clear(c: Cursor, w: seq<Tlv>)
    requires c.Valid()
    decreases |w|
  {
    |w| > 0 ==> !RunsOver(c) && Clear(c.Skip(4 + |w[0].value|), w[1..])
  }

  // What is left over is too short for a record.
  lemma Ch1Short(c: Cursor, args: InArgs)
    requires c.Valid() && 0 < c.Room() < 4
    ensures var block := c.Room() >= 2 && c.U16() == 0x0002;
            && (Ch1(c, args) == Overrun <==> block)
            && (Ch1(c, args) == Ch1Result.Diverges <==> c.Room() == 1 || (c.Room() == 3 && !block))
  {
    StepRunsOver(c, args);
    if c.Room() >= 2 {
      var e := c.Skip(2).Skip(2);
      assert e.Room() == c.Room() - 2 && c.Skip(2).U16() == 0;
      hide Ch1Field;
      match Ch1Step(c, args)
      case None =>
      case Some((args', d)) => assert d == e;
    }
  }

  /** What becomes of a buffer of whole records and a rest: reading runs over exactly when one of
      its message blocks does or a rest of two or three bytes starts one, and never ends exactly
      when otherwise one or three bytes are left. */
  lemma {:induction false} Ch1Outcome(c: Cursor, args: InArgs, w: seq<Tlv>, rest: seq<byte>)
    requires c.Valid() && c.Rest() == Wire(w) + rest && |rest| < 4
    ensures var block := |rest| >= 2 && Octets.Get16(rest[..2]) == 0x0002;
            && (Ch1(c, args) == Overrun <==> !Clear(c, w) || block)
            && (Ch1(c, args) == Ch1Result.Diverges <==>
                Clear(c, w) && !block && (|rest| == 1 || |rest| == 3))
    decreases |w|
  {
    if |w| == 0 {
      assert c.Rest() == rest;
      if |rest| > 0 {
        Ch1Short(c, args);
      }
    } else {
      var tail := Wire(w[1..]) + rest;
      assert c.Rest() == Record(w[0]) + tail;
      StepRunsOver(c, args);
      StepLands(c, w[0], tail, args);
      hide Ch1Step, RunsOver, Record, Wire, Cursor.Skip, Cursor.Rest;
      if !RunsOver(c) {
        Ch1Outcome(c.Skip(4 + |w[0].value|), Ch1Step(c, args).value.0, w[1..], rest);
      }
    }
  }

  method ReadSection(mbs: Bstream) returns (s: Section)
    requires mbs.Valid()
    modifies mbs`offset
    ensures mbs.Valid() && (s, mbs.View()) == old(ParseSection(mbs.View()))
  {
    hide Low16, Cursor.Skip, Cursor.U16, Cursor.Take, Cursor.Room;
    var b := mbs.Get8();
    b := mbs.Get8();
    var msglen := mbs.Get16();
    var flag1 := mbs.Get16();
    var flag2 := mbs.Get16();
    msglen := Low16(msglen as int - 4);
    var msgbuf := mbs.GetRaw(msglen);
    s := Section(flag1, flag2, msgbuf, msglen);
  }

  // incomingim_ch1_parsemsgs, on the bytes it is given.
  method ParseMsgs(data: seq<byte>, args: InArgs) returns (r: InArgs)
    requires |data| < 0x1_0000
    ensures r == Present(args.(parts := ParseSections(Cursor(data, 0), args.parts)))
  {
    hide ParseSection, Present;
    var buf := new byte[|data|](i requires 0 <= i < |data| => data[i]);
    var mbs := new Bstream(buf, |data|);
    assert buf[..|data|] == data;
    var mpm := new Mpmsg();
    mpm.parts, mpm.numparts := args.parts, |args.parts|;
    var room := mbs.Empty();
    while room > 0
      invariant mbs.Valid() && mpm.Valid() && fresh(mbs) && fresh(mpm) && room == mbs.View().Room()
      invariant ParseSections(mbs.View(), mpm.parts) == ParseSections(Cursor(data, 0), args.parts)
      decreases room
    {
      var sec := ReadSection(mbs);
      mpm.AddSection(sec);
      room := mbs.Empty();
    }
    r := Choose(args.(parts := mpm.parts));
  }

  // The search of incomingim_ch1_parsemsgs for a readable section.
  method FindReadable(parts: seq<Section>) returns (r: Option<Section>)
    ensures r == Best(parts, 0)
  {
    for i := 0 to 3
      invariant Best(parts, i) == Best(parts, 0)
    {
      for k := 0 to |parts|
        invariant FirstWith(parts, CHARSET_PRIORITY[i], k) == FirstWith(parts, CHARSET_PRIORITY[i], 0)
      {
        if parts[k].charset == CHARSET_PRIORITY[i] {
          return Some(parts[k]);
        }
      }
    }
    r := None;
  }

  method FlagSection(flags: ImFlags, sec: Section) returns (r: ImFlags)
    ensures r == SectionFlags(flags, sec)
  {
    r := flags + {CUSTOMCHARSET};
    if sec.charset == 0x0000 {
    } else if sec.charset == 0x0002 {
      r := r + {UNICODE};
    } else if sec.charset == 0x0003 {
      r := r + {ISO_8859_1};
    }
    if sec.charsubset == 0x0000 {
    } else if sec.charsubset == 0x000b {
      r := r + {SUBENC_MACINTOSH};
    }
  }

  // The second half of incomingim_ch1_parsemsgs.
  method Choose(args: InArgs) returns (r: InArgs)
    ensures r == Present(args)
  {
    hide Best, SectionFlags;
    var flags := args.flags + {MULTIPART};
    var best := FindReadable(args.parts);
    if best.None? {
      return args.(flags := flags, charset := 0xffff, charsubset := 0xffff, msg := None, msglen := 0);
    }
    var sec := best.value;
    flags := FlagSection(flags, sec);
    r := args.(flags := flags, charset := sec.charset, charsubset := sec.charsubset,
               msg := sec.data, msglen := sec.datalen);
  }

  method ReadMessage(bs: Bstream, length: u16, args: InArgs) returns (r: Option<InArgs>)
    requires bs.Valid()
    modifies bs`offset
    ensures bs.Valid()
    ensures r.Some? <==> old(MessageField(length, bs.View(), args)).Some?
    ensures r.Some? ==> old(MessageField(length, bs.View(), args)) == Some((r.value, bs.View()))
  {
    hide ParseSections, Present, Low8, Low16, Cursor.Peek, Cursor.Skip, Cursor.U16, Cursor.Room;
    var b := bs.Get8();
    b := bs.Get8();
    var w := bs.Get16();
    var n := Low8(w);
    var features := bs.Peek(n);
    var a := bs.Advance(n);
    var inner := Low16(length as int - 2 - 2 - n);
    var room := bs.Empty();
    if inner > room {
      return None;
    }
    var sections := bs.Peek(inner);
    var args' := ParseMsgs(sections, WithMessage(args, n, features, args.parts));
    r := Some(args');
  }

  method ReadIcon(bs: Bstream, args: InArgs) returns (r: InArgs)
    requires bs.Valid()
    modifies bs`offset
    ensures bs.Valid() && old(IconField(bs.View(), args)) == (r, bs.View())
  {
    var flags := args.flags;
    var iconlen := bs.Get32();
    var one := bs.Get16();
    var iconsum := bs.Get16();
    var iconstamp := bs.Get32();
    if iconlen != 0 {
      flags := flags + {HASICON};
    }
    r := args.(iconlen := iconlen, iconsum := iconsum, iconstamp := iconstamp, flags := flags);
  }

  // The if-else chain of incomingim_ch1.
  method ReadCh1Field(bs: Bstream, typ: u16, length: u16, args: InArgs) returns (r: Option<InArgs>)
    requires bs.Valid()
    modifies bs`offset
    ensures bs.Valid()
    ensures r.Some? <==> old(Ch1Field(typ, length, bs.View(), args)).Some?
    ensures r.Some? ==> old(Ch1Field(typ, length, bs.View(), args)) == Some((r.value, bs.View()))
  {
    hide MessageField, IconField;
    var flags := args.flags;
    if typ == 0x0002 {
      r := ReadMessage(bs, length, args);
    } else if typ == 0x0003 {
      r := Some(args.(flags := flags + {ACK}));
    } else if typ == 0x0004 {
      r := Some(args.(flags := flags + {AWAY}));
    } else if typ == 0x0006 {
      r := Some(args.(flags := flags + {OFFLINE}));
    } else if typ == 0x0008 {
      var args' := ReadIcon(bs, args);
      r := Some(args');
    } else if typ == 0x0009 {
      r := Some(args.(flags := flags + {BUDDYREQ}));
    } else if typ == 0x0017 {
      var n := Low8(length);
      var extdata := bs.GetRaw(n);
      r := Some(args.(extdatalen := n, extdata := extdata));
    } else {
      r := Some(args);
    }
  }

  // One round of the loop of incomingim_ch1.
  method ReadCh1Tlv(bs: Bstream, args: InArgs) returns (r: Option<InArgs>)
    requires bs.Valid()
    modifies bs`offset
    ensures bs.Valid()
    ensures r.Some? <==> old(Ch1Step(bs.View(), args)).Some?
    ensures r.Some? ==> old(Ch1Step(bs.View(), args)) == Some((r.value, bs.View()))
  {
    hide Ch1Field;
    var typ := bs.Get16();
    var length := bs.Get16();
    var endpos := bs.offset + length;
    r := ReadCh1Field(bs, typ, length, args);
    if r.Some? {
      var p := bs.SetPos(endpos);
    }
  }

  method IncomingCh1(bs: Bstream) returns (r: Ch1Result)
    requires bs.Valid()
    modifies bs`offset
    ensures r == old(Ch1(bs.View(), BLANK))
  {
    hide Ch1Step;
    var args := BLANK;
    var room := bs.Empty();
    while room > 0
      invariant bs.Valid() && room == bs.View().Room()
      invariant Ch1(bs.View(), args) == old(Ch1(bs.View(), BLANK))
      decreases room
    {
      if room == 1 {
        return Ch1Result.Diverges;
      }
      var next := ReadCh1Tlv(bs, args);
      if next.None? {
        return Overrun;
      }
      args := next.value;
      room := bs.Empty();
    }
    r := Done(args);
  }

  // ----- Round trip -----

  lemma {:induction false} SectionsBytesCons(parts: seq<WholeSection>)
    requires |parts| > 0
    ensures SectionsBytes(parts) == SectionBytes(parts[0]) + SectionsBytes(parts[1..])
  {
    hide SectionBytes;
    var n := |parts| - 1;
    if n == 0 {
      assert parts[..0] == [] && parts[1..] == [];
    } else {
      SectionsBytesCons(parts[..n]);
      assert parts[..n][1..] == parts[1..][..n - 1];
      assert parts[..n][0] == parts[0] && parts[1..][n - 1] == parts[n];
    }
  }

  lemma ParsePieces(c: Cursor, b: seq<byte>, e: seq<byte>, f: seq<byte>, text: seq<byte>,
        rest: seq<byte>, tail: seq<byte>)
    requires |b| == 2 && |e| == 2 && |f| == 2 && Low16(Octets.Get16(b) as int - 4) == |text|
    requires tail == b + (e + (f + (text + rest)))
    requires c.Valid() && c.Rest() == [1] + ([1] + tail)
    ensures 8 + |text| <= c.Room() && c.Skip(8 + |text|).Rest() == rest
    ensures ParseSection(c) == (Section(Octets.Get16(e), Octets.Get16(f), Some(text), |text|), c.Skip(8 + |text|))
  {
    hide Octets.Get16, Cursor.Skip, Cursor.Take, Cursor.U16, Cursor.Rest, Cursor.Room;
    TwoBytes(c, 1, 1, tail);
    var d := c.Skip(1).Skip(1);
    ParseLengths(d, b, e, f, text + rest);
    var g := d.Skip(6);
    ReadsPrefix(g, text, rest);
    SkipSkip(c, 2, 6);
    SkipSkip(c, 8, |text|);
  }

  lemma TwoBytes(c: Cursor, x: byte, y: byte, tail: seq<byte>)
    requires c.Valid() && c.Rest() == [x] + ([y] + tail)
    ensures 2 <= c.Room() && c.Skip(1).Skip(1) == c.Skip(2) && c.Skip(2).Rest() == tail
    ensures c.Skip(1).Skip(1).Rest() == tail && c.Skip(2).Room() == c.Room() - 2
  {
    ReadsPrefix(c, [x], [y] + tail);
    ReadsPrefix(c.Skip(1), [y], tail);
  }

  lemma SkipSkip(c: Cursor, m: nat, n: nat)
    requires c.Valid() && m <= c.Room() && n <= c.Skip(m).Room()
    ensures c.Skip(m).Skip(n) == c.Skip(m + n) && m + n <= c.Room()
    ensures c.Skip(m).Room() == c.Room() - m
  {
  }

  lemma ParseLengths(c: Cursor, b: seq<byte>, e: seq<byte>, f: seq<byte>, rest: seq<byte>)
    requires |b| == 2 && |e| == 2 && |f| == 2
    requires c.Valid() && c.Rest() == b + (e + (f + rest))
    ensures 6 <= c.Room() && c.U16() == Octets.Get16(b)
    ensures c.Skip(2).U16() == Octets.Get16(e) && c.Skip(2).Skip(2).U16() == Octets.Get16(f)
    ensures c.Skip(2).Skip(2).Skip(2) == c.Skip(6) && c.Skip(6).Rest() == rest
  {
    hide Octets.Get16;
    ReadsPrefix(c, b, e + (f + rest));
    ReadsPrefix(c.Skip(2), e, f + rest);
    ReadsPrefix(c.Skip(2).Skip(2), f, rest);
  }

  lemma SectionParsed(c: Cursor, s: WholeSection, rest: seq<byte>)
    requires c.Valid() && c.Rest() == SectionBytes(s) + rest
    ensures |SectionBytes(s)| == 8 + s.datalen <= c.Room()
    ensures ParseSection(c) == (s, c.Skip(8 + s.datalen)) && c.Skip(8 + s.datalen).Rest() == rest
  {
    var b, e, f := Octets.Put16(Low16(s.datalen + 4)), Octets.Put16(s.charset), Octets.Put16(s.charsubset);
    assert Octets.Put16(0x0101) == [1] + [1];
    Octets.GetPut16(Low16(s.datalen + 4));
    Octets.GetPut16(s.charset);
    Octets.GetPut16(s.charsubset);
    LengthWraps(s.datalen);
    hide Octets.Put16, Octets.Get16, Low16, ParseSection;
    SplitSection([1], [1], b, e, f, s.data.value, rest);
    ParsePieces(c, b, e, f, s.data.value, rest, b + (e + (f + (s.data.value + rest))));
  }

  // The length written is 4 more than the text, and 4 less is what is read, both in 16 bits.
  lemma LengthWraps(n: u16)
    ensures Low16(Low16(n + 4) as int - 4) == n
  {
  }

  lemma SplitSection(a: seq<byte>, a': seq<byte>, b: seq<byte>, e: seq<byte>, f: seq<byte>,
        text: seq<byte>, rest: seq<byte>)
    ensures (a + a') + b + e + f + text + rest == a + (a' + (b + (e + (f + (text + rest)))))
  {
    assert (a + a') + b + e + f + text + rest == (a + a') + b + e + f + (text + rest);
    assert (a + a') + b + e + f + (text + rest) == (a + a') + b + e + (f + (text + rest));
    assert (a + a') + b + e + (f + (text + rest)) == (a + a') + b + (e + (f + (text + rest)));
    assert (a + a') + b + (e + (f + (text + rest))) == (a + a') + (b + (e + (f + (text + rest))));
    assert (a + a') + (b + (e + (f + (text + rest)))) == a + (a' + (b + (e + (f + (text + rest)))));
  }

  /** The sections come back in order, each with its character set and its text. */
  lemma {:induction false} SectionsParsed(c: Cursor, parts: seq<WholeSection>, before: seq<Section>)
    requires c.Valid() && c.Rest() == SectionsBytes(parts)
    ensures ParseSections(c, before) == before + parts
    decreases |parts|
  {
    hide SectionBytes, ParseSection;
    if |parts| == 0 {
      assert before + parts == before;
    } else {
      SectionsBytesCons(parts);
      SectionParsed(c, parts[0], SectionsBytes(parts[1..]));
      SectionsParsed(c.Skip(8 + parts[0].datalen), parts[1..], before + [parts[0]]);
      assert before + [parts[0]] + parts[1..] == before + parts;
    }
  }

  // The message block in pieces: a is the length of the features.
  lemma FeaturesRead(c: Cursor, a: seq<byte>, features: seq<byte>, r1: seq<byte>)
    requires |a| == 2 && Octets.Get16(a) == |features| < 0x100
    requires c.Valid() && c.Rest() == [0x05] + ([0x01] + (a + (features + r1)))
    ensures 4 + |features| + |r1| == c.Room()
    ensures var d := c.Skip(1).Skip(1);
            var e := d.Skip(2);
            && Low8(d.U16()) == |features| && e.Peek(|features|) == features && e.Skip(|features|).Rest() == r1
  {
    SmallNumbers(|features|);
    hide Octets.Get16, Cursor.Skip, Cursor.Peek, Cursor.U16, Cursor.Rest, Low8;
    TwoBytes(c, 0x05, 0x01, a + (features + r1));
    var d := c.Skip(1).Skip(1);
    ReadsPrefix(d, a, features + r1);
    ReadsPrefix(d.Skip(2), features, r1);
  }

  // b are the bytes of the sections.
  lemma BlockRead(c: Cursor, a: seq<byte>, features: seq<byte>, b: seq<byte>, rest: seq<byte>, args: InArgs)
    requires |a| == 2 && Octets.Get16(a) == |features| < 0x100
    requires c.Valid() && c.Rest() == [0x05] + ([0x01] + (a + (features + (b + rest))))
    ensures 4 + |features| + |b| <= c.Room() && 4 + |features| + |b| < 0x1_0000
    ensures var r := MessageField(4 + |features| + |b|, c, args);
            r.Some? &&
            r.value.0 == Present(WithMessage(args, |features|, features, ParseSections(Cursor(b, 0), args.parts)))
  {
    assert c.Room() <= |c.buf| < 0x1_0000;
    FeaturesRead(c, a, features, b + rest);
    hide WithMessage, Octets.Get16, Present, ParseSections, Cursor.Skip, Cursor.Peek, Cursor.U16;
    hide Cursor.Rest, Cursor.Room, Low16, Low8;
    ReadsPrefix(c.Skip(1).Skip(1).Skip(2).Skip(|features|), b, rest);
    SmallNumbers(|b|);
  }

  lemma SmallNumbers(n: u16)
    ensures Low16(n) == n
    ensures n < 0x100 ==> Low8(n) == n
  {
  }

  lemma MsgValuePieces(features: seq<byte>, parts: seq<WholeSection>, rest: seq<byte>)
    requires |features| < 0x100
    ensures MsgValue(features, parts) + rest
         == [0x05] + ([0x01] + (Octets.Put16(|features|) + (features + (SectionsBytes(parts) + rest))))
    ensures |MsgValue(features, parts)| == 4 + |features| + |SectionsBytes(parts)|
  {
    hide Octets.Put16, SectionsBytes;
    Regroup([0x05], [0x01], Octets.Put16(|features|), features, SectionsBytes(parts), rest);
  }

  /** The message block gives back the features and all sections. */
  lemma MessageRead(c: Cursor, length: u16, features: seq<byte>, parts: seq<WholeSection>,
        rest: seq<byte>, args: InArgs)
    requires c.Valid() && |features| < 0x100 && c.Rest() == MsgValue(features, parts) + rest
    requires length == |MsgValue(features, parts)|
    ensures var r := MessageField(length, c, args);
            r.Some? && r.value.0 == Present(WithMessage(args, |features|, features, args.parts + parts))
  {
    hide *;
    Octets.GetPut16(|features|);
    MsgValuePieces(features, parts, rest);
    var a, b := Octets.Put16(|features|), SectionsBytes(parts);
    BlockRead(c, a, features, b, rest, args);
    SectionsParsedAlone(parts, args.parts);
  }

  lemma SectionsParsedAlone(parts: seq<WholeSection>, before: seq<Section>)
    requires |SectionsBytes(parts)| < 0x1_0000
    ensures ParseSections(Cursor(SectionsBytes(parts), 0), before) == before + parts
  {
    hide SectionsBytes;
    var c := Cursor(SectionsBytes(parts), 0);
    assert c.Rest() == SectionsBytes(parts);
    SectionsParsed(c, parts, before);
  }

  lemma IconRead(c: Cursor, out: ImArgs, rest: seq<byte>, args: InArgs)
    requires c.Valid() && c.Rest() == IconValue(out) + rest
    ensures 12 <= c.Room()
    ensures IconField(c, args).0 == WithIcon(out, args)
  {
    var a, b := Octets.Put32(out.iconlen), Octets.Put16(0x0001);
    var d, e := Octets.Put16(Low16(out.iconsum)), Octets.Put32(out.iconstamp % 0x1_0000_0000);
    Octets.GetPut32(out.iconlen);
    Octets.GetPut16(Low16(out.iconsum));
    Octets.GetPut32(out.iconstamp % 0x1_0000_0000);
    hide Octets.Put16, Octets.Get16, Octets.Put32, Octets.Get32;
    assert a + b + d + e + rest == a + (b + (d + (e + rest)));
    ReadsPrefix(c, a, b + (d + (e + rest)));
    var c1 := c.Skip(4);
    ReadsPrefix(c1, b, d + (e + rest));
    var c2 := c1.Skip(2);
    ReadsPrefix(c2, d, e + rest);
    var c3 := c2.Skip(2);
    ReadsPrefix(c3, e, rest);
  }

  // The icon fields as they arrive: the sum in 16 bits, the stamp in 32.
  function WithIcon(out: ImArgs, args: InArgs): InArgs {
    args.(iconlen := out.iconlen, iconsum := Low16(out.iconsum), iconstamp := out.iconstamp % 0x1_0000_0000,
          flags := if out.iconlen != 0 then args.flags + {HASICON} else args.flags)
  }

  ghost predicate Sendable(out: ImArgs) {
    out.Valid() && Check(out) == Acceptable && MsgTlvLen(Features(out), Sections(out)) < 0x1_0000
  }

  // The TLVs aim_send_im_ext emits.
  ghost predicate Emitted(t: Tlv, out: ImArgs)
    requires Sendable(out)
  {
    || (t.typ in {0x0003, 0x0004, 0x0006, 0x0009} && t.value == [])
    || (t.typ == 0x0008 && t.value == IconValue(out))
    || (t.typ == 0x0002 && t.value == MsgValue(Features(out), Sections(out)))
  }

  // What each of them does to the receiver's arguments.
  function Effect(t: Tlv, out: ImArgs, args: InArgs): InArgs
    requires out.Valid() && Check(out) == Acceptable
  {
    if t.typ == 0x0002 then
      Present(WithMessage(args, |Features(out)|, Features(out), args.parts + Sections(out)))
    else if t.typ == 0x0003 then args.(flags := args.flags + {ACK})
    else if t.typ == 0x0004 then args.(flags := args.flags + {AWAY})
    else if t.typ == 0x0006 then args.(flags := args.flags + {OFFLINE})
    else if t.typ == 0x0008 then WithIcon(out, args)
    else args.(flags := args.flags + {BUDDYREQ})
  }

  function Effects(list: seq<Tlv>, out: ImArgs, args: InArgs): InArgs
    requires out.Valid() && Check(out) == Acceptable
  {
    if |list| == 0 then args else Effects(list[1..], out, Effect(list[0], out, args))
  }

  lemma FieldRead(c: Cursor, t: Tlv, out: ImArgs, rest: seq<byte>, args: InArgs)
    requires Sendable(out) && Emitted(t, out)
    requires c.Valid() && c.Rest() == t.value + rest
    ensures var r := Ch1Field(t.typ, |t.value|, c, args);
            r.Some? && r.value.0 == Effect(t, out, args)
  {
    hide MessageField, IconField, Present, WithMessage, WithIcon, IconValue, MsgValue, Features, Sections;
    if t.typ == 0x0002 {
      MessageRead(c, |t.value|, Features(out), Sections(out), rest, args);
    } else if t.typ == 0x0008 {
      IconRead(c, out, rest, args);
    }
  }

  lemma StepRead(c: Cursor, t: Tlv, out: ImArgs, rest: seq<byte>, args: InArgs)
    requires Sendable(out) && Emitted(t, out)
    requires c.Valid() && c.Rest() == Record(t) + rest
    ensures 4 + |t.value| <= c.Room() && c.Skip(4 + |t.value|).Rest() == rest
    ensures Ch1Step(c, args) == Some((Effect(t, out, args), c.Skip(4 + |t.value|)))
  {
    hide Ch1Field, Effect, Emitted, Sendable, Check, Features, Sections, MsgTlvLen, Record, ImArgs.Valid;
    hide Cursor.Skip, Cursor.U16, Cursor.SetPos, Cursor.Rest;
    HeaderRead(c, t, rest);
    FieldRead(c.Skip(2).Skip(2), t, out, rest, args);
  }

  lemma {:induction false} TlvsRead(c: Cursor, list: seq<Tlv>, out: ImArgs, args: InArgs)
    requires Sendable(out) && forall k :: 0 <= k < |list| ==> Emitted(list[k], out)
    requires c.Valid() && c.Rest() == Wire(list)
    ensures Ch1(c, args) == Done(Effects(list, out, args))
    decreases |list|
  {
    assert out.Valid() && Check(out) == Acceptable;
    hide Ch1Step, Effect, Emitted, Sendable, Record;
    if |list| > 0 {
      StepRead(c, list[0], out, Wire(list[1..]), args);
      TlvsRead(c.Skip(4 + |list[0].value|), list[1..], out, Effect(list[0], out, args));
    }
  }

  lemma EffectsAppend(xs: seq<Tlv>, ys: seq<Tlv>, out: ImArgs, args: InArgs)
    requires out.Valid() && Check(out) == Acceptable
    ensures Effects(xs + ys, out, args) == Effects(ys, out, Effects(xs, out, args))
  {
    hide Effect;
    if |xs| == 0 {
      assert xs + ys == ys;
    } else {
      assert (xs + ys)[1..] == xs[1..] + ys;
      EffectsAppend(xs[1..], ys, out, Effect(xs[0], out, args));
    }
  }

  lemma EffectsOne(t: Tlv, out: ImArgs, args: InArgs)
    requires out.Valid() && Check(out) == Acceptable
    ensures Effects([t], out, args) == Effect(t, out, args) && Effects([], out, args) == args
  {
    hide Effect;
    assert [t][1..] == [];
  }

  function Flag(args: InArgs, b: bool, flag: ImFlag): InArgs { args.(flags := args.flags + On(b, flag)) }
  function Iconed(out: ImArgs, args: InArgs): InArgs { if HASICON in out.flags then WithIcon(out, args) else args }

  // What the receiver holds after the options.
  function WithOptions(out: ImArgs, args: InArgs): InArgs {
    var marked := Flag(Flag(Flag(args, ACK in out.flags, ACK), AWAY in out.flags, AWAY), OFFLINE in out.flags, OFFLINE);
    Flag(Iconed(out, marked), BUDDYREQ in out.flags, BUDDYREQ)
  }

  lemma FlaggedRead(present: bool, typ: u16, flag: ImFlag, out: ImArgs, args: InArgs)
    requires out.Valid() && Check(out) == Acceptable
    requires (typ, flag) in {(0x0003, ACK), (0x0004, AWAY), (0x0006, OFFLINE), (0x0009, BUDDYREQ)}
    ensures Effects(One(present, typ, []), out, args) == Flag(args, present, flag)
  {
    EffectsOne(Tlv(typ, []), out, args);
    assert args.flags + {} == args.flags;
  }

  lemma IconedRead(out: ImArgs, args: InArgs)
    requires out.Valid() && Check(out) == Acceptable
    ensures Effects(Icon(out), out, args) == Iconed(out, args)
  {
    EffectsOne(Tlv(0x0008, IconValue(out)), out, args);
  }

  lemma OptionsRead(out: ImArgs, args: InArgs)
    requires out.Valid() && Check(out) == Acceptable
    ensures Effects(OptionTlvs(out), out, args) == WithOptions(out, args)
  {
    hide Effects, Effect, One, Icon, Flag, Iconed;
    var flags := out.flags;
    var a, b := One(ACK in flags, 0x0003, []), One(AWAY in flags, 0x0004, []);
    var c, e := One(OFFLINE in flags, 0x0006, []), One(BUDDYREQ in flags, 0x0009, []);
    var d := Icon(out);
    EffectsAppend(a, b, out, args);
    EffectsAppend(a + b, c, out, args);
    EffectsAppend(a + b + c, d, out, args);
    EffectsAppend(a + b + c + d, e, out, args);
    var args1 := Flag(args, ACK in flags, ACK);
    var args2 := Flag(args1, AWAY in flags, AWAY);
    var args3 := Flag(args2, OFFLINE in flags, OFFLINE);
    FlaggedRead(ACK in flags, 0x0003, ACK, out, args);
    FlaggedRead(AWAY in flags, 0x0004, AWAY, out, args1);
    FlaggedRead(OFFLINE in flags, 0x0006, OFFLINE, out, args2);
    IconedRead(out, args3);
    FlaggedRead(BUDDYREQ in flags, 0x0009, BUDDYREQ, out, Iconed(out, args3));
  }

  lemma ImTlvsEmitted(out: ImArgs)
    requires Sendable(out)
    ensures forall k :: 0 <= k < |ImTlvs(out)| ==> Emitted(ImTlvs(out)[k], out)
  {
    hide IconValue, MsgValue, Features, Sections;
  }

  // The receiver's arguments for a message built from out.
  function Received(out: ImArgs): InArgs
    requires out.Valid() && Check(out) == Acceptable
  {
    WithOptions(out, Present(WithMessage(BLANK, |Features(out)|, Features(out), Sections(out))))
  }

  lemma MessageReceived(c: Cursor, out: ImArgs)
    requires Sendable(out)
    requires c.Valid() && c.Rest() == Wire(ImTlvs(out))
    ensures Ch1(c, BLANK) == Done(Received(out))
  {
    ImTlvsEmitted(out);
    TlvsRead(c, ImTlvs(out), out, BLANK);
    var t := Tlv(0x0002, MsgValue(Features(out), Sections(out)));
    EffectsAppend([t], OptionTlvs(out), out, BLANK);
    EffectsOne(t, out, BLANK);
    assert BLANK.parts + Sections(out) == Sections(out);
    OptionsRead(out, Effect(t, out, BLANK));
  }

  /** Whatever aim_send_im_ext sends, incomingim_ch1 recovers: the features, the sections in
      order, the flags, and the icon, whose flag is set exactly when its length is not zero. */
  lemma ImRoundTrip(c: Cursor, out: ImArgs)
    requires Sendable(out)
    requires c.Valid() && c.Rest() == Wire(ImTlvs(out))
    ensures Ch1(c, BLANK).Done?
    ensures var r, icon := Ch1(c, BLANK).args, HASICON in out.flags;
            && r.features == Features(out) && r.featureslen == |Features(out)|
            && r.parts == Sections(out) && r.extdata == None
            && r.iconlen == (if icon then out.iconlen else 0)
            && r.iconsum == (if icon then Low16(out.iconsum) else 0)
            && r.iconstamp == (if icon then out.iconstamp % 0x1_0000_0000 else 0)
    ensures Ch1(c, BLANK).args.flags
         == ChosenFlags(Best(Sections(out), 0)) + {CUSTOMFEATURES, MULTIPART}
            + (out.flags * {ACK, AWAY, OFFLINE, BUDDYREQ}) + On(HASICON in out.flags && out.iconlen != 0, HASICON)
    ensures var r := Ch1(c, BLANK).args;
            match Best(Sections(out), 0)
            case Some(s) =>
              r.msg == s.data && r.msglen == s.datalen && r.charset == s.charset && r.charsubset == s.charsubset
            case None => r.msg == None && r.msglen == 0 && r.charset == 0xffff && r.charsubset == 0xffff
  {
    assert out.Valid() && Check(out) == Acceptable;
    hide Best, Features, Sections, MsgTlvLen, Ch1, ImTlvs, Sendable, Flag, Iconed, WithIcon;
    hide SectionFlags, On, ChosenFlags;
    MessageReceived(c, out);
    var r0 := Present(WithMessage(BLANK, |Features(out)|, Features(out), Sections(out)));
    OptionFields(out, r0);
    FlagsReceived(out, Best(Sections(out), 0));
  }

  /** The same in the sender's own terms, for a message that is not multipart: the receiver gets
      the text, unless a character set of the caller's own is not one it can read, and learns the
      encoding the sender asked for. */
  lemma SingleRoundTrip(c: Cursor, out: ImArgs)
    requires Sendable(out) && MULTIPART !in out.flags
    requires c.Valid() && c.Rest() == Wire(ImTlvs(out))
    ensures Ch1(c, BLANK).Done?
    ensures var r := Ch1(c, BLANK).args;
            && (r.msg == Some(out.msg.value[..out.msglen]) <==>
                CUSTOMCHARSET in out.flags ==> out.charset in {0x0000, 0x0002, 0x0003})
            && (CUSTOMCHARSET !in out.flags ==>
                 && (UNICODE in r.flags <==> UNICODE in out.flags)
                 && (ISO_8859_1 in r.flags <==> ISO_8859_1 in out.flags && UNICODE !in out.flags))
            && (CUSTOMCHARSET in out.flags ==>
                 && (UNICODE in r.flags <==> out.charset == 0x0002)
                 && (ISO_8859_1 in r.flags <==> out.charset == 0x0003)
                 && (SUBENC_MACINTOSH in r.flags <==>
                     out.charset in {0x0000, 0x0002, 0x0003} && out.charsubset == 0x000b))
            && (ACK in r.flags <==> ACK in out.flags) && (AWAY in r.flags <==> AWAY in out.flags)
            && (OFFLINE in r.flags <==> OFFLINE in out.flags) && (BUDDYREQ in r.flags <==> BUDDYREQ in out.flags)
            && (HASICON in r.flags <==> HASICON in out.flags && out.iconlen != 0)
            && (CUSTOMFEATURES !in out.flags ==> r.features == [1, 1, 1, 2])
            && (CUSTOMFEATURES in out.flags ==> r.features == out.features)
  {
    assert out.Valid() && Check(out) == Acceptable;
    hide Ch1, ImTlvs, Wire, Features, Sections, Best, Check, Sendable, On, ChosenFlags, ImArgs.Valid;
    ImRoundTrip(c, out);
    SingleSection(out);
    FeaturesDecided(out);
    var s, r := Sections(out)[0], Ch1(c, BLANK).args;
    assert Sections(out) == [s];
    BestOfOne(s);
    FlagsTell(r.flags, ChosenFlags(Best([s], 0)), out.flags, HASICON in out.flags && out.iconlen != 0);
  }

  lemma FlagsTell(f: ImFlags, chosen: ImFlags, sent: ImFlags, icon: bool)
    requires chosen <= {CUSTOMCHARSET, UNICODE, ISO_8859_1, SUBENC_MACINTOSH}
    requires f == chosen + {CUSTOMFEATURES, MULTIPART} + (sent * {ACK, AWAY, OFFLINE, BUDDYREQ}) + On(icon, HASICON)
    ensures UNICODE in f <==> UNICODE in chosen
    ensures ISO_8859_1 in f <==> ISO_8859_1 in chosen
    ensures SUBENC_MACINTOSH in f <==> SUBENC_MACINTOSH in chosen
    ensures (ACK in f <==> ACK in sent) && (AWAY in f <==> AWAY in sent)
    ensures (OFFLINE in f <==> OFFLINE in sent) && (BUDDYREQ in f <==> BUDDYREQ in sent)
    ensures HASICON in f <==> icon
  {
  }

  lemma BestOfOne(s: Section)
    ensures Best([s], 0) == if s.charset in {0x0000, 0x0002, 0x0003} then Some(s) else None
    ensures var f := ChosenFlags(Best([s], 0));
            && (UNICODE in f <==> s.charset == 0x0002) && (ISO_8859_1 in f <==> s.charset == 0x0003)
            && (SUBENC_MACINTOSH in f <==> s.charset in {0x0000, 0x0002, 0x0003} && s.charsubset == 0x000b)
            && f <= {CUSTOMCHARSET, UNICODE, ISO_8859_1, SUBENC_MACINTOSH}
  {
    var one := [s];
    FirstOfOne(s, 0x0000);
    FirstOfOne(s, 0x0003);
    FirstOfOne(s, 0x0002);
    hide FirstWith;
    assert Best(one, 3) == None;
    assert Best(one, 2) == FirstWith(one, 0x0002, 0);
    assert Best(one, 1) == if s.charset in {0x0002, 0x0003} then Some(s) else None;
  }

  lemma FirstOfOne(s: Section, charset: u16)
    ensures FirstWith([s], charset, 0) == if s.charset == charset then Some(s) else None
  {
    assert FirstWith([s], charset, 1) == None;
  }

  // ----- On the wire -----

  /** The first bytes of a message: a SNAC of family 4 and subtype 6, the cookie, channel 1, and the
      destination behind its length. */
  lemma EnvelopeLayout(snacid: u32, cookie: seq<byte>, destsn: seq<byte>)
    requires |cookie| == 8 && |destsn| < 0x100
    ensures var e := EnvelopeBytes(snacid, cookie, destsn);
            && |e| == 21 + |destsn|
            && e[..6] == [0x00, 0x04, 0x00, 0x06, 0x00, 0x00] && Octets.Get32(e[6..10]) == snacid
            && e[10..18] == cookie && e[18..20] == [0x00, 0x01] && e[20] == |destsn| && e[21..] == destsn
  {
    Octets.GetPut32(snacid);
    hide Octets.Put32, Octets.Get32;
    var e := EnvelopeBytes(snacid, cookie, destsn);
    var a, b := Octets.Put16(0x0004) + Octets.Put16(0x0006) + Octets.Put16(0x0000), Octets.Put32(snacid);
    assert a == [0x00, 0x04, 0x00, 0x06, 0x00, 0x00];
    assert e == a + b + cookie + [0x00, 0x01] + [|destsn|] + destsn;
    assert e[..6] == a && e[6..10] == b && e[10..18] == cookie && e[21..] == destsn;
  }

  /** The message block begins with 5 and 1, and a section with 1 and 1; then the length of its text
      and 4, its character set and subset, and its text. */
  lemma SectionLayout(s: WholeSection, features: seq<byte>, parts: seq<WholeSection>)
    requires |features| < 0x100
    ensures MsgValue(features, parts)[..4] == [0x05, 0x01, 0x00, |features|]
    ensures MsgValue(features, parts)[4..][..|features|] == features
    ensures var w := SectionBytes(s);
            && |w| == 8 + |s.data.value| && w[..2] == [0x01, 0x01] && w[8..] == s.data.value
            && (s.datalen <= 0xfffb ==> w[2] as int * 0x100 + w[3] == s.datalen + 4)
            && w[4] as int * 0x100 + w[5] == s.charset && w[6] as int * 0x100 + w[7] == s.charsubset
  {
    hide SectionsBytes;
    var m := MsgValue(features, parts);
    assert m == [0x05, 0x01, 0x00, |features|] + (features + SectionsBytes(parts));
    assert m[4..] == features + SectionsBytes(parts);
  }

  /** The icon record: length, the number 1, checksum and time stamp. */
  lemma IconLayout(args: ImArgs)
    ensures var v := IconValue(args);
            && |v| == 12 && Octets.Get32(v[..4]) == args.iconlen && v[4..6] == [0x00, 0x01]
            && Octets.Get16(v[6..8]) == args.iconsum % 0x1_0000
            && Octets.Get32(v[8..]) == args.iconstamp % 0x1_0000_0000
  {
    Octets.GetPut32(args.iconlen);
    Octets.GetPut16(Low16(args.iconsum));
    Octets.GetPut32(args.iconstamp % 0x1_0000_0000);
    hide Octets.Get16, Octets.Get32, Octets.Put32;
    var v := IconValue(args);
    assert v[..4] == Octets.Put32(args.iconlen) && v[4..6] == Octets.Put16(0x0001);
    assert v[6..8] == Octets.Put16(Low16(args.iconsum)) && v[8..] == Octets.Put32(args.iconstamp % 0x1_0000_0000);
  }

  /** Behind the message block the chain says what was asked for, each under its own type. */
  lemma OptionTypes(out: ImArgs, typ: u16)
    ensures Has(OptionTlvs(out), typ) <==>
              (|| (typ == 0x0003 && ACK in out.flags) || (typ == 0x0004 && AWAY in out.flags)
               || (typ == 0x0006 && OFFLINE in out.flags) || (typ == 0x0008 && HASICON in out.flags)
               || (typ == 0x0009 && BUDDYREQ in out.flags))
  {
    hide One, Icon, IconValue;
    var flags := out.flags;
    var a, b := One(ACK in flags, 0x0003, []), One(AWAY in flags, 0x0004, []);
    var c, d, e := One(OFFLINE in flags, 0x0006, []), Icon(out), One(BUDDYREQ in flags, 0x0009, []);
    HasOne(ACK in flags, 0x0003, [], typ);
    HasOne(AWAY in flags, 0x0004, [], typ);
    HasOne(OFFLINE in flags, 0x0006, [], typ);
    HasIcon(out, typ);
    HasOne(BUDDYREQ in flags, 0x0009, [], typ);
    HasAppend(a, b, typ);
    HasAppend(a + b, c, typ);
    HasAppend(a + b + c, d, typ);
    HasAppend(a + b + c + d, e, typ);
  }

  /** They stand there in the order of their types. */
  lemma OptionsRise(out: ImArgs)
    ensures Rising(OptionTlvs(out), 0x000a)
  {
    hide One, Rising, IconValue;
    var flags, none := out.flags, [];
    assert Rising(none, 0x0003) by {
      NoneRise(0x0003);
    }
    RisingOne(none, ACK in flags, 0x0003, []);
    var a := none + One(ACK in flags, 0x0003, []);
    assert a == One(ACK in flags, 0x0003, []);
    RisingOne(a, AWAY in flags, 0x0004, []);
    var b := a + One(AWAY in flags, 0x0004, []);
    RisingMore(b, 0x0005, 0x0006);
    RisingOne(b, OFFLINE in flags, 0x0006, []);
    var c := b + One(OFFLINE in flags, 0x0006, []);
    RisingMore(c, 0x0007, 0x0008);
    RisingOne(c, HASICON in flags, 0x0008, IconValue(out));
    IconIsOne(out);
    RisingOne(c + Icon(out), BUDDYREQ in flags, 0x0009, []);
  }

  lemma IconIsOne(out: ImArgs)
    ensures Icon(out) == One(HASICON in out.flags, 0x0008, IconValue(out))
  {
  }

  lemma HasIcon(out: ImArgs, typ: u16)
    ensures Has(Icon(out), typ) <==> HASICON in out.flags && typ == 0x0008
  {
    hide IconValue;
    assert HASICON in out.flags ==> Tlv(0x0008, IconValue(out)) in Icon(out);
  }

  /** What the receiver makes of a record that is no message block and no icon. */
  lemma RecordRead(c: Cursor, t: Tlv, rest: seq<byte>, args: InArgs)
    requires c.Valid() && c.Rest() == Record(t) + rest && t.typ !in {0x0002, 0x0008}
    ensures Ch1Step(c, args).Some? && Ch1Step(c, args).value.1 == c.Skip(4 + |t.value|)
    ensures var r := Ch1Step(c, args).value.0;
            && (t.typ == 0x0003 ==> r == args.(flags := args.flags + {ACK}))
            && (t.typ == 0x0004 ==> r == args.(flags := args.flags + {AWAY}))
            && (t.typ == 0x0006 ==> r == args.(flags := args.flags + {OFFLINE}))
            && (t.typ == 0x0009 ==> r == args.(flags := args.flags + {BUDDYREQ}))
            && (t.typ == 0x0017 ==>
                 var n := |t.value| % 0x100; r == args.(extdatalen := n, extdata := Some(t.value[..n])))
            && (t.typ !in {0x0003, 0x0004, 0x0006, 0x0009, 0x0017} ==> r == args)
  {
    HeaderRead(c, t, rest);
    var e, n := c.Skip(2).Skip(2), Low8(|t.value|);
    assert n <= |t.value|;
    assert e.Rest()[..n] == t.value[..n];
    hide MessageField, IconField, Record, Cursor.U16, Cursor.Rest, Cursor.Skip;
  }

  function ChosenFlags(s: Option<Section>): ImFlags {
    if s.Some? then SectionFlags({}, s.value) else {}
  }

  function IconFlag(out: ImArgs): ImFlags { On(HASICON in out.flags && out.iconlen != 0, HASICON) }

  // The options touch nothing but their own flags and the icon.
  lemma OptionFields(out: ImArgs, args: InArgs)
    ensures var r, icon := WithOptions(out, args), HASICON in out.flags;
            r == args.(iconlen := if icon then out.iconlen else args.iconlen,
                       iconsum := if icon then Low16(out.iconsum) else args.iconsum,
                       iconstamp := if icon then out.iconstamp % 0x1_0000_0000 else args.iconstamp,
                       flags := args.flags + On(ACK in out.flags, ACK) + On(AWAY in out.flags, AWAY)
                                + On(OFFLINE in out.flags, OFFLINE) + IconFlag(out)
                                + On(BUDDYREQ in out.flags, BUDDYREQ))
  {
    var marked := Flag(Flag(Flag(args, ACK in out.flags, ACK), AWAY in out.flags, AWAY), OFFLINE in out.flags, OFFLINE);
    assert Iconed(out, marked).flags == marked.flags + IconFlag(out);
  }

  lemma FlagsReceived(out: ImArgs, best: Option<Section>)
    ensures (if best.Some? then SectionFlags({} + {CUSTOMFEATURES} + {MULTIPART}, best.value)
             else {} + {CUSTOMFEATURES} + {MULTIPART})
            + On(ACK in out.flags, ACK) + On(AWAY in out.flags, AWAY) + On(OFFLINE in out.flags, OFFLINE)
            + IconFlag(out) + On(BUDDYREQ in out.flags, BUDDYREQ)
         == ChosenFlags(best) + {CUSTOMFEATURES, MULTIPART}
            + (out.flags * {ACK, AWAY, OFFLINE, BUDDYREQ}) + IconFlag(out)
  {
    OptionFlags(out.flags);
    SectionOnly(best);
    hide On, SectionFlags, ChosenFlags, IconFlag;
  }

  lemma OptionFlags(flags: ImFlags)
    ensures On(ACK in flags, ACK) + On(AWAY in flags, AWAY) + On(OFFLINE in flags, OFFLINE)
            + On(BUDDYREQ in flags, BUDDYREQ) == flags * {ACK, AWAY, OFFLINE, BUDDYREQ}
  {
  }

  lemma SectionOnly(best: Option<Section>)
    ensures (if best.Some? then SectionFlags({} + {CUSTOMFEATURES} + {MULTIPART}, best.value)
             else {} + {CUSTOMFEATURES} + {MULTIPART}) == ChosenFlags(best) + {CUSTOMFEATURES, MULTIPART}
  {
  }

  /** The chosen section is the first one of its character set, and no section has a character
      set of a higher priority; there is none exactly when no section is readable. */
  lemma BestIsFirst(parts: seq<Section>)
    ensures Best(parts, 0).None? <==> forall i :: 0 <= i < |parts| ==> parts[i].charset !in CHARSET_PRIORITY
    ensures Best(parts, 0).Some? ==>
              exists i: nat, k: nat ::
                && i < |parts| && k < 3 && Best(parts, 0).value == parts[i] && parts[i].charset == CHARSET_PRIORITY[k]
                && (forall j :: 0 <= j < i ==> parts[j].charset != CHARSET_PRIORITY[k])
                && (forall j, l :: 0 <= j < |parts| && 0 <= l < k ==> parts[j].charset != CHARSET_PRIORITY[l])
  {
    FirstWithIs(parts, 0x0000, 0);
    FirstWithIs(parts, 0x0003, 0);
    FirstWithIs(parts, 0x0002, 0);
    assert Best(parts, 3) == None;
    assert Best(parts, 2) == FirstWith(parts, 0x0002, 0);
  }

  /** ASCII text is chosen before ISO-8859-1, and that before Unicode. */
  lemma BestCharset(parts: seq<Section>)
    ensures var b := Best(parts, 0);
            && (b.Some? && b.value.charset == 0x0000 <==> exists s :: s in parts && s.charset == 0x0000)
            && (b.Some? && b.value.charset == 0x0003 <==>
                  (forall s :: s in parts ==> s.charset != 0x0000) && exists s :: s in parts && s.charset == 0x0003)
            && (b.Some? && b.value.charset == 0x0002 <==>
                  (forall s :: s in parts ==> s.charset !in {0x0000, 0x0003})
                  && exists s :: s in parts && s.charset == 0x0002)
            && (b.Some? ==> b.value in parts && b.value.charset in {0x0000, 0x0002, 0x0003})
  {
    FirstWithIs(parts, 0x0000, 0);
    FirstWithIs(parts, 0x0003, 0);
    FirstWithIs(parts, 0x0002, 0);
    hide FirstWith;
    assert Best(parts, 3) == None;
    assert Best(parts, 2) == FirstWith(parts, 0x0002, 0);
  }

  lemma {:induction false} FirstWithIs(parts: seq<Section>, charset: u16, from: nat)
    requires from <= |parts|
    ensures FirstWith(parts, charset, from).None? <==> forall j :: from <= j < |parts| ==> parts[j].charset != charset
    ensures FirstWith(parts, charset, from).Some? ==>
              exists i ::
                from <= i < |parts| && parts[i].charset == charset
                && FirstWith(parts, charset, from) == Some(parts[i])
                          && forall j :: from <= j < i ==> parts[j].charset != charset
    decreases |parts| - from
  {
    if from < |parts| && parts[from].charset != charset {
      FirstWithIs(parts, charset, from + 1);
    }
  }
}
