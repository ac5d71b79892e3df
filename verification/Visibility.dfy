/**
  The permit and deny lists of src/bos.c: a list of names separated by '&' becomes a SNAC of
  counted strings.
*/
module Visibility {
  import opened Octets
  import opened ByteStream
  import Snacs
  import opened Tokenizer

  const AMPERSAND: byte := '&' as int

  datatype Change = PermitAdd | PermitRemove | DenyAdd | DenyRemove | Unknown

  function Subtype(change: Change): u16
    requires !change.Unknown?
  {
    match change
    case PermitAdd => 0x05
    case PermitRemove => 0x06
    case DenyAdd => 0x07
    case DenyRemove => 0x08
  }

  // The loop sends all tokens but the last, and at most 99.
  function Sent(list: seq<byte>): (ts: seq<seq<byte>>) {
    var ts := Split(list, AMPERSAND);
    ts[..if |ts| - 1 < 99 then |ts| - 1 else 99]
  }

  // Two puts for each token; the length goes into one byte.
  function ItemChunks(ts: seq<seq<byte>>): seq<seq<byte>> {
    if |ts| == 0 then [] else ItemChunks(ts[..|ts| - 1]) + [[Low8(|ts[|ts| - 1]|)], ts[|ts| - 1]]
  }

  function PacketChunks(change: Change, list: seq<byte>, snacid: u32): seq<seq<byte>>
    requires !change.Unknown?
  {
    Snacs.SnacChunks(0x0009, Subtype(change), 0x0000, snacid) + ItemChunks(Sent(list))
  }

  // The length the packet is allocated with.
  function PackLength(list: seq<byte>): nat {
    var ts := Split(list, AMPERSAND);
    Total(ts[..Measured(ts, 99)]) + |ts| + 9
  }

  // The loop over the tokens.
  method PutItems(fr: Bstream, list: seq<byte>, listcount: nat)
    requires fr.Valid() && listcount == |Split(list, AMPERSAND)|
    modifies fr`offset, fr.data
    ensures fr.Valid() && fr.View() == PutAll(old(fr.View()), ItemChunks(Sent(list)))
  {
    hide PutAll, ItemChunks, Cursor.Put, Tokens, Split;
    ghost var c, ts := fr.View(), Split(list, AMPERSAND);
    NoPuts(c);
    NoItems();
    assert ts[..0] == [];
    var i := 0;
    while i < listcount - 1 && i < 99
      invariant 0 <= i <= listcount - 1 && i <= 99
      invariant fr.Valid() && fr.data == old(fr.data)
      invariant fr.View() == PutAll(c, ItemChunks(ts[..i]))
    {
      var tmpptr := ItemAt(list, i, AMPERSAND);
      ItemNext(c, ts, i);
      var n := fr.Put8(Low8(|tmpptr|));
      n := fr.PutRaw(tmpptr);
      i := i + 1;
    }
    assert ts[..i] == Sent(list);
  }

  // aim_bos_changevisibility up to aim_tx_enqueue: the frame, or none for an unknown change. A
  // new frame's buffer holds whatever was in that memory.
  method ChangeVisibility(change: Change, denylist: seq<byte>, snacid: u32)
    returns (fr: Bstream?, ghost start: Cursor)
    ensures fr == null <==> change.Unknown?
    ensures fr != null ==>
              && start.Valid() && start.pos == 0 && |start.buf| == Low16(PackLength(denylist))
              && fr.Valid() && fr.View() == PutAll(start, PacketChunks(change, denylist, snacid))
  {
    start := Cursor([], 0);
    if change.Unknown? {
      return null, start;
    }
    hide PutAll, Snacs.SnacChunks, ItemChunks, Split, Sent;
    var listcount := ItemCount(denylist, AMPERSAND);
    var packlen := TokensLength(denylist, 99, AMPERSAND);
    packlen := packlen + listcount + 9;
    var data := new byte[packlen];
    fr := new Bstream(data, packlen);
    start := fr.View();
    var n := Snacs.PutSnac(fr, 0x0009, Subtype(change), 0x0000, snacid);
    PutItems(fr, denylist, listcount);
    PutAllAppend(start, Snacs.SnacChunks(0x0009, Subtype(change), 0x0000, snacid), ItemChunks(Sent(denylist)));
  }

  lemma NoItems()
    ensures ItemChunks([]) == []
  {
  }

  lemma ItemNext(d: Cursor, ts: seq<seq<byte>>, i: nat)
    requires d.Valid() && i < |ts|
    ensures PutAll(d, ItemChunks(ts[..i + 1])) == PutAll(d, ItemChunks(ts[..i])).Put([Low8(|ts[i]|)]).Put(ts[i])
  {
    var items := ItemChunks(ts[..i]);
    assert ts[..i + 1][..i] == ts[..i];
    assert ItemChunks(ts[..i + 1]) == items + [[Low8(|ts[i]|)]] + [ts[i]];
    PutAllNext(d, items, [Low8(|ts[i]|)]);
    PutAllNext(d, items + [[Low8(|ts[i]|)]], ts[i]);
  }

  // ----- The size of the packet -----

  // A counted string; the length goes into one byte.
  function Item(t: seq<byte>): seq<byte> {
    [Low8(|t|)] + t
  }

  // The bytes of the items.
  function Items(ts: seq<seq<byte>>): seq<byte> {
    if |ts| == 0 then [] else Item(ts[0]) + Items(ts[1..])
  }

  lemma {:induction false} ItemsAppend(xs: seq<seq<byte>>, ys: seq<seq<byte>>)
    ensures Items(xs + ys) == Items(xs) + Items(ys)
  {
    hide Item;
    if |xs| == 0 {
      assert xs + ys == ys;
    } else {
      ItemsAppend(xs[1..], ys);
      assert (xs + ys)[1..] == xs[1..] + ys && (xs + ys)[0] == xs[0];
      var head, a, b := Item(xs[0]), Items(xs[1..]), Items(ys);
      assert head + (a + b) == head + a + b;
    }
  }

  lemma {:induction false} ItemsFlatten(ts: seq<seq<byte>>)
    ensures Flatten(ItemChunks(ts)) == Items(ts)
  {
    if |ts| > 0 {
      var n := |ts| - 1;
      ItemsFlatten(ts[..n]);
      LastItem(ts);
      TwoMore(ItemChunks(ts[..n]), [Low8(|ts[n]|)], ts[n]);
      hide Flatten, Items;
    }
  }

  lemma LastItem(ts: seq<seq<byte>>)
    requires |ts| > 0
    ensures Items(ts) == Items(ts[..|ts| - 1]) + Item(ts[|ts| - 1])
  {
    hide *;
    var n := |ts| - 1;
    assert ts == ts[..n] + [ts[n]];
    ItemsAppend(ts[..n], [ts[n]]);
    OneItem(ts[n]);
  }

  lemma OneItem(t: seq<byte>)
    ensures Items([t]) == Item(t)
  {
    hide Item;
    var one := [t];
    assert one[1..] == [];
    assert Item(t) + [] == Item(t);
  }

  lemma TwoMore(chunks: seq<seq<byte>>, s: seq<byte>, t: seq<byte>)
    ensures Flatten(chunks + [s, t]) == Flatten(chunks) + (s + t)
  {
    FlattenSnoc(chunks, s);
    FlattenSnoc(chunks + [s], t);
    hide Flatten;
    assert chunks + [s] + [t] == chunks + [s, t];
    assert Flatten(chunks) + s + t == Flatten(chunks) + (s + t);
  }

  lemma {:induction false} ItemsLength(ts: seq<seq<byte>>)
    ensures |Items(ts)| == Total(ts) + |ts|
  {
    if |ts| > 0 {
      ItemsLength(ts[1..]);
    }
  }

  // The length asked for covers the header and every token sent.
  lemma PackLengthSuffices(list: seq<byte>)
    ensures 10 + |Items(Sent(list))| <= PackLength(list)
  {
    var ts := Split(list, AMPERSAND);
    var k, m := |Sent(list)|, Measured(ts, 99);
    ItemsLength(Sent(list));
    assert ts[..m] == Sent(list) + ts[k..m];
    TotalAppend(Sent(list), ts[k..m]);
  }

  /** No put is dropped exactly when the items fit the length that is left in 16 bits, so
      never when the packet is under 65536 bytes. */
  lemma PacketFits(c: Cursor, change: Change, list: seq<byte>, snacid: u32)
    requires c.Valid() && c.pos == 0 && |c.buf| == Low16(PackLength(list)) && !change.Unknown?
    ensures NothingDropped(c, PacketChunks(change, list, snacid)) <==> 10 + |Items(Sent(list))| <= |c.buf|
    ensures PackLength(list) < 0x1_0000 ==> NothingDropped(c, PacketChunks(change, list, snacid))
    ensures NothingDropped(c, PacketChunks(change, list, snacid)) ==>
              PutAll(c, PacketChunks(change, list, snacid)).Written()
              == Octets.Put16(0x0009) + Octets.Put16(Subtype(change)) + Octets.Put16(0x0000) + Octets.Put32(snacid)
                 + Items(Sent(list))
  {
    var chunks := PacketChunks(change, list, snacid);
    var head := Snacs.SnacChunks(0x0009, Subtype(change), 0x0000, snacid);
    Snacs.SnacFlatten(0x0009, Subtype(change), 0x0000, snacid);
    hide Octets.Put16, Octets.Put32, Snacs.SnacChunks, Sent, PackLength;
    FlattenAppend(head, ItemChunks(Sent(list)));
    ItemsFlatten(Sent(list));
    PackLengthSuffices(list);
    PutAllFits(c, chunks);
    if NothingDropped(c, chunks) {
      PutWritten(c, Flatten(chunks));
      assert c.Written() == [];
    }
  }

  // ----- What the server reads -----

  // Counted strings up to the end; none when the last one is cut short.
  function Decode(s: seq<byte>): Option<seq<seq<byte>>>
    decreases |s|
  {
    if |s| == 0 then Some([])
    else if |s| - 1 < s[0] then None
    else
      match Decode(s[1 + s[0]..])
      case None => None
      case Some(ts) => Some([s[1..1 + s[0]]] + ts)
  }

  lemma DecodeOne(t: seq<byte>, rest: seq<byte>)
    ensures var s := [Low8(|t|)] + t + rest;
            |t| <= 255 ==> Decode(s) == match Decode(rest) case None => None case Some(ts) => Some([t] + ts)
    ensures var s := [Low8(|t|)] + t + rest;
            |t| > 255 ==> Decode(s).Some? ==> |Decode(s).value| > 0 && |Decode(s).value[0]| < |t|
  {
    var s := [Low8(|t|)] + t + rest;
    assert s[0] == Low8(|t|);
    if |t| <= 255 {
      assert s[1..1 + |t|] == t && s[1 + |t|..] == rest;
    }
  }

  // The items decode to the tokens exactly when each length fits its byte.
  lemma {:induction false} DecodeItems(ts: seq<seq<byte>>)
    ensures Decode(Items(ts)) == Some(ts) <==> forall i :: 0 <= i < |ts| ==> |ts[i]| <= 255
  {
    if |ts| > 0 {
      assert Items(ts) == [Low8(|ts[0]|)] + ts[0] + Items(ts[1..]) by {
        hide Low8;
      }
      DecodeOne(ts[0], Items(ts[1..]));
      DecodeItems(ts[1..]);
      hide Decode, Items;
      Counted(ts);
      assert ts == [ts[0]] + ts[1..];
      match Decode(Items(ts[1..]))
      case None =>
      case Some(us) => assert ([ts[0]] + us)[1..] == us;
    }
  }

  lemma Counted(ts: seq<seq<byte>>)
    requires |ts| > 0
    ensures (forall i :: 0 <= i < |ts| ==> |ts[i]| <= 255) <==>
              (|ts[0]| <= 255 && forall i :: 0 <= i < |ts[1..]| ==> |ts[1..][i]| <= 255)
  {
    var tail := ts[1..];
    if forall i :: 0 <= i < |tail| ==> |tail[i]| <= 255 {
      assert forall i :: 0 < i < |ts| ==> ts[i] == tail[i - 1];
    } else {
      var i :| 0 <= i < |tail| && |tail[i]| > 255;
      assert ts[i + 1] == tail[i];
    }
  }

  // The tokens put into a packet that fits are the ones the server gets.
  lemma VisibilityRoundTrip(c: Cursor, change: Change, list: seq<byte>, snacid: u32)
    requires c.Valid() && c.pos == 0 && |c.buf| == Low16(PackLength(list)) && !change.Unknown?
    requires 10 + |Items(Sent(list))| <= |c.buf|
    ensures var w := PutAll(c, PacketChunks(change, list, snacid)).Written();
            && |w| >= 10
            && (Decode(w[10..]) == Some(Sent(list)) <==>
                   forall i :: 0 <= i < |Sent(list)| ==> |Sent(list)[i]| <= 255)
  {
    PacketFits(c, change, list, snacid);
    DecodeItems(Sent(list));
    hide PackLength, Sent, PacketChunks, PutAll, Decode;
    var w := PutAll(c, PacketChunks(change, list, snacid)).Written();
    var head := Octets.Put16(0x0009) + Octets.Put16(Subtype(change)) + Octets.Put16(0x0000) + Octets.Put32(snacid);
    assert w == head + Items(Sent(list)) && |head| == 10;
    assert w[10..] == Items(Sent(list));
  }

  /** The bytes by which the server tells the four changes apart: family 9, and the subtypes 5 and 6
      for the permit list and 7 and 8 for the deny list, first adding and then removing. */
  lemma ChangeRead(c: Cursor, change: Change, list: seq<byte>, snacid: u32)
    requires c.Valid() && c.pos == 0 && |c.buf| == Low16(PackLength(list)) && !change.Unknown?
    requires 10 + |Items(Sent(list))| <= |c.buf|
    ensures var w := PutAll(c, PacketChunks(change, list, snacid)).Written();
            && |w| >= 6 && w[..3] == [0, 9, 0] && w[4..6] == [0, 0]
            && (change == PermitAdd <==> w[3] == 5) && (change == PermitRemove <==> w[3] == 6)
            && (change == DenyAdd <==> w[3] == 7) && (change == DenyRemove <==> w[3] == 8)
  {
    PacketFits(c, change, list, snacid);
    hide PackLength, Sent, PacketChunks, PutAll, Items, Octets.Put32;
    var w := PutAll(c, PacketChunks(change, list, snacid)).Written();
    var head := Octets.Put16(0x0009) + Octets.Put16(Subtype(change)) + Octets.Put16(0x0000);
    assert head == [0, 9, 0, Subtype(change), 0, 0];
    assert w == head + (Octets.Put32(snacid) + Items(Sent(list)));
  }

  // A list in the documented form, each name followed by '&', arrives whole up to 99 names.
  lemma DocumentedForm(names: seq<seq<byte>>)
    requires Tokenizer.Clean(names, AMPERSAND)
    ensures Sent(Join(names + [[]], AMPERSAND)) == names[..if |names| < 99 then |names| else 99]
  {
    SplitJoin(Join(names + [[]], AMPERSAND), names + [[]], AMPERSAND);
  }
}
