/**
  FLAP framing: sendframe_flap with the send loop of src/txqueue.c, and aim_get_command with
  the receive loop of src/rxqueue.c. A socket takes and gives any number of bytes at a time.
*/
module Flap {
  import opened Octets
  import opened ByteStream

  // ----- Sockets -----

  // What the system call answers when asked for n bytes: a script says how many bytes it takes,
  // 0 or an error (-1); beyond the script it takes all of them.
  function Answer(script: seq<int>, n: nat): (a: int)
    ensures -1 <= a <= n
  {
    if |script| == 0 then n else if script[0] < 0 then -1 else if script[0] < n then script[0] else n
  }

  function Later(script: seq<int>): seq<int> {
    if |script| == 0 then [] else script[1..]
  }

  // Every call moves at least one byte.
  ghost predicate Steady(script: seq<int>) {
    forall i :: 0 <= i < |script| ==> script[i] > 0
  }

  class Socket {
    var script: seq<int>
    var sent: seq<byte>
    var incoming: seq<byte>

    constructor (script: seq<int>, incoming: seq<byte>)
      ensures this.script == script && sent == [] && this.incoming == incoming
    {
      this.script, this.sent, this.incoming := script, [], incoming;
    }

    method Send(buf: seq<byte>) returns (ret: int)
      modifies this
      ensures ret == Answer(old(script), |buf|) && script == Later(old(script))
      ensures sent == old(sent) + buf[..if ret < 0 then 0 else ret] && incoming == old(incoming)
    {
      ret := Answer(script, |buf|);
      script := Later(script);
      sent := sent + buf[..if ret < 0 then 0 else ret];
    }

    // An exhausted stream answers 0, the end of the file.
    method Recv(count: nat) returns (ret: int, got: seq<byte>)
      modifies this
      ensures ret == Answer(old(script), Least(count, |old(incoming)|)) && script == Later(old(script))
      ensures got == old(incoming)[..if ret < 0 then 0 else ret]
      ensures incoming == old(incoming)[if ret < 0 then 0 else ret..] && sent == old(sent)
    {
      ret := Answer(script, Least(count, |incoming|));
      script := Later(script);
      got := incoming[..if ret < 0 then 0 else ret];
      incoming := incoming[if ret < 0 then 0 else ret..];
    }
  }

  function Least(a: nat, b: nat): nat {
    if a < b then a else b
  }

  // ----- aim_send and aim_recv -----

  datatype Moved = Moved(ret: int, count: nat, script: seq<int>)

  // What aim_send returns for left bytes, how many of them it got rid of, and the script left.
  function Sending(script: seq<int>, left: nat): (m: Moved)
    ensures m.count <= left && m.ret >= -1
  {
    if left == 0 then Moved(0, 0, script)
    else
      var a := Answer(script, left);
      if a <= 0 then Moved(a, 0, Later(script))
      else
        var m := Sending(Later(script), left - a);
        Moved(if m.ret == -1 then -1 else a + m.ret, a + m.count, m.script)
  }

  lemma {:induction false} SendingIs(script: seq<int>, left: nat)
    ensures var m := Sending(script, left);
            && (m.ret == -1 || m.ret == m.count)
            && (m.ret == left <==> m.count == left)
            && (Steady(script) ==> m.count == left && Steady(m.script))
    decreases left
  {
    if left > 0 && Answer(script, left) > 0 {
      SendingIs(Later(script), left - Answer(script, left));
    }
  }

  method AimSend(fd: Socket, buf: seq<byte>) returns (ret: int)
    modifies fd
    ensures var m := Sending(old(fd.script), |buf|);
            ret == m.ret && fd.sent == old(fd.sent) + buf[..m.count] && fd.script == m.script
    ensures fd.incoming == old(fd.incoming)
  {
    var cur, left := 0, |buf|;
    ghost var m := Sending(fd.script, |buf|);
    while left != 0
      invariant cur >= 0 && left >= 0 && cur + left == |buf|
      invariant fd.sent == old(fd.sent) + buf[..cur] && fd.incoming == old(fd.incoming)
      invariant var n := Sending(fd.script, left);
                m == Moved(if n.ret == -1 then -1 else cur + n.ret, cur + n.count, n.script)
    {
      ret := fd.Send(buf[cur..]);
      if ret == -1 {
        return -1;
      } else if ret == 0 {
        return cur;
      }
      assert buf[..cur] + buf[cur..][..ret] == buf[..cur + ret];
      cur := cur + ret;
      left := left - ret;
    }
    ret := cur;
  }

  // What aim_recv finds: whether count bytes came, the stream behind them and the script left.
  datatype Received = Failed | Got(incoming: seq<byte>, script: seq<int>)

  function Receiving(script: seq<int>, incoming: seq<byte>, left: nat): Received
    decreases left
  {
    if left == 0 then Got(incoming, script)
    else
      var a := Answer(script, Least(left, |incoming|));
      if a <= 0 then Failed else Receiving(Later(script), incoming[a..], left - a)
  }

  // What came is the front of the stream, however it was cut up.
  lemma {:induction false} ReceivingIs(script: seq<int>, incoming: seq<byte>, left: nat)
    ensures var r := Receiving(script, incoming, left);
            && (r.Got? ==> left <= |incoming| && r.incoming == incoming[left..])
            && (Steady(script) ==> (r.Got? <==> left <= |incoming|))
            && (r.Got? && Steady(script) ==> Steady(r.script))
    decreases left
  {
    var a := Answer(script, Least(left, |incoming|));
    if left > 0 && a > 0 {
      ReceivingIs(Later(script), incoming[a..], left - a);
    }
  }

  method AimRecv(fd: Socket, count: nat) returns (ret: int, buf: seq<byte>)
    modifies fd
    ensures fd.sent == old(fd.sent)
    ensures var r := Receiving(old(fd.script), old(fd.incoming), count);
            && ret == (if r.Failed? then -1 else count)
            && (r.Got? ==>
                 && count <= |old(fd.incoming)| && buf == old(fd.incoming)[..count]
                 && fd.incoming == r.incoming && fd.script == r.script)
  {
    var cur, left := 0, count;
    buf := [];
    while left != 0
      invariant cur >= 0 && left >= 0 && cur + left == count && fd.sent == old(fd.sent)
      invariant cur <= |old(fd.incoming)|
      invariant buf == old(fd.incoming)[..cur] && fd.incoming == old(fd.incoming)[cur..]
      invariant Receiving(old(fd.script), old(fd.incoming), count) == Receiving(fd.script, fd.incoming, left)
    {
      var got;
      ret, got := fd.Recv(left);
      if ret <= 0 {
        return -1, buf;
      }
      buf := buf + got;
      cur := cur + ret;
      left := left - ret;
    }
    ret := cur;
  }

  // ----- Sending a frame -----

  datatype Frame = Frame(typ: byte, seqnum: u16, payload: Short)

  function Header(f: Frame): (s: seq<byte>)
    ensures |s| == 6
  {
    [0x2a, f.typ] + Octets.Put16(f.seqnum) + Octets.Put16(|f.payload|)
  }

  // The longest payload that leaves room for the header in a 16-bit length.
  const MAX_PAYLOAD := 65529

  // How much of the header gets into a stream whose length has wrapped around to n.
  function Cut(n: nat): (k: nat)
    requires n < 6
    ensures k <= n
  {
    if n == 3 then 2 else if n == 5 then 4 else n
  }

  // What sendframe_flap hands to the socket.
  function Wire(f: Frame): seq<byte> {
    if |f.payload| <= MAX_PAYLOAD then Header(f) + f.payload else Header(f)[..Cut(|f.payload| - MAX_PAYLOAD - 1)]
  }

  // The puts of sendframe_flap, one after the other.
  function FramePut(c: Cursor, f: Frame): (d: Cursor)
    requires c.Valid()
    ensures d.Valid()
  {
    c.Put([0x2a]).Put([f.typ]).Put(Octets.Put16(f.seqnum)).Put(Octets.Put16(|f.payload|)).Put(f.payload)
  }

  lemma FramePutIs(c: Cursor, f: Frame)
    requires c.Valid() && c.pos == 0 && |c.buf| == Low16(6 + |f.payload|)
    ensures FramePut(c, f).Written() == Wire(f)
  {
    assert c.Written() == [];
    if |f.payload| <= MAX_PAYLOAD {
      PutFive(c, [0x2a], [f.typ], Octets.Put16(f.seqnum), Octets.Put16(|f.payload|), f.payload);
      PutWritten(c, [0x2a] + [f.typ] + Octets.Put16(f.seqnum) + Octets.Put16(|f.payload|) + f.payload);
    } else {
      FrameTruncated(c, f);
    }
  }

  lemma FrameTruncated(c: Cursor, f: Frame)
    requires c.Valid() && c.pos == 0 && |c.buf| == |f.payload| - MAX_PAYLOAD - 1
    ensures FramePut(c, f).Written() == Header(f)[..Cut(|c.buf|)]
  {
    hide Octets.Put16;
    var n := |c.buf|;
    var d := c.Put([0x2a]);
    var e := d.Put([f.typ]);
    var g := e.Put(Octets.Put16(f.seqnum));
    assert d.pos == (if n >= 1 then 1 else 0) && d.Written() == [0x2a][..d.pos];
    assert e.pos == (if n >= 2 then 2 else n) && e.Written() == [0x2a, f.typ][..e.pos];
    assert g.pos == Cut(n) && g.Written() == Header(f)[..g.pos];
    assert FramePut(c, f) == g;
  }

  // aim_bstream_send: no more than what is left in the stream.
  method BstreamSend(bs: Bstream, fd: Socket, count: nat) returns (wrote: int)
    requires bs.Valid()
    modifies fd
    ensures var s := bs.View().Peek(count);
            var m := Sending(old(fd.script), |s|);
            && wrote == m.ret && fd.sent == old(fd.sent) + s[..m.count] && fd.script == m.script
    ensures fd.incoming == old(fd.incoming)
  {
    var room := bs.Empty();
    var n := if count > room then room else count;
    wrote := 0;
    var s := bs.Peek(n);
    if n != 0 {
      wrote := AimSend(fd, s);
    } else {
      assert old(fd.sent) + [] == old(fd.sent);
    }
  }

  // The stream built for a frame.
  method BuildFrame(typ: byte, seqnum: u16, data: Bstream) returns (obs: Bstream)
    requires data.Valid()
    modifies data`offset
    ensures fresh(obs) && obs.Valid() && obs.View().Written() == Wire(Frame(typ, seqnum, old(data.View()).Written()))
  {
    ghost var f := Frame(typ, seqnum, data.View().Written());
    var payloadlen := data.offset;
    var raw := new byte[6 + payloadlen];
    obs := new Bstream(raw, 6 + payloadlen);
    ghost var c := obs.View();
    hide Wire, Cursor.Put;
    var n := obs.Put8(0x2a);
    n := obs.Put8(typ);
    n := obs.Put16(seqnum);
    n := obs.Put16(payloadlen);
    PutPayload(obs, data);
    FramePutIs(c, f);
  }

  // Rewind the frame's data and copy what was written there.
  method PutPayload(obs: Bstream, data: Bstream)
    requires obs.Valid() && data.Valid() && obs != data && obs.data != data.data
    modifies obs`offset, obs.data, data`offset
    ensures obs.Valid() && obs.View() == old(obs.View()).Put(old(data.View()).Written())
  {
    var payloadlen := data.offset;
    data.Rewind();
    var n := obs.PutBs(data, payloadlen);
  }

  // sendframe_flap: an error when not all bytes went out. A frame of 65530 bytes puts nothing on
  // the wire and is no error.
  method SendFrame(fd: Socket, typ: byte, seqnum: u16, data: Bstream) returns (err: bool)
    requires data.Valid()
    modifies fd, data`offset
    ensures var f := Frame(typ, seqnum, old(data.View()).Written());
            var m := Sending(old(fd.script), |Wire(f)|);
            && fd.sent == old(fd.sent) + Wire(f)[..m.count] && fd.script == m.script
            && (err <==> m.count != |Wire(f)|)
    ensures fd.incoming == old(fd.incoming)
  {
    hide Wire, Sending;
    ghost var f := Frame(typ, seqnum, data.View().Written());
    var obs := BuildFrame(typ, seqnum, data);
    var obslen := obs.offset;
    ghost var w := obs.View().Written();
    obs.Rewind();
    assert obs.View().Peek(obslen) == w;
    var wrote := BstreamSend(obs, fd, obslen);
    SendingIs(old(fd.script), |Wire(f)|);
    err := wrote != obslen;
  }

  // ----- Receiving a frame -----

  // aim_bstream_recv: no more than there is room for; a failure leaves the position.
  method BstreamRecv(bs: Bstream, fd: Socket, count: nat) returns (red: int)
    requires bs.Valid()
    modifies fd, bs`offset, bs.data
    ensures bs.Valid() && fd.sent == old(fd.sent)
    ensures var n := Least(count, old(bs.View()).Room());
            var r := Receiving(old(fd.script), old(fd.incoming), n);
            && red == (if r.Failed? then -1 else n)
            && (r.Got? ==>
                 && n <= |old(fd.incoming)| && bs.View() == old(bs.View()).Put(old(fd.incoming)[..n])
                 && fd.incoming == r.incoming && fd.script == r.script)
  {
    var room := bs.Empty();
    var n := if count > room then room else count;
    red := 0;
    if n != 0 {
      var buf;
      red, buf := AimRecv(fd, n);
      if red <= 0 {
        return -1;
      }
      var w := bs.PutRaw(buf);
    } else {
      assert old(bs.View()).Put([]).buf == old(bs.View()).buf;
    }
  }

  datatype Command = Closed | Command(frame: Frame, incoming: seq<byte>, script: seq<int>)

  // What aim_get_command makes of the front of the stream: a frame, or the connection is closed.
  function NextCommand(script: seq<int>, incoming: seq<byte>): Command {
    var h := Receiving(script, incoming, 6);
    if h.Failed? || |incoming| < 6 || incoming[0] != 0x2a then Closed
    else
      var n := Octets.Get16(incoming[4..6]);
      var p := Receiving(h.script, h.incoming, n);
      if p.Failed? || |h.incoming| < n then Closed
      else Command(Frame(incoming[1], Octets.Get16(incoming[2..4]), h.incoming[..n]), p.incoming, p.script)
  }

  // aim_get_command on an open FLAP connection: the frame it appends to the receive queue.
  method GetCommand(fd: Socket) returns (r: Option<Frame>, data: Bstream?)
    modifies fd
    ensures var c := NextCommand(old(fd.script), old(fd.incoming));
            && (c.Closed? ==> r.None?)
            && (c.Command? ==>
                 && r == Some(c.frame) && fd.incoming == c.incoming && fd.script == c.script
                 && data != null && data.Valid() && data.View() == Cursor(c.frame.payload, 0))
    ensures fd.sent == old(fd.sent)
  {
    hide Receiving, Octets.Get16;
    var ok, typ, seqnum, payloadlen := ReadHeader(fd);
    if !ok {
      return None, null;
    }
    ok, data := ReadPayload(fd, payloadlen);
    if !ok {
      return None, null;
    }
    r := Some(Frame(typ, seqnum, data.data[..data.len]));
  }

  method ReadHeader(fd: Socket) returns (ok: bool, typ: byte, seqnum: u16, payloadlen: u16)
    modifies fd
    ensures fd.sent == old(fd.sent)
    ensures var s, h := old(fd.incoming), Receiving(old(fd.script), old(fd.incoming), 6);
            && (ok <==> h.Got? && |s| >= 6 && s[0] == 0x2a)
            && (ok ==>
                 && typ == s[1] && seqnum == Octets.Get16(s[2..4]) && payloadlen == Octets.Get16(s[4..6])
                 && fd.incoming == h.incoming && fd.script == h.script)
  {
    hide Receiving, Cursor.Put, Cursor.Skip, Cursor.U8, Cursor.U16, Octets.Get16;
    ok, typ, seqnum, payloadlen := false, 0, 0, 0;
    ghost var s := fd.incoming;
    var raw := new byte[6];
    var flaphdr := new Bstream(raw, 6);
    ghost var c := flaphdr.View();
    var red := BstreamRecv(flaphdr, fd, 6);
    if red < 6 {
      return;
    }
    Filled(c, s[..6]);
    flaphdr.Rewind();
    HeaderRead(flaphdr.View());
    assert s[..6][2..4] == s[2..4] && s[..6][4..6] == s[4..6];
    var start := flaphdr.Get8();
    if start != 0x2a {
      return;
    }
    typ := flaphdr.Get8();
    seqnum := flaphdr.Get16();
    payloadlen := flaphdr.Get16();
    ok := true;
  }

  // A stream filled from its start to its end.
  lemma Filled(c: Cursor, s: seq<byte>)
    requires c.Valid() && c.pos == 0 && |c.buf| == |s|
    ensures c.Put(s) == Cursor(s, |s|)
  {
    assert c.buf[..0] + s + c.buf[|s|..] == s;
  }

  lemma HeaderRead(h: Cursor)
    requires h.Valid() && h.pos == 0 && |h.buf| == 6
    ensures h.U8() == h.buf[0] && h.Skip(1).U8() == h.buf[1]
    ensures h.Skip(1).Skip(1).U16() == Octets.Get16(h.buf[2..4])
    ensures h.Skip(1).Skip(1).Skip(2).U16() == Octets.Get16(h.buf[4..6])
  {
    assert h.buf[2..][..2] == h.buf[2..4] && h.buf[4..][..2] == h.buf[4..6];
  }

  method ReadPayload(fd: Socket, payloadlen: u16) returns (ok: bool, data: Bstream)
    modifies fd
    ensures fd.sent == old(fd.sent) && fresh(data)
    ensures var p := Receiving(old(fd.script), old(fd.incoming), payloadlen);
            && (ok <==> p.Got?)
            && (ok ==>
                 && payloadlen <= |old(fd.incoming)|
                 && fd.incoming == p.incoming && fd.script == p.script
                 && data.Valid() && data.View() == Cursor(old(fd.incoming)[..payloadlen], 0))
  {
    hide Cursor.Put;
    ghost var s := fd.incoming;
    var payload := new byte[payloadlen];
    data := new Bstream(payload, payloadlen);
    ghost var c := data.View();
    if payloadlen != 0 {
      var red := BstreamRecv(data, fd, payloadlen);
      if red < payloadlen {
        return false, data;
      }
      Filled(c, s[..payloadlen]);
    }
    ok := true;
    data.Rewind();
  }

  // ----- The stream of frames -----

  function WireAll(fs: seq<Frame>): seq<byte> {
    if |fs| == 0 then [] else Wire(fs[0]) + WireAll(fs[1..])
  }

  // What n calls of aim_get_command queue: frames, the stream left and the script left.
  datatype Stream = Stream(frames: seq<Frame>, incoming: seq<byte>, script: seq<int>) | Broken

  function Commands(script: seq<int>, incoming: seq<byte>, n: nat): Stream
    decreases n
  {
    if n == 0 then Stream([], incoming, script)
    else
      match NextCommand(script, incoming)
      case Closed => Broken
      case Command(f, rest, later) =>
        match Commands(later, rest, n - 1)
        case Broken => Broken
        case Stream(fs, end, last) => Stream([f] + fs, end, last)
  }

  lemma CommandAt(script: seq<int>, s: seq<byte>, f: Frame, tail: seq<byte>)
    requires Steady(script) && |s| >= 6 && s[0] == 0x2a && s[1] == f.typ && s[6..] == f.payload + tail
    requires Octets.Get16(s[2..4]) == f.seqnum && Octets.Get16(s[4..6]) == |f.payload|
    ensures var c := NextCommand(script, s);
            c.Command? && c.frame == f && c.incoming == tail && Steady(c.script)
  {
    hide Receiving, Octets.Get16, Steady;
    ReceivingIs(script, s, 6);
    var h := Receiving(script, s, 6);
    ReceivingIs(h.script, h.incoming, |f.payload|);
    assert (f.payload + tail)[..|f.payload|] == f.payload && (f.payload + tail)[|f.payload|..] == tail;
  }

  lemma FrameArrives(script: seq<int>, f: Frame, tail: seq<byte>)
    requires Steady(script) && |f.payload| <= MAX_PAYLOAD
    ensures var c := NextCommand(script, Wire(f) + tail);
            c.Command? && c.frame == f && c.incoming == tail && Steady(c.script)
  {
    hide NextCommand, Header, Octets.Get16, Steady;
    assert Wire(f) + tail == Header(f) + (f.payload + tail);
    HeaderFields(f, f.payload + tail);
    CommandAt(script, Wire(f) + tail, f, tail);
  }

  // Reading takes off the stream what the frame says: its header and its payload.
  lemma CommandTakes(script: seq<int>, s: seq<byte>)
    ensures var c := NextCommand(script, s); c.Command? ==> |s| == 6 + |c.frame.payload| + |c.incoming|
  {
    var h := Receiving(script, s, 6);
    ReceivingIs(script, s, 6);
    hide Receiving, Octets.Get16;
    if h.Got? && |s| >= 6 {
      ReceivingIs(h.script, h.incoming, Octets.Get16(s[4..6]));
    }
  }

  /** However the stream is cut up, what is read is decided by its bytes alone: the connection is
      closed exactly when the first byte is not 0x2a or the stream ends within the header or the
      payload, and the frame is channel, number and payload behind their length. */
  lemma CommandIs(script: seq<int>, s: seq<byte>)
    requires Steady(script)
    ensures var c := NextCommand(script, s);
            && (c.Closed? <==> |s| < 6 || s[0] != 0x2a || |s| < 6 + s[4] as int * 0x100 + s[5])
            && (c.Command? ==>
                 var n := s[4] as int * 0x100 + s[5];
                 && c.frame == Frame(s[1], s[2] as int * 0x100 + s[3], s[6..6 + n])
                 && c.incoming == s[6 + n..])
  {
    ReceivingIs(script, s, 6);
    var h := Receiving(script, s, 6);
    if h.Got? && |s| >= 6 {
      var n := s[4] as int * 0x100 + s[5];
      assert Octets.Get16(s[4..6]) == n;
      ReceivingIs(h.script, s[6..], n);
      assert |s| >= 6 + n ==> s[6..][..n] == s[6..6 + n] && s[6..][n..] == s[6 + n..];
    }
    hide Receiving;
  }

  /** A frame given to the send loop comes back out of the receive loop, whatever bytes follow it
      and however either side cuts up the stream, exactly when its payload leaves room for the
      header and no send gave up. */
  lemma FrameRoundTrip(sends: seq<int>, recvs: seq<int>, f: Frame, tail: seq<byte>)
    requires Steady(recvs)
    ensures var m := Sending(sends, |Wire(f)|);
            var c := NextCommand(recvs, Wire(f)[..m.count] + tail);
            && (c.Command? && c.frame == f && c.incoming == tail <==>
                |f.payload| <= MAX_PAYLOAD && m.count == |Wire(f)|)
            && (Steady(sends) ==> m.count == |Wire(f)|)
  {
    var m, w := Sending(sends, |Wire(f)|), Wire(f);
    SendingIs(sends, |w|);
    CommandTakes(recvs, w[..m.count] + tail);
    assert |w| <= 6 + |f.payload| && (|w| == 6 + |f.payload| <==> |f.payload| <= MAX_PAYLOAD);
    hide NextCommand, Wire, Sending;
    if |f.payload| <= MAX_PAYLOAD && m.count == |w| {
      assert w[..m.count] == w;
      FrameArrives(recvs, f, tail);
    }
  }

  lemma HeaderFields(f: Frame, rest: seq<byte>)
    ensures var s := Header(f) + rest;
            && s[0] == 0x2a && s[1] == f.typ && s[6..] == rest
            && Octets.Get16(s[2..4]) == f.seqnum && Octets.Get16(s[4..6]) == |f.payload|
  {
    var s := Header(f) + rest;
    GetPut16(f.seqnum);
    GetPut16(|f.payload|);
    hide Octets.Put16, Octets.Get16;
    assert s[2..4] == Octets.Put16(f.seqnum) && s[4..6] == Octets.Put16(|f.payload|);
  }

  // ----- From sendframe_flap to aim_get_command -----

  // What a series of frames puts on the wire: the bytes, the script left, and whether every frame
  // went out whole.
  datatype Sent = Sent(bytes: seq<byte>, script: seq<int>, intact: bool)

  function SendFrames(script: seq<int>, fs: seq<Frame>): Sent
    decreases |fs|
  {
    if |fs| == 0 then Sent([], script, true)
    else
      var w := Wire(fs[0]);
      var m := Sending(script, |w|);
      var rest := SendFrames(m.script, fs[1..]);
      Sent(w[..m.count] + rest.bytes, rest.script, m.count == |w| && rest.intact)
  }

  // The frames of a queue are sent one after the other.
  method SendQueue(fd: Socket, fs: seq<Frame>) returns (intact: bool)
    modifies fd
    ensures var s := SendFrames(old(fd.script), fs);
            fd.sent == old(fd.sent) + s.bytes && fd.script == s.script && intact == s.intact
    ensures fd.incoming == old(fd.incoming)
  {
    hide Wire, Sending, SendFrames;
    intact := true;
    SendFramesNone(fd.script);
    assert fs[..0] == [];
    for i := 0 to |fs|
      invariant var s := SendFrames(old(fd.script), fs[..i]);
                fd.sent == old(fd.sent) + s.bytes && fd.script == s.script && intact == s.intact
      invariant fd.incoming == old(fd.incoming)
    {
      SendFramesNext(old(fd.script), fs[..i], fs[i]);
      assert fs[..i + 1] == fs[..i] + [fs[i]];
      var data := FrameData(fs[i].payload);
      var err := SendFrame(fd, fs[i].typ, fs[i].seqnum, data);
      intact := intact && !err;
    }
    assert fs[..|fs|] == fs;
  }

  // A stream that a frame's payload was written to.
  method FrameData(payload: Short) returns (data: Bstream)
    ensures fresh(data) && fresh(data.data) && data.Valid() && data.View().Written() == payload
  {
    var raw := new byte[|payload|];
    data := new Bstream(raw, |payload|);
    ghost var c := data.View();
    var n := data.PutRaw(payload);
    Filled(c, payload);
  }

  lemma SendFramesNone(script: seq<int>)
    ensures SendFrames(script, []) == Sent([], script, true)
  {
  }

  lemma {:induction false} SendFramesNext(script: seq<int>, fs: seq<Frame>, f: Frame)
    ensures var s := SendFrames(script, fs);
            var m := Sending(s.script, |Wire(f)|);
            SendFrames(script, fs + [f])
            == Sent(s.bytes + Wire(f)[..m.count], m.script, s.intact && m.count == |Wire(f)|)
    decreases |fs|
  {
    hide Wire, Sending;
    if |fs| == 0 {
      var one := [f];
      assert fs + one == one && one[1..] == [];
      SendFramesNone(Sending(script, |Wire(f)|).script);
    } else {
      var m := Sending(script, |Wire(fs[0])|);
      SendFramesNext(m.script, fs[1..], f);
      assert (fs + [f])[1..] == fs[1..] + [f];
      var s := SendFrames(m.script, fs[1..]);
      var last := Wire(f)[..Sending(s.script, |Wire(f)|).count];
      assert Wire(fs[0])[..m.count] + (s.bytes + last) == Wire(fs[0])[..m.count] + s.bytes + last;
    }
  }

  // Whatever the sends do, the bytes are those of the frames exactly when none was cut short, and
  // none is when every send moves something.
  lemma {:induction false} FramesSent(script: seq<int>, fs: seq<Frame>)
    ensures var s := SendFrames(script, fs);
            && |s.bytes| <= |WireAll(fs)|
            && (s.intact <==> |s.bytes| == |WireAll(fs)|) && (s.intact ==> s.bytes == WireAll(fs))
            && (Steady(script) ==> s.intact)
    decreases |fs|
  {
    hide Wire, Sending;
    if |fs| > 0 {
      SendingIs(script, |Wire(fs[0])|);
      FramesSent(Sending(script, |Wire(fs[0])|).script, fs[1..]);
    }
  }

  // The bytes that frames take off the stream when they are read.
  function Volume(fs: seq<Frame>): nat {
    if |fs| == 0 then 0 else 6 + |fs[0].payload| + Volume(fs[1..])
  }

  lemma {:induction false} CommandsTake(script: seq<int>, s: seq<byte>, n: nat)
    ensures var r := Commands(script, s, n); r.Stream? ==> |s| == Volume(r.frames) + |r.incoming|
    decreases n
  {
    if n > 0 {
      CommandTakes(script, s);
      hide NextCommand;
      var c := NextCommand(script, s);
      if c.Command? {
        CommandsTake(c.script, c.incoming, n - 1);
        var r := Commands(c.script, c.incoming, n - 1);
        assert r.Stream? ==> ([c.frame] + r.frames)[1..] == r.frames;
      }
    }
  }

  lemma {:induction false} WireVolume(fs: seq<Frame>)
    ensures |WireAll(fs)| <= Volume(fs)
    ensures |WireAll(fs)| == Volume(fs) <==> forall i :: 0 <= i < |fs| ==> |fs[i].payload| <= MAX_PAYLOAD
  {
    if |fs| > 0 {
      WireVolume(fs[1..]);
      assert |Wire(fs[0])| <= 6 + |fs[0].payload|;
      assert |Wire(fs[0])| == 6 + |fs[0].payload| <==> |fs[0].payload| <= MAX_PAYLOAD;
      hide Wire;
      if forall i :: 0 <= i < |fs| ==> |fs[i].payload| <= MAX_PAYLOAD {
        assert forall i :: 0 <= i < |fs[1..]| ==> fs[1..][i] == fs[i + 1];
      } else {
        assert forall i :: 0 < i < |fs| ==> fs[i] == fs[1..][i - 1];
      }
    }
  }

  lemma {:induction false} StreamArrives(script: seq<int>, fs: seq<Frame>, tail: seq<byte>)
    requires Steady(script) && forall i :: 0 <= i < |fs| ==> |fs[i].payload| <= MAX_PAYLOAD
    ensures var r := Commands(script, WireAll(fs) + tail, |fs|);
            r.Stream? && r.frames == fs && r.incoming == tail
    decreases |fs|
  {
    if |fs| == 0 {
      assert WireAll(fs) + tail == tail;
    } else {
      var rest := WireAll(fs[1..]) + tail;
      assert WireAll(fs) + tail == Wire(fs[0]) + rest;
      FrameArrives(script, fs[0], rest);
      hide NextCommand, Wire;
      var c := NextCommand(script, Wire(fs[0]) + rest);
      StreamArrives(c.script, fs[1..], tail);
    }
  }

  /** Frames given to the send loop come back out of as many calls of aim_get_command, in order
      and leaving the rest of the stream, however either side cuts up the stream: exactly when
      every payload leaves room for its header and no send gave up. */
  lemma StreamRoundTrip(sends: seq<int>, recvs: seq<int>, fs: seq<Frame>, tail: seq<byte>)
    requires Steady(recvs)
    ensures var s := SendFrames(sends, fs);
            var r := Commands(recvs, s.bytes + tail, |fs|);
            && (r.Stream? && r.frames == fs && r.incoming == tail <==>
                s.intact && forall i :: 0 <= i < |fs| ==> |fs[i].payload| <= MAX_PAYLOAD)
            && (Steady(sends) ==> s.intact)
  {
    var s := SendFrames(sends, fs);
    FramesSent(sends, fs);
    CommandsTake(recvs, s.bytes + tail, |fs|);
    WireVolume(fs);
    hide SendFrames, Commands, WireAll, Volume;
    if s.intact && forall i :: 0 <= i < |fs| ==> |fs[i].payload| <= MAX_PAYLOAD {
      StreamArrives(recvs, fs, tail);
    }
  }
}
