/**
  The session object: the connection list and the two frame queues, changed in place by the
  entry points of src/conn.c, src/txqueue.c, src/rxqueue.c and src/rxhandlers.c. The connections
  themselves are kept by name.
*/
module Sessions {
  import opened Octets
  import opened ByteStream
  import opened Connections
  import opened Dispatch
  import opened Engine
  import Flap

  // What the select and getsockopt calls of aim_conn_completeconnect say.
  datatype Connecting = Ready | NotYet | Broken

  datatype Request = Request(id: nat, framing: Framing, chan: byte, payload: Short)

  // The frames a callback enqueues.
  function SendAll(s: State, rs: seq<Request>): (t: State)
    requires Inv(s) && forall i :: 0 <= i < |rs| ==> rs[i].id in s.conns
    ensures Inv(t) && forall id :: id in s.conns ==> id in t.conns
  {
    if |rs| == 0 then s
    else
      var r, t := rs[|rs| - 1], SendAll(s, rs[..|rs| - 1]);
      SendKeeps(t, r.id, r.framing, r.chan, r.payload);
      Send(t, r.id, r.framing, r.chan, r.payload)
  }

  // aim_conn_completeconnect.
  function Completed(s: State, id: nat, res: Connecting, callback: seq<Request>): (t: State)
    requires Inv(s) && id in s.conns && forall i :: 0 <= i < |callback| ==> callback[i].id in s.conns
    ensures Inv(t)
  {
    var c := s.conns[id];
    if !c.open || !c.inprogress || res.NotYet? then s
    else if res.Broken? then SetConn(s, id, Close(c))
    else
      var t := SendAll(SetConn(s, id, c.(inprogress := false)), Called(c, callback));
      WaitingLive(t.conns, t.outgoing);
      Engine.Flush(t)
  }

  // The requests of the callback, if there is one.
  function Called(c: Conn, callback: seq<Request>): seq<Request> {
    if CallHandler(c.handlerlist, FAM_SPECIAL, SPECIAL_CONNCOMPLETE).Some? then callback else []
  }

  // The loop of aim_conn_kill.
  method Unlist(list: seq<nat>, id: nat) returns (found: bool, rest: seq<nat>)
    ensures rest == Unlisted(list, id) && (found <==> id in list)
  {
    hide Unlisted;
    var k := 0;
    assert list[0..] == list && list[..0] + Unlisted(list, id) == Unlisted(list, id);
    while k < |list|
      invariant k <= |list| && id !in list[..k]
      invariant list[..k] + Unlisted(list[k..], id) == Unlisted(list, id)
    {
      UnlistNext(list, id, k);
      if list[k] == id {
        return true, list[..k] + list[k + 1..];
      }
      k := k + 1;
    }
    UnlistNone(id);
    assert list[..k] == list && list[k..] == [];
    return false, list;
  }

  lemma UnlistNext(list: seq<nat>, id: nat, k: nat)
    requires k < |list|
    ensures list[k] == id ==> Unlisted(list[k..], id) == list[k + 1..]
    ensures list[k] != id ==> list[..k] + Unlisted(list[k..], id) == list[..k + 1] + Unlisted(list[k + 1..], id)
  {
    assert list[k..][1..] == list[k + 1..];
    assert list[..k + 1] == list[..k] + [list[k]];
  }

  lemma UnlistNone(id: nat)
    ensures Unlisted([], id) == []
  {
  }

  class Session {
    var connlist: seq<nat>
    var conns: map<nat, Conn>
    var queueOutgoing: seq<TxFrame>
    var queueIncoming: seq<RxFrame>
    var immediate: bool
    var next: nat
    ghost var handed: seq<TxFrame>
    ghost var enqueued: seq<TxFrame>
    ghost var received: seq<RxFrame>
    ghost var settled: seq<RxFrame>
    // The numbers of frames enqueued and received so far.
    var count: nat
    var arrived: nat

    ghost function View(): State
      reads this
    {
      State(connlist, conns, queueOutgoing, queueIncoming, immediate, next, handed, enqueued,
            received, settled)
    }

    ghost predicate Valid()
      reads this
    {
      Inv(View()) && count == |enqueued| && arrived == |received|
    }

    constructor ()
      ensures Valid() && View() == INITIAL
    {
      connlist, conns, queueOutgoing, queueIncoming := [], map[], [], [];
      immediate, next, handed, enqueued, count := false, 0, [], [], 0;
      received, settled, arrived := [], [], 0;
    }

    // aim_conn_getnext and the fields aim_newconn fills in.
    method NewConn(typ: u16, open: bool, inprogress: bool) returns (id: nat)
      requires Valid()
      modifies this
      ensures Valid() && View() == Engine.NewConn(old(View()), typ, open, inprogress) && id == old(next)
    {
      NewConnKeeps(View(), typ, open, inprogress);
      id := next;
      conns := conns[id := Conn(typ, open, inprogress, 0, [])];
      connlist := [id] + connlist;
      next := next + 1;
    }

    // aim_tx_setenqueue with AIM_TX_QUEUED or AIM_TX_IMMEDIATE.
    method SetEnqueue(immediate: bool)
      requires Valid()
      modifies this`immediate
      ensures Valid() && View() == old(View()).(immediate := immediate)
    {
      this.immediate := immediate;
    }

    // aim_conn_addhandler.
    method ConnAddHandler(id: nat, family: u16, typ: u16, code: nat) returns (ret: int)
      requires Valid() && id in conns
      modifies this`conns
      ensures Valid()
      ensures match AddHandler(old(conns)[id].handlerlist, Handler(family, typ, code))
              case None => ret == -1 && View() == old(View())
              case Some(list) => ret == 0 && View() == SetConn(old(View()), id, old(conns)[id].(handlerlist := list))
    {
      if Disallowed(family, typ) {
        return -1;
      }
      var c := conns[id];
      conns := conns[id := c.(handlerlist := c.handlerlist + [Handler(family, typ, code)])];
      ret := 0;
    }

    // aim_tx_new and aim_tx_enqueue, by way of the queue or at once.
    method Enqueue(id: nat, framing: Framing, chan: byte, payload: Short) returns (ok: bool)
      requires Valid() && id in conns
      modifies this
      ensures Valid() && View() == Send(old(View()), id, framing, chan, payload)
      ensures ok == Suits(old(conns)[id].typ, framing)
    {
      SendKeeps(View(), id, framing, chan, payload);
      hide Inv, Live, TxLive, Listed;
      var c := conns[id];
      if c.typ == TYPE_RENDEZVOUS || c.typ == TYPE_RENDEZVOUS_OUT {
        if framing != OFT {
          return false;
        }
      } else if framing != FLAP {
        return false;
      }
      var seqnum := 0;
      if framing == FLAP {
        seqnum := Low16(c.seqnum + 1);
        conns := conns[id := c.(seqnum := seqnum)];
      } else {
        conns := conns[id := c];
      }
      var fr := TxFrame(id, framing, chan, seqnum, payload, count, false);
      enqueued, count := enqueued + [fr], count + 1;
      if c.inprogress || !immediate {
        queueOutgoing := queueOutgoing + [fr];
      } else {
        handed := handed + [fr];
      }
      ok := true;
    }

    // The loop of aim_tx_flushqueue.
    method SendQueue()
      requires Valid()
      modifies this`queueOutgoing, this`handed
      ensures queueOutgoing == Marked(conns, old(queueOutgoing))
      ensures handed == old(handed) + Sendable(conns, old(queueOutgoing))
    {
      ghost var q := queueOutgoing;
      MarkedIs(conns, q);
      hide Marked;
      assert q[0..] == q;
      var i := 0;
      while i < |queueOutgoing|
        invariant i <= |queueOutgoing| == |q| && TxLive(conns, q)
        invariant forall k :: 0 <= k < |q| ==> queueOutgoing[k] == if k < i then Marked(conns, q)[k] else q[k]
        invariant handed + Sendable(conns, q[i..]) == old(handed) + Sendable(conns, q)
      {
        var cur := queueOutgoing[i];
        assert q[i..][1..] == q[i + 1..];
        if !cur.handled && !conns[cur.conn].inprogress {
          handed := handed + [cur];
          queueOutgoing := queueOutgoing[i := cur.(handled := true)];
        }
        i := i + 1;
      }
    }

    // aim_tx_purgequeue.
    method PurgeTx()
      modifies this`queueOutgoing
      ensures queueOutgoing == Unsent(old(queueOutgoing))
    {
      var kept := [];
      for i := 0 to |queueOutgoing|
        invariant queueOutgoing == old(queueOutgoing)
        invariant kept + Unsent(queueOutgoing[i..]) == Unsent(queueOutgoing)
      {
        assert queueOutgoing[i..][1..] == queueOutgoing[i + 1..];
        if !queueOutgoing[i].handled {
          kept := kept + [queueOutgoing[i]];
        }
      }
      queueOutgoing := kept;
    }

    method FlushQueue()
      requires Valid()
      modifies this`queueOutgoing, this`handed
      ensures Valid() && View() == Engine.Flush(old(View()))
    {
      WaitingLive(conns, queueOutgoing);
      PurgeMarked(conns, queueOutgoing);
      SendQueue();
      PurgeTx();
    }

    // aim_conn_completeconnect; callback holds the frames its callback enqueues.
    method CompleteConnect(id: nat, res: Connecting, callback: seq<Request>) returns (ret: int)
      requires Valid() && id in conns && forall i :: 0 <= i < |callback| ==> callback[i].id in conns
      modifies this
      ensures Valid() && View() == Completed(old(View()), id, res, callback)
      ensures var c := old(conns)[id];
              ret == if !c.open || !c.inprogress || res.Broken? then -1 else 0
    {
      var c := conns[id];
      if !c.open || !c.inprogress {
        return -1;
      }
      if res.Broken? {
        conns := conns[id := Close(c)];
        return -1;
      }
      if res.NotYet? {
        return 0;
      }
      conns := conns[id := c.(inprogress := false)];
      var userfunc := FindHandler(c.handlerlist, FAM_SPECIAL, SPECIAL_CONNCOMPLETE);
      var rs := if userfunc.Some? then callback else [];
      RunCallback(rs);
      FlushQueue();
      ret := 0;
    }

    method RunCallback(rs: seq<Request>)
      requires Valid() && forall i :: 0 <= i < |rs| ==> rs[i].id in conns
      modifies this
      ensures Valid() && View() == SendAll(old(View()), rs)
    {
      assert rs[..0] == [];
      for i := 0 to |rs|
        invariant Valid() && View() == SendAll(old(View()), rs[..i])
      {
        assert rs[..i + 1][..i] == rs[..i];
        var ok := Enqueue(rs[i].id, rs[i].framing, rs[i].chan, rs[i].payload);
      }
      assert rs[..|rs|] == rs;
    }

    // aim_tx_cleanqueue.
    method CleanTx(id: nat)
      modifies this`queueOutgoing
      ensures queueOutgoing == TxCleaned(old(queueOutgoing), id)
    {
      ghost var q := queueOutgoing;
      TxCleanedIs(q, id);
      hide TxCleaned;
      for i := 0 to |queueOutgoing|
        invariant |queueOutgoing| == |q|
        invariant forall k :: 0 <= k < |q| ==> queueOutgoing[k] == if k < i then TxCleaned(q, id)[k] else q[k]
      {
        if queueOutgoing[i].conn == id {
          queueOutgoing := queueOutgoing[i := queueOutgoing[i].(handled := true)];
        }
      }
    }

    // aim_rxqueue_cleanbyconn.
    method CleanRx(id: nat)
      modifies this`queueIncoming
      ensures queueIncoming == RxCleaned(old(queueIncoming), id)
    {
      ghost var q := queueIncoming;
      RxCleanedIs(q, id);
      hide RxCleaned;
      for i := 0 to |queueIncoming|
        invariant |queueIncoming| == |q|
        invariant forall k :: 0 <= k < |q| ==> queueIncoming[k] == if k < i then RxCleaned(q, id)[k] else q[k]
      {
        if queueIncoming[i].handled == 0 && queueIncoming[i].conn == id {
          queueIncoming := queueIncoming[i := queueIncoming[i].(handled := 1)];
        }
      }
    }

    method ConnkillReal(id: nat)
      modifies this
      ensures View() == KillReal(old(View()), id) && count == old(count) && arrived == old(arrived)
    {
      CleanRx(id);
      CleanTx(id);
      conns := conns - {id};
    }

    // aim_conn_kill.
    method ConnKill(id: nat)
      requires Valid()
      modifies this
      ensures Valid() && View() == Kill(old(View()), id)
    {
      KillKeeps(View(), id);
      var found, rest := Unlist(connlist, id);
      if !found {
        return;
      }
      connlist := rest;
      ConnkillReal(id);
    }

    // aim_connrst.
    method ConnRst()
      requires Valid()
      modifies this
      ensures Valid() && View() == Logoff(old(View()))
    {
      ghost var s := View();
      LogoffKeeps(s);
      ghost var t := KillAll(s, connlist);
      hide KillReal, KillAll, Inv;
      assert connlist[0..] == connlist;
      var i := 0;
      while i < |connlist|
        invariant i <= |connlist| && connlist == s.connlist
        invariant count == |s.enqueued| && arrived == |s.received|
        invariant KillAll(View(), connlist[i..]) == t
      {
        assert connlist[i..][0] == connlist[i] && connlist[i..][1..] == connlist[i + 1..];
        KillAllNext(View(), connlist[i..]);
        ConnkillReal(connlist[i]);
        i := i + 1;
      }
      KillAllNext(View(), connlist[i..]);
      connlist := [];
    }

    method ConnClose(id: nat)
      requires Valid() && id in conns
      modifies this`conns
      ensures Valid() && View() == SetConn(old(View()), id, Close(old(conns)[id]))
    {
      conns := conns[id := Close(conns[id])];
    }

    // aim_get_command; got is what Flap.GetCommand reads from the socket, res and callback are for
    // a connection that is still connecting.
    method GetCommand(id: nat, got: Option<Flap.Frame>, res: Connecting, callback: seq<Request>) returns (ret: int)
      requires Valid() && id in conns && forall i :: 0 <= i < |callback| ==> callback[i].id in conns
      modifies this
      ensures Valid()
      ensures View() == if old(conns)[id].inprogress then Completed(old(View()), id, res, callback)
                        else Receive(old(View()), id, got)
      ensures var c := old(conns)[id];
              ret == if !c.open || (if c.inprogress then res.Broken? else Suits(c.typ, FLAP) && got.None?) then -1
                     else 0
    {
      ReceiveKeeps(View(), id, got);
      var c := conns[id];
      if !c.open {
        return -1;
      }
      if c.inprogress {
        ret := CompleteConnect(id, res, callback);
        return;
      }
      if c.typ == TYPE_RENDEZVOUS || c.typ == TYPE_RENDEZVOUS_OUT {
        return 0;
      }
      if got.None? {
        ConnClose(id);
        return -1;
      }
      var newrx := RxFrame(id, FLAP, got.value.typ, got.value.seqnum, Cursor(got.value.payload, 0), arrived, 0);
      queueIncoming := queueIncoming + [newrx];
      received, arrived := received + [newrx], arrived + 1;
      ret := 0;
    }

    // The loop of aim_rxdispatch; when it does not come back, the verdict says why.
    method DispatchQueue(cbs: nat -> nat -> Callback) returns (v: Verdict)
      requires Valid()
      modifies this`queueIncoming
      ensures v == Handle(conns, old(queueIncoming), cbs, 0) && (v.Done? ==> queueIncoming == v.q)
    {
      ghost var q := queueIncoming;
      hide One, Handle, Moved, Before;
      BeforeNone(Handle(conns, q, cbs, 0));
      assert q[0..] == q && q[..0] == [];
      var i := 0;
      while i < |queueIncoming|
        invariant i <= |queueIncoming| == |q| && queueIncoming[i..] == q[i..]
        invariant Live(conns, q) && Live(conns, q[i..])
        invariant Before(queueIncoming[..i], Handle(conns, q[i..], cbs, i)) == Handle(conns, q, cbs, 0)
      {
        var cur := queueIncoming[i];
        assert q[i..][0] == cur && q[i..][1..] == q[i + 1..];
        HandleNext(conns, q[i..], cbs, i, queueIncoming[..i]);
        if cur.handled == 0 {
          var o := HandleFrame(conns[cur.conn], cur, cbs(i));
          if o.Crashes? {
            return Crash;
          } else if o.Spins? {
            return Spin;
          }
          queueIncoming := queueIncoming[i := Moved(cur, o)];
        }
        assert queueIncoming[..i + 1] == queueIncoming[..i] + [queueIncoming[i]];
        i := i + 1;
      }
      HandleNone(conns, q[i..], cbs, i, queueIncoming[..i]);
      assert queueIncoming[..i] == queueIncoming;
      v := Done(queueIncoming);
    }

    // aim_purge_rxqueue.
    method PurgeRx()
      modifies this`queueIncoming
      ensures queueIncoming == Purged(old(queueIncoming))
    {
      var kept := [];
      for i := 0 to |queueIncoming|
        invariant queueIncoming == old(queueIncoming)
        invariant kept + Purged(queueIncoming[i..]) == Purged(queueIncoming)
      {
        assert queueIncoming[i..][1..] == queueIncoming[i + 1..];
        if queueIncoming[i].handled == 0 {
          kept := kept + [queueIncoming[i]];
        }
      }
      queueIncoming := kept;
    }

    method RxDispatch(cbs: nat -> nat -> Callback) returns (v: Verdict)
      requires Valid()
      modifies this`queueIncoming, this`settled
      ensures v.Done? <==> Dispatched(old(conns), old(queueIncoming), cbs).Done?
      ensures v.Done? ==> Valid() && View() == Engine.Handout(old(View()), cbs)
      ensures v.Done? ==> queueIncoming == Remaining(old(conns), old(queueIncoming), cbs, 0)
    {
      ghost var s := View();
      v := DispatchQueue(cbs);
      if v.Done? {
        PurgeRx();
        settled := settled + Settled(s.conns, s.incoming, cbs, 0);
        DispatchConserves(s.conns, s.incoming, cbs, 0);
        DispatchKeeps(s, cbs);
      }
    }
  }

  // One round of the dispatch loop, behind the frames p that it has passed.
  lemma HandleNext(conns: map<nat, Conn>, s: seq<RxFrame>, cbs: nat -> nat -> Callback, i: nat, p: seq<RxFrame>)
    requires Live(conns, s) && |s| > 0
    ensures var all, rest := Before(p, Handle(conns, s, cbs, i)), Handle(conns, s[1..], cbs, i + 1);
            if s[0].handled != 0 then all == Before(p + [s[0]], rest)
            else
              var o := One(conns[s[0].conn], s[0], cbs(i));
              && (o.Crashes? ==> all == Crash)
              && (o.Spins? ==> all == Spin)
              && (o.Sets? ==> o.pos <= |s[0].data.buf| && all == Before(p + [Moved(s[0], o)], rest))
  {
    if s[0].handled == 0 {
      OneKeeps(conns[s[0].conn], s[0], cbs(i));
    }
    hide One, Kept, Moved;
    var rest := Handle(conns, s[1..], cbs, i + 1);
    if rest.Done? {
      assert p + ([s[0]] + rest.q) == p + [s[0]] + rest.q;
      if s[0].handled == 0 && One(conns[s[0].conn], s[0], cbs(i)).Sets? {
        var f := Moved(s[0], One(conns[s[0].conn], s[0], cbs(i)));
        assert p + ([f] + rest.q) == p + [f] + rest.q;
      }
    }
  }

  lemma HandleNone(conns: map<nat, Conn>, s: seq<RxFrame>, cbs: nat -> nat -> Callback, i: nat, p: seq<RxFrame>)
    requires Live(conns, s) && |s| == 0
    ensures Before(p, Handle(conns, s, cbs, i)) == Done(p)
  {
  }

  lemma BeforeNone(v: Verdict)
    ensures Before([], v) == v
  {
  }

  // The completion of a connection as steps of the engine.
  function Steps(s: State, id: nat, res: Connecting, callback: seq<Request>): seq<Op>
    requires id in s.conns
  {
    var c := s.conns[id];
    if !c.open || !c.inprogress || res.NotYet? then []
    else if res.Broken? then [Shut(id)]
    else
      [Connected(id)]
      + Sends(if CallHandler(c.handlerlist, 0xffff, 0x0004).Some? then callback else []) + [Flushed]
  }

  function Sends(rs: seq<Request>): (ops: seq<Op>)
    ensures |ops| == |rs| && forall i :: 0 <= i < |ops| ==> ops[i].Sent?
  {
    if |rs| == 0 then []
    else
      var r := rs[|rs| - 1];
      Sends(rs[..|rs| - 1]) + [Sent(r.id, r.framing, r.chan, r.payload)]
  }

  /** Completing a connection is a run of the engine: the status change, the callback's sends and a
      flush. So what every run keeps holds behind it as well. */
  lemma CompletedIsRun(s: State, id: nat, res: Connecting, callback: seq<Request>)
    requires Inv(s) && id in s.conns && forall i :: 0 <= i < |callback| ==> callback[i].id in s.conns
    ensures Run(s, Steps(s, id, res, callback), Completed(s, id, res, callback))
    ensures forall i :: 0 <= i < |Steps(s, id, res, callback)| ==> Steps(s, id, res, callback)[i] != SetMode(true)
  {
    hide Run, SendAll, Send, TxLive, Live, Listed, Waiting, Sendable, CallHandler;
    var c := s.conns[id];
    if !c.open || !c.inprogress || res.NotYet? {
      RunNone(s);
    } else if res.Broken? {
      RunOne(s, Shut(id));
    } else {
      MadeIsRun(s, id, Called(c, callback));
    }
  }

  lemma RunNone(s: State)
    ensures Run(s, [], s)
  {
  }

  lemma MadeIsRun(s: State, id: nat, rs: seq<Request>)
    requires Inv(s) && id in s.conns && forall i :: 0 <= i < |rs| ==> rs[i].id in s.conns
    ensures var made := SetConn(s, id, s.conns[id].(inprogress := false));
            var t := SendAll(made, rs);
            TxLive(t.conns, t.outgoing) && Run(s, [Connected(id)] + Sends(rs) + [Flushed], Engine.Flush(t))
  {
    hide Run, SendAll, TxLive, Live, Waiting, Sendable;
    var made := SetConn(s, id, s.conns[id].(inprogress := false));
    StepKeeps(s, Connected(id));
    var t := SendAll(made, rs);
    RunOne(s, Connected(id));
    SendsRun(made, rs);
    RunAppend(s, [Connected(id)], made, Sends(rs), t);
    RunOne(t, Flushed);
    RunAppend(s, [Connected(id)] + Sends(rs), t, [Flushed], Engine.Flush(t));
  }

  lemma RunOne(s: State, op: Op)
    requires TxLive(s.conns, s.outgoing) && Given(s, op) && Returns(s, op)
    ensures Run(s, [op], Step(s, op))
  {
    hide Step;
    var ops := [op];
    assert ops[1..] == [];
    assert Run(Step(s, op), [], Step(s, op));
  }

  lemma {:induction false} RunAppend(s: State, xs: seq<Op>, m: State, ys: seq<Op>, t: State)
    requires Run(s, xs, m) && Run(m, ys, t)
    ensures Run(s, xs + ys, t)
    decreases |xs|
  {
    hide Step;
    if |xs| == 0 {
      assert xs + ys == ys;
    } else {
      RunAppend(Step(s, xs[0]), xs[1..], m, ys, t);
      assert (xs + ys)[0] == xs[0] && (xs + ys)[1..] == xs[1..] + ys;
    }
  }

  lemma {:induction false} SendsRun(s: State, rs: seq<Request>)
    requires Inv(s) && forall i :: 0 <= i < |rs| ==> rs[i].id in s.conns
    ensures Run(s, Sends(rs), SendAll(s, rs))
    decreases |rs|
  {
    if |rs| > 0 {
      var r, front := rs[|rs| - 1], rs[..|rs| - 1];
      SendsRun(s, front);
      hide Run, Send;
      var t, op := SendAll(s, front), Sent(r.id, r.framing, r.chan, r.payload);
      RunOne(t, op);
      RunAppend(s, Sends(front), t, [op], Step(t, op));
    }
  }

  // The queue after the sending loop and before the purge.
  function Marked(conns: map<nat, Conn>, fs: seq<TxFrame>): seq<TxFrame>
    requires TxLive(conns, fs)
  {
    if |fs| == 0 then []
    else
      [if !fs[0].handled && !conns[fs[0].conn].inprogress then fs[0].(handled := true) else fs[0]]
      + Marked(conns, fs[1..])
  }

  lemma {:induction false} MarkedIs(conns: map<nat, Conn>, fs: seq<TxFrame>)
    requires TxLive(conns, fs)
    ensures |Marked(conns, fs)| == |fs|
    ensures forall k :: 0 <= k < |fs| ==>
              Marked(conns, fs)[k]
              == if !fs[k].handled && !conns[fs[k].conn].inprogress then fs[k].(handled := true) else fs[k]
  {
    if |fs| > 0 {
      MarkedIs(conns, fs[1..]);
    }
  }

  // Marking and purging leave exactly the frames of connections that are still connecting.
  lemma {:induction false} PurgeMarked(conns: map<nat, Conn>, fs: seq<TxFrame>)
    requires TxLive(conns, fs)
    ensures Unsent(Marked(conns, fs)) == Waiting(conns, fs)
  {
    if |fs| > 0 {
      PurgeMarked(conns, fs[1..]);
      assert Marked(conns, fs)[1..] == Marked(conns, fs[1..]);
    }
  }

  lemma KillAllNext(s: State, ids: seq<nat>)
    ensures KillAll(s, ids) == if |ids| == 0 then s else KillAll(KillReal(s, ids[0]), ids[1..])
  {
    hide KillReal;
  }
}
