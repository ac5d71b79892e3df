/**
  The transmit and receive engine as a state machine (src/txqueue.c, src/rxqueue.c,
  src/rxhandlers.c, src/conn.c): connections, the two frame queues, and what every run of the
  library's entry points keeps.
*/
module Engine {
  import opened Octets
  import opened ByteStream
  import opened Connections
  import opened Dispatch
  import Flap

  // tag tells frames apart, as their addresses do.
  datatype TxFrame =
    TxFrame(conn: nat, framing: Framing, chan: byte, seqnum: u16, payload: Short, tag: nat, handled: bool)

  // handed: the frames given to aim_tx_sendframe so far. enqueued: the frames given to
  // aim_tx_enqueue. received: the frames aim_get_command put into the queue. settled: the frames
  // the dispatcher was done with. next: the name of the next connection.
  datatype State = State(
    connlist: seq<nat>, conns: map<nat, Conn>, outgoing: seq<TxFrame>, incoming: seq<RxFrame>,
    immediate: bool, next: nat, handed: seq<TxFrame>, enqueued: seq<TxFrame>,
    received: seq<RxFrame>, settled: seq<RxFrame>)

  const INITIAL := State([], map[], [], [], false, 0, [], [], [], [])

  // ----- Parts of a queue -----

  function Of(fs: seq<TxFrame>, id: nat): seq<TxFrame> {
    if |fs| == 0 then [] else if fs[0].conn == id then [fs[0]] + Of(fs[1..], id) else Of(fs[1..], id)
  }

  function Unsent(fs: seq<TxFrame>): seq<TxFrame> {
    if |fs| == 0 then [] else if !fs[0].handled then [fs[0]] + Unsent(fs[1..]) else Unsent(fs[1..])
  }

  // The frames of a connection that still have to be sent.
  function Pending(fs: seq<TxFrame>, id: nat): seq<TxFrame> {
    Of(Unsent(fs), id)
  }

  // Every frame that is not handled belongs to a connection that still exists.
  ghost predicate TxLive(conns: map<nat, Conn>, fs: seq<TxFrame>) {
    forall k :: 0 <= k < |fs| && !fs[k].handled ==> fs[k].conn in conns
  }

  // The frames a flush sends, and those it leaves because their connection is still connecting.
  function Sendable(conns: map<nat, Conn>, fs: seq<TxFrame>): seq<TxFrame>
    requires TxLive(conns, fs)
  {
    if |fs| == 0 then []
    else if !fs[0].handled && !conns[fs[0].conn].inprogress then [fs[0]] + Sendable(conns, fs[1..])
    else Sendable(conns, fs[1..])
  }

  function Waiting(conns: map<nat, Conn>, fs: seq<TxFrame>): seq<TxFrame>
    requires TxLive(conns, fs)
  {
    if |fs| == 0 then []
    else if !fs[0].handled && conns[fs[0].conn].inprogress then [fs[0]] + Waiting(conns, fs[1..])
    else Waiting(conns, fs[1..])
  }

  // aim_tx_cleanqueue and aim_rxqueue_cleanbyconn.
  function TxCleaned(fs: seq<TxFrame>, id: nat): seq<TxFrame> {
    if |fs| == 0 then [] else [if fs[0].conn == id then fs[0].(handled := true) else fs[0]] + TxCleaned(fs[1..], id)
  }

  function RxCleaned(fs: seq<RxFrame>, id: nat): seq<RxFrame> {
    if |fs| == 0 then []
    else [if fs[0].handled == 0 && fs[0].conn == id then fs[0].(handled := 1) else fs[0]] + RxCleaned(fs[1..], id)
  }

  function Unlisted(list: seq<nat>, id: nat): seq<nat> {
    if |list| == 0 then [] else if list[0] == id then list[1..] else [list[0]] + Unlisted(list[1..], id)
  }

  // ----- Steps -----

  // aim_newconn: a connection that is open, still connecting, or neither.
  function NewConn(s: State, typ: u16, open: bool, inprogress: bool): State {
    s.(connlist := [s.next] + s.connlist, next := s.next + 1,
       conns := s.conns[s.next := Conn(typ, open, inprogress, 0, [])])
  }

  function SetConn(s: State, id: nat, c: Conn): State {
    s.(conns := s.conns[id := c])
  }

  // aim_tx_new and aim_tx_enqueue: nothing when the framing does not suit the connection. A FLAP
  // frame gets the next sequence number, in 16 bits.
  function NewFrame(s: State, id: nat, framing: Framing, chan: byte, payload: Short): TxFrame
    requires id in s.conns
  {
    var seqnum := if framing == FLAP then Low16(s.conns[id].seqnum + 1) else 0;
    TxFrame(id, framing, chan, seqnum, payload, |s.enqueued|, false)
  }

  function Send(s: State, id: nat, framing: Framing, chan: byte, payload: Short): State
    requires id in s.conns
  {
    var c := s.conns[id];
    if !Suits(c.typ, framing) then s
    else
      var f := NewFrame(s, id, framing, chan, payload);
      var t := SetConn(s, id, if framing == FLAP then c.(seqnum := f.seqnum) else c).(enqueued := s.enqueued + [f]);
      if c.inprogress || !s.immediate then t.(outgoing := s.outgoing + [f]) else t.(handed := s.handed + [f])
  }

  // aim_tx_flushqueue.
  function Flush(s: State): State
    requires TxLive(s.conns, s.outgoing)
  {
    s.(handed := s.handed + Sendable(s.conns, s.outgoing), outgoing := Waiting(s.conns, s.outgoing))
  }

  // connkill_real: the connection's frames count as handled, and it is freed.
  function KillReal(s: State, id: nat): State {
    s.(outgoing := TxCleaned(s.outgoing, id), incoming := RxCleaned(s.incoming, id), conns := s.conns - {id})
  }

  // aim_conn_kill.
  function Kill(s: State, id: nat): State {
    if id in s.connlist then KillReal(s, id).(connlist := Unlisted(s.connlist, id)) else s
  }

  function KillAll(s: State, ids: seq<nat>): State
    decreases |ids|
  {
    if |ids| == 0 then s else KillAll(KillReal(s, ids[0]), ids[1..])
  }

  // aim_logoff.
  function Logoff(s: State): State {
    KillAll(s, s.connlist).(connlist := [])
  }

  // aim_get_command on a connection that speaks FLAP; got is what came over the socket, or none
  // when it broke.
  function Receive(s: State, id: nat, got: Option<Flap.Frame>): State
    requires id in s.conns
  {
    var c := s.conns[id];
    if !c.open || c.inprogress || c.typ == TYPE_RENDEZVOUS || c.typ == TYPE_RENDEZVOUS_OUT then s
    else
      match got
      case None => SetConn(s, id, Close(c))
      case Some(f) =>
        var newrx := RxFrame(id, FLAP, f.typ, f.seqnum, Cursor(f.payload, 0), |s.received|, 0);
        s.(incoming := s.incoming + [newrx], received := s.received + [newrx])
  }

  // aim_rxdispatch, when it comes back.
  ghost function Handout(s: State, cbs: nat -> nat -> Callback): State
    requires Live(s.conns, s.incoming) && Dispatched(s.conns, s.incoming, cbs).Done?
  {
    s.(incoming := Dispatched(s.conns, s.incoming, cbs).q,
       settled := s.settled + Settled(s.conns, s.incoming, cbs, 0))
  }

  datatype Op =
    | Opened(typ: u16, open: bool, inprogress: bool)
    | Sent(id: nat, framing: Framing, chan: byte, payload: Short)
    | Flushed
    // The connection is made: the status change of aim_conn_completeconnect, in front of its
    // callback and its flush.
    | Connected(id: nat)
    | Shut(id: nat)
    | Killed(id: nat)
    | LoggedOff
    | Arrived(id: nat, got: Option<Flap.Frame>)
    | Handled(cbs: nat -> nat -> Callback)
    | Hooked(id: nat, h: Handler)
    | SetMode(immediate: bool)

  // The connection a step is given must exist. aim_conn_kill looks for it first.
  ghost predicate Given(s: State, op: Op) {
    (op.Sent? || op.Connected? || op.Shut? || op.Arrived? || op.Hooked?) ==> op.id in s.conns
  }

  // A dispatch comes back.
  ghost predicate Returns(s: State, op: Op) {
    op.Handled? ==> Live(s.conns, s.incoming) && Dispatched(s.conns, s.incoming, op.cbs).Done?
  }

  ghost function Step(s: State, op: Op): State
    requires Given(s, op) && Returns(s, op) && TxLive(s.conns, s.outgoing)
  {
    match op
    case Opened(typ, open, inprogress) => NewConn(s, typ, open, inprogress)
    case Sent(id, framing, chan, payload) => Send(s, id, framing, chan, payload)
    case Flushed => Flush(s)
    case Connected(id) => SetConn(s, id, s.conns[id].(inprogress := false))
    case Shut(id) => SetConn(s, id, Close(s.conns[id]))
    case Killed(id) => Kill(s, id)
    case LoggedOff => Logoff(s)
    case Arrived(id, got) => Receive(s, id, got)
    case Handled(cbs) => Handout(s, cbs)
    case Hooked(id, h) =>
      (match AddHandler(s.conns[id].handlerlist, h)
       case None => s
       case Some(list) => SetConn(s, id, s.conns[id].(handlerlist := list)))
    case SetMode(immediate) => s.(immediate := immediate)
  }

  // ----- What every step keeps -----

  // No element twice.
  ghost predicate Once(list: seq<nat>) {
    |list| > 0 ==> list[0] !in list[1..] && Once(list[1..])
  }

  ghost predicate Listed(s: State) {
    && Once(s.connlist)
    && (forall id :: id in s.connlist <==> id in s.conns)
    && (forall id :: id in s.conns ==> id < s.next)
  }

  /** Every frame in either queue that is not handled belongs to a connection in the list, so
      neither a flush nor a dispatch uses one that was freed. */
  ghost predicate Inv(s: State) {
    Listed(s) && TxLive(s.conns, s.outgoing) && Live(s.conns, s.incoming)
  }

  lemma {:induction false} WaitingLive(conns: map<nat, Conn>, fs: seq<TxFrame>)
    requires TxLive(conns, fs)
    ensures TxLive(conns, Waiting(conns, fs))
  {
    if |fs| > 0 {
      WaitingLive(conns, fs[1..]);
      var w, rest := Waiting(conns, fs), Waiting(conns, fs[1..]);
      assert w == rest || w[1..] == rest;
      assert forall k :: 0 < k < |w| && w != rest ==> w[k] == rest[k - 1];
    }
  }

  lemma {:induction false} TxCleanedIs(fs: seq<TxFrame>, id: nat)
    ensures |TxCleaned(fs, id)| == |fs|
    ensures forall k :: 0 <= k < |fs| ==>
              TxCleaned(fs, id)[k] == if fs[k].conn == id then fs[k].(handled := true) else fs[k]
  {
    if |fs| > 0 {
      TxCleanedIs(fs[1..], id);
    }
  }

  lemma {:induction false} RxCleanedIs(fs: seq<RxFrame>, id: nat)
    ensures |RxCleaned(fs, id)| == |fs|
    ensures forall k :: 0 <= k < |fs| ==>
              RxCleaned(fs, id)[k] == if fs[k].handled == 0 && fs[k].conn == id then fs[k].(handled := 1) else fs[k]
  {
    if |fs| > 0 {
      RxCleanedIs(fs[1..], id);
    }
  }

  lemma {:induction false} UnlistedIs(list: seq<nat>, id: nat)
    requires Once(list)
    ensures Once(Unlisted(list, id))
    ensures forall x :: x in Unlisted(list, id) <==> x in list && x != id
  {
    if |list| > 0 {
      assert list == [list[0]] + list[1..];
      UnlistedIs(list[1..], id);
      assert list[0] != id ==> Unlisted(list, id)[1..] == Unlisted(list[1..], id);
    }
  }

  lemma KillRealLive(s: State, id: nat)
    requires TxLive(s.conns, s.outgoing) && Live(s.conns, s.incoming)
    ensures var t := KillReal(s, id); TxLive(t.conns, t.outgoing) && Live(t.conns, t.incoming)
  {
    TxCleanedIs(s.outgoing, id);
    RxCleanedIs(s.incoming, id);
    hide TxCleaned, RxCleaned;
  }

  lemma {:induction false} KillAllLive(s: State, ids: seq<nat>)
    requires TxLive(s.conns, s.outgoing) && Live(s.conns, s.incoming)
    ensures var t := KillAll(s, ids);
            && TxLive(t.conns, t.outgoing) && Live(t.conns, t.incoming)
            && (forall id :: id in t.conns <==> id in s.conns && id !in ids)
    decreases |ids|
  {
    if |ids| > 0 {
      KillRealLive(s, ids[0]);
      KillAllLive(KillReal(s, ids[0]), ids[1..]);
      assert ids == [ids[0]] + ids[1..];
    }
  }

  lemma NewConnKeeps(s: State, typ: u16, open: bool, inprogress: bool)
    requires Inv(s)
    ensures Inv(NewConn(s, typ, open, inprogress))
  {
    var list := [s.next] + s.connlist;
    assert list[1..] == s.connlist;
  }

  lemma SendKeeps(s: State, id: nat, framing: Framing, chan: byte, payload: Short)
    requires Inv(s) && id in s.conns
    ensures Inv(Send(s, id, framing, chan, payload))
  {
  }

  lemma KillKeeps(s: State, id: nat)
    requires Inv(s)
    ensures Inv(Kill(s, id))
  {
    hide TxLive, Live;
    KillRealLive(s, id);
    UnlistedIs(s.connlist, id);
  }

  lemma LogoffKeeps(s: State)
    requires Inv(s)
    ensures Inv(Logoff(s)) && Logoff(s).enqueued == s.enqueued && Logoff(s).immediate == s.immediate
    ensures Logoff(s).received == s.received
  {
    KillAllLive(s, s.connlist);
    KillAllRest(s, s.connlist);
    hide KillAll;
  }

  // Killing leaves the logs and the mode.
  lemma {:induction false} KillAllRest(s: State, ids: seq<nat>)
    ensures KillAll(s, ids).enqueued == s.enqueued && KillAll(s, ids).immediate == s.immediate
    ensures KillAll(s, ids).received == s.received && KillAll(s, ids).settled == s.settled
    decreases |ids|
  {
    if |ids| > 0 {
      KillAllRest(KillReal(s, ids[0]), ids[1..]);
    }
  }

  lemma ReceiveKeeps(s: State, id: nat, got: Option<Flap.Frame>)
    requires Inv(s) && id in s.conns
    ensures Inv(Receive(s, id, got))
  {
  }

  lemma DispatchKeeps(s: State, cbs: nat -> nat -> Callback)
    requires Inv(s) && Dispatched(s.conns, s.incoming, cbs).Done?
    ensures Inv(Handout(s, cbs))
  {
    hide TxLive;
    DispatchConserves(s.conns, s.incoming, cbs, 0);
    RemainingLive(s.conns, s.incoming, cbs, 0);
  }

  lemma StepKeeps(s: State, op: Op)
    requires Inv(s) && Given(s, op) && Returns(s, op)
    ensures Inv(Step(s, op))
  {
    hide NewConn, Send, Kill, Logoff, Receive, Dispatched, Waiting;
    match op
    case Opened(typ, open, inprogress) => NewConnKeeps(s, typ, open, inprogress);
    case Sent(id, framing, chan, payload) => SendKeeps(s, id, framing, chan, payload);
    case Flushed => WaitingLive(s.conns, s.outgoing);
    case Connected(id) =>
    case Shut(id) =>
    case Killed(id) => KillKeeps(s, id);
    case LoggedOff => LogoffKeeps(s);
    case Arrived(id, got) => ReceiveKeeps(s, id, got);
    case Handled(cbs) => DispatchKeeps(s, cbs);
    case Hooked(id, h) =>
    case SetMode(immediate) =>
  }

  // ----- Runs -----

  // ops lead from s to t.
  ghost predicate Run(s: State, ops: seq<Op>, t: State)
    decreases |ops|
  {
    if |ops| == 0 then s == t
    else TxLive(s.conns, s.outgoing) && Given(s, ops[0]) && Returns(s, ops[0]) && Run(Step(s, ops[0]), ops[1..], t)
  }

  lemma {:induction false} RunKeeps(s: State, ops: seq<Op>, t: State)
    requires Inv(s) && Run(s, ops, t)
    ensures Inv(t)
    decreases |ops|
  {
    if |ops| > 0 {
      StepKeeps(s, ops[0]);
      RunKeeps(Step(s, ops[0]), ops[1..], t);
    }
  }

  // No run of the library ever leaves a frame that is not handled without its connection.
  lemma LiveFrames(ops: seq<Op>, t: State)
    requires Run(INITIAL, ops, t)
    ensures Listed(t) && TxLive(t.conns, t.outgoing) && Live(t.conns, t.incoming)
  {
    RunKeeps(INITIAL, ops, t);
  }

  // ----- The order of frames -----

  lemma {:induction false} OfAppend(xs: seq<TxFrame>, ys: seq<TxFrame>, id: nat)
    ensures Of(xs + ys, id) == Of(xs, id) + Of(ys, id)
  {
    if |xs| == 0 {
      assert xs + ys == ys;
    } else {
      OfAppend(xs[1..], ys, id);
      assert (xs + ys)[1..] == xs[1..] + ys;
      var head := if xs[0].conn == id then [xs[0]] else [];
      assert head + (Of(xs[1..], id) + Of(ys, id)) == head + Of(xs[1..], id) + Of(ys, id);
    }
  }

  lemma {:induction false} PendingAppend(fs: seq<TxFrame>, f: TxFrame, id: nat)
    requires !f.handled
    ensures Pending(fs + [f], id) == Pending(fs, id) + if f.conn == id then [f] else []
  {
    if |fs| == 0 {
      assert fs + [f] == [f];
      assert Unsent([f]) == [f] + Unsent([]);
      OfOne(f, id);
    } else {
      PendingAppend(fs[1..], f, id);
      assert (fs + [f])[1..] == fs[1..] + [f];
      PendingNext(fs + [f], id);
      PendingNext(fs, id);
    }
  }

  lemma OfOne(f: TxFrame, id: nat)
    ensures Of([f], id) == if f.conn == id then [f] else []
  {
    var one := [f];
    assert one[1..] == [];
  }

  lemma PendingNext(fs: seq<TxFrame>, id: nat)
    requires |fs| > 0
    ensures Pending(fs, id)
         == if !fs[0].handled && fs[0].conn == id then [fs[0]] + Pending(fs[1..], id) else Pending(fs[1..], id)
  {
    var u := Unsent(fs);
    assert !fs[0].handled ==> u[1..] == Unsent(fs[1..]);
  }

  // A flush sends everything a connection has in the queue, in order, or nothing of it.
  lemma {:induction false} FlushSplits(conns: map<nat, Conn>, fs: seq<TxFrame>, id: nat)
    requires TxLive(conns, fs) && id in conns
    ensures Of(Sendable(conns, fs), id) == if conns[id].inprogress then [] else Pending(fs, id)
    ensures Pending(Waiting(conns, fs), id) == if conns[id].inprogress then Pending(fs, id) else []
  {
    if |fs| > 0 {
      FlushSplits(conns, fs[1..], id);
      PendingNext(fs, id);
      var w, v := Sendable(conns, fs), Waiting(conns, fs);
      if fs[0].handled {
      } else if conns[fs[0].conn].inprogress {
        assert v[1..] == Waiting(conns, fs[1..]);
        PendingNext(v, id);
      } else {
        assert w[1..] == Sendable(conns, fs[1..]);
      }
    }
  }

  lemma {:induction false} CleanedPending(fs: seq<TxFrame>, id: nat, other: nat)
    ensures Pending(TxCleaned(fs, id), other) == if other == id then [] else Pending(fs, other)
  {
    if |fs| > 0 {
      CleanedPending(fs[1..], id, other);
      PendingNext(fs, other);
      var c := TxCleaned(fs, id);
      assert c[1..] == TxCleaned(fs[1..], id);
      PendingNext(c, other);
    }
  }

  ghost predicate Born(fs: seq<TxFrame>, next: nat) {
    forall k :: 0 <= k < |fs| ==> fs[k].conn < next
  }

  ghost predicate Tagged(fs: seq<TxFrame>) {
    forall k :: 0 <= k < |fs| ==> fs[k].tag == k
  }

  // On a FLAP connection the i-th frame has sequence number i, from 1 on, in 16 bits.
  ghost predicate Numbered(c: Conn, fs: seq<TxFrame>) {
    Suits(c.typ, FLAP) ==>
      && c.seqnum == Low16(|fs|)
      && forall i :: 0 <= i < |fs| ==> fs[i].framing == FLAP && fs[i].seqnum == Low16(i + 1)
  }

  // What was handed over and what is waiting make up what was enqueued, in order.
  ghost predicate Sequenced(s: State, id: nat)
    requires id in s.conns
  {
    && Of(s.handed, id) + Pending(s.outgoing, id) == Of(s.enqueued, id)
    && Numbered(s.conns[id], Of(s.enqueued, id))
  }

  ghost predicate Fifo(s: State) {
    && Born(s.handed, s.next) && Born(s.enqueued, s.next) && Tagged(s.enqueued)
    && forall id :: id in s.conns ==> Sequenced(s, id)
  }

  // A frame sent at once while frames of the same connection are waiting.
  predicate Overtakes(s: State, op: Op) {
    && op.Sent? && op.id in s.conns && Suits(s.conns[op.id].typ, op.framing)
    && s.immediate && !s.conns[op.id].inprogress && Pending(s.outgoing, op.id) != []
  }

  lemma {:induction false} OfNone(fs: seq<TxFrame>, id: nat)
    requires forall k :: 0 <= k < |fs| ==> fs[k].conn != id
    ensures Of(fs, id) == []
  {
    if |fs| > 0 {
      OfNone(fs[1..], id);
    }
  }

  lemma {:induction false} PendingNone(conns: map<nat, Conn>, fs: seq<TxFrame>, id: nat)
    requires TxLive(conns, fs) && id !in conns
    ensures Pending(fs, id) == []
  {
    if |fs| > 0 {
      PendingNone(conns, fs[1..], id);
      PendingNext(fs, id);
    }
  }

  lemma {:induction false} SendableBorn(conns: map<nat, Conn>, fs: seq<TxFrame>, next: nat)
    requires TxLive(conns, fs) && forall id :: id in conns ==> id < next
    ensures Born(Sendable(conns, fs), next)
  {
    if |fs| > 0 {
      SendableBorn(conns, fs[1..], next);
    }
  }

  lemma {:induction false} OfIn(fs: seq<TxFrame>, id: nat, i: nat)
    requires i < |Of(fs, id)|
    ensures Of(fs, id)[i] in fs && Of(fs, id)[i].conn == id
  {
    if fs[0].conn != id {
      OfIn(fs[1..], id, i);
    } else if i > 0 {
      OfIn(fs[1..], id, i - 1);
    }
  }

  // Steps that leave the queue and the logs alone, and of a connection its type and number.
  lemma SameFifo(s: State, t: State)
    requires Fifo(s) && s.outgoing == t.outgoing && s.handed == t.handed && s.enqueued == t.enqueued && s.next == t.next
    requires forall id :: id in t.conns ==>
               id in s.conns && s.conns[id].typ == t.conns[id].typ && s.conns[id].seqnum == t.conns[id].seqnum
    ensures Fifo(t)
  {
    hide Of, Pending;
    forall id | id in t.conns ensures Sequenced(t, id) {
      assert Sequenced(s, id);
    }
  }

  lemma NewConnFifo(s: State, typ: u16, open: bool, inprogress: bool)
    requires Inv(s) && Fifo(s)
    ensures Fifo(NewConn(s, typ, open, inprogress))
  {
    OfNone(s.handed, s.next);
    OfNone(s.enqueued, s.next);
    PendingNone(s.conns, s.outgoing, s.next);
    hide Of, Pending, Live;
    var t := NewConn(s, typ, open, inprogress);
    forall id | id in t.conns ensures Sequenced(t, id) {
      assert id != s.next ==> Sequenced(s, id);
    }
  }

  lemma FlushFifo(s: State)
    requires Inv(s) && Fifo(s)
    ensures Fifo(Flush(s))
  {
    hide Of, Pending, Live, Sendable, Waiting;
    var t, w := Flush(s), Sendable(s.conns, s.outgoing);
    SendableBorn(s.conns, s.outgoing, s.next);
    forall id | id in t.conns ensures Sequenced(t, id) {
      assert Sequenced(s, id);
      FlushSplits(s.conns, s.outgoing, id);
      OfAppend(s.handed, w, id);
      assert s.conns[id].inprogress ==> Of(s.handed, id) + [] == Of(s.handed, id);
      assert !s.conns[id].inprogress ==> Of(t.handed, id) + [] == Of(t.handed, id);
    }
  }

  lemma KillRealFifo(s: State, id: nat)
    requires Fifo(s)
    ensures Fifo(KillReal(s, id))
  {
    hide Of, Pending, Live, TxCleaned, RxCleaned;
    var t := KillReal(s, id);
    forall other | other in t.conns ensures Sequenced(t, other) {
      assert Sequenced(s, other);
      CleanedPending(s.outgoing, id, other);
    }
  }

  lemma {:induction false} KillAllFifo(s: State, ids: seq<nat>)
    requires Fifo(s)
    ensures Fifo(KillAll(s, ids))
    decreases |ids|
  {
    if |ids| > 0 {
      KillRealFifo(s, ids[0]);
      KillAllFifo(KillReal(s, ids[0]), ids[1..]);
    }
  }

  // One more frame for a connection.
  lemma NumberedNext(c: Conn, fs: seq<TxFrame>, f: TxFrame, d: Conn)
    requires Numbered(c, fs) && Suits(c.typ, f.framing) && d.typ == c.typ
    requires f.framing == FLAP ==> f.seqnum == Low16(c.seqnum + 1) && d.seqnum == f.seqnum
    ensures Numbered(d, fs + [f])
  {
  }

  lemma LogNext(fs: seq<TxFrame>, f: TxFrame, id: nat)
    ensures Of(fs + [f], id) == if f.conn == id then Of(fs, id) + [f] else Of(fs, id)
  {
    OfOne(f, id);
    OfAppend(fs, [f], id);
  }

  lemma QueueNext(fs: seq<TxFrame>, f: TxFrame, id: nat)
    requires !f.handled
    ensures Pending(fs + [f], id) == if f.conn == id then Pending(fs, id) + [f] else Pending(fs, id)
  {
    PendingAppend(fs, f, id);
  }

  lemma SendSequenced(s: State, id: nat, framing: Framing, chan: byte, payload: Short, other: nat)
    requires id in s.conns && Suits(s.conns[id].typ, framing) && other in s.conns && Sequenced(s, other)
    requires !Overtakes(s, Sent(id, framing, chan, payload))
    ensures Sequenced(Send(s, id, framing, chan, payload), other)
  {
    var f, t := NewFrame(s, id, framing, chan, payload), Send(s, id, framing, chan, payload);
    var h, p, e := Of(s.handed, other), Pending(s.outgoing, other), Of(s.enqueued, other);
    hide Of, Pending;
    LogNext(s.enqueued, f, other);
    LogNext(s.handed, f, other);
    QueueNext(s.outgoing, f, other);
    if id == other {
      NumberedNext(s.conns[id], e, f, t.conns[id]);
      hide Numbered;
      assert h + (p + [f]) == h + p + [f];
      assert p == [] ==> h + [f] + p == h + p + [f];
    } else {
      assert t.conns[other] == s.conns[other];
    }
  }

  // The overtaking frame comes in front of one that was enqueued before it.
  lemma Overtaken(s: State, id: nat, framing: Framing, chan: byte, payload: Short)
    requires id in s.conns && Sequenced(s, id) && Tagged(s.enqueued)
    requires Overtakes(s, Sent(id, framing, chan, payload))
    ensures !Sequenced(Send(s, id, framing, chan, payload), id)
  {
    var f, t := NewFrame(s, id, framing, chan, payload), Send(s, id, framing, chan, payload);
    var h, p, e := Of(s.handed, id), Pending(s.outgoing, id), Of(s.enqueued, id);
    LogNext(s.enqueued, f, id);
    LogNext(s.handed, f, id);
    OfIn(s.enqueued, id, |h|);
    hide Of, Pending;
    assert e[|h|] == p[0];
    assert (e + [f])[|h|] == p[0] && (h + [f] + p)[|h|] == f;
  }

  /** Sending keeps the order exactly when it does not overtake, so always in queue mode. */
  lemma SendFifo(s: State, id: nat, framing: Framing, chan: byte, payload: Short)
    requires Inv(s) && Fifo(s) && id in s.conns
    ensures Fifo(Send(s, id, framing, chan, payload)) <==> !Overtakes(s, Sent(id, framing, chan, payload))
  {
    var t := Send(s, id, framing, chan, payload);
    hide Of, Pending, Sequenced, TxLive, Live;
    if Overtakes(s, Sent(id, framing, chan, payload)) {
      assert Sequenced(s, id);
      Overtaken(s, id, framing, chan, payload);
      assert id in t.conns;
    } else if Suits(s.conns[id].typ, framing) {
      forall other | other in t.conns ensures Sequenced(t, other) {
        assert Sequenced(s, other);
        SendSequenced(s, id, framing, chan, payload, other);
      }
    }
  }

  lemma StepFifo(s: State, op: Op)
    requires Inv(s) && Fifo(s) && Given(s, op) && Returns(s, op)
    ensures Fifo(Step(s, op)) <==> !Overtakes(s, op)
  {
    hide Fifo, Overtakes, NewConn, Send, Flush, KillReal, KillAll, TxLive, Live, Dispatched;
    assert !op.Sent? ==> !Overtakes(s, op) by {
      NotSent(s, op);
    }
    match op
    case Opened(typ, open, inprogress) => NewConnFifo(s, typ, open, inprogress);
    case Sent(id, framing, chan, payload) => SendFifo(s, id, framing, chan, payload);
    case Flushed => FlushFifo(s);
    case Killed(id) =>
      KillRealFifo(s, id);
      SameFifo(KillReal(s, id), KillReal(s, id).(connlist := Unlisted(s.connlist, id)));
    case LoggedOff =>
      KillAllFifo(s, s.connlist);
      SameFifo(KillAll(s, s.connlist), Logoff(s));
    case _ => SameFifo(s, Step(s, op));
  }

  lemma NotSent(s: State, op: Op)
    ensures !op.Sent? ==> !Overtakes(s, op)
  {
  }

  // A run in which nothing overtakes.
  ghost predicate Orderly(s: State, ops: seq<Op>, t: State)
    requires Run(s, ops, t)
    decreases |ops|
  {
    |ops| > 0 ==> !Overtakes(s, ops[0]) && Orderly(Step(s, ops[0]), ops[1..], t)
  }

  lemma {:induction false} RunFifo(s: State, ops: seq<Op>, t: State)
    requires Inv(s) && Fifo(s) && Run(s, ops, t) && Orderly(s, ops, t)
    ensures Fifo(t)
    decreases |ops|
  {
    if |ops| > 0 {
      StepKeeps(s, ops[0]);
      StepFifo(s, ops[0]);
      RunFifo(Step(s, ops[0]), ops[1..], t);
    }
  }

  lemma {:induction false} QueueModeIsOrderly(s: State, ops: seq<Op>, t: State)
    requires Run(s, ops, t) && !s.immediate
    requires forall i :: 0 <= i < |ops| ==> ops[i] != SetMode(true)
    ensures Orderly(s, ops, t)
    decreases |ops|
  {
    if |ops| > 0 {
      StaysQueued(s, ops[0]);
      QueueModeIsOrderly(Step(s, ops[0]), ops[1..], t);
    }
  }

  lemma StaysQueued(s: State, op: Op)
    requires TxLive(s.conns, s.outgoing) && Given(s, op) && Returns(s, op) && !s.immediate && op != SetMode(true)
    ensures !Step(s, op).immediate
  {
    KillAllRest(s, s.connlist);
  }

  /** In every run in queue mode, for every connection that still exists: the frames handed to
      aim_tx_sendframe and then those still waiting are those enqueued, in order, and none twice;
      on a FLAP connection the i-th has sequence number i modulo 65536. */
  lemma QueueModeFifo(ops: seq<Op>, t: State, id: nat)
    requires Run(INITIAL, ops, t) && (forall i :: 0 <= i < |ops| ==> ops[i] != SetMode(true)) && id in t.conns
    ensures Of(t.handed, id) + Pending(t.outgoing, id) == Of(t.enqueued, id)
    ensures Numbered(t.conns[id], Of(t.enqueued, id))
    ensures forall i, j :: 0 <= i < j < |Of(t.enqueued, id)| ==> Of(t.enqueued, id)[i] != Of(t.enqueued, id)[j]
  {
    QueueModeIsOrderly(INITIAL, ops, t);
    RunFifo(INITIAL, ops, t);
    assert Sequenced(t, id);
    OfOnce(t.enqueued, id, 0);
  }

  lemma {:induction false} OfOnce(fs: seq<TxFrame>, id: nat, n: nat)
    requires forall k :: 0 <= k < |fs| ==> fs[k].tag == n + k
    ensures forall i :: 0 <= i < |Of(fs, id)| ==> Of(fs, id)[i].tag >= n
    ensures forall i, j :: 0 <= i < j < |Of(fs, id)| ==> Of(fs, id)[i].tag != Of(fs, id)[j].tag
  {
    if |fs| > 0 {
      OfOnce(fs[1..], id, n + 1);
    }
  }

  // ----- From queue to queue -----

  function OnWire(fs: seq<TxFrame>): (ws: seq<Flap.Frame>)
    ensures |ws| == |fs|
    ensures forall i :: 0 <= i < |fs| ==> ws[i] == Flap.Frame(fs[i].chan, fs[i].seqnum, fs[i].payload)
  {
    if |fs| == 0 then []
    else [Flap.Frame(fs[0].chan, fs[0].seqnum, fs[0].payload)] + OnWire(fs[1..])
  }

  /** What the other end of a FLAP connection reads when the frames handed over go through the
      send loop, however either side cuts up the stream: the first n frames enqueued, with sequence
      numbers 1, 2, 3 and so on. */
  lemma Delivered(ops: seq<Op>, t: State, id: nat, sends: seq<int>, recvs: seq<int>, tail: seq<byte>)
    requires Run(INITIAL, ops, t) && forall i :: 0 <= i < |ops| ==> ops[i] != SetMode(true)
    requires id in t.conns && Suits(t.conns[id].typ, FLAP) && Flap.Steady(sends) && Flap.Steady(recvs)
    requires forall i :: 0 <= i < |Of(t.handed, id)| ==> |Of(t.handed, id)[i].payload| <= Flap.MAX_PAYLOAD
    ensures var handed, queued := Of(t.handed, id), Of(t.enqueued, id);
            var r := Flap.Commands(recvs, Flap.SendFrames(sends, OnWire(handed)).bytes + tail, |handed|);
            && r.Stream? && r.incoming == tail && |r.frames| == |handed| <= |queued|
            && forall i :: 0 <= i < |handed| ==>
                 r.frames[i] == Flap.Frame(queued[i].chan, Low16(i + 1), queued[i].payload)
  {
    QueueModeFifo(ops, t, id);
    var handed := Of(t.handed, id);
    hide Run, Of, Pending, OnWire, Flap.SendFrames, Flap.Commands;
    assert forall i :: 0 <= i < |handed| ==> Of(t.enqueued, id)[i] == handed[i];
    Flap.StreamRoundTrip(sends, recvs, OnWire(handed), tail);
  }

  /** In immediate mode a frame sent by the callback for a connection that was just made goes out
      in front of those enqueued while it was connecting. */
  lemma CallbackOvertakes(first: Short, second: Short)
    ensures var s1 := NewConn(INITIAL.(immediate := true), TYPE_BOS, true, true);
            var s2 := Send(s1, 0, FLAP, 0x02, first);
            var s3 := SetConn(s2, 0, s2.conns[0].(inprogress := false));
            var s4 := Flush(Send(s3, 0, FLAP, 0x02, second));
            && |s4.handed| == 2
            && s4.handed[0] == s4.enqueued[1] && s4.handed[0].payload == second && s4.handed[0].seqnum == 2
            && s4.handed[1] == s4.enqueued[0] && s4.handed[1].payload == first && s4.handed[1].seqnum == 1
  {
    hide Sendable, Waiting;
    var s1 := NewConn(INITIAL.(immediate := true), TYPE_BOS, true, true);
    var s2 := Send(s1, 0, FLAP, 0x02, first);
    var s3 := SetConn(s2, 0, s2.conns[0].(inprogress := false));
    assert s3.outgoing == [NewFrame(s1, 0, FLAP, 0x02, first)];
    var t := Send(s3, 0, FLAP, 0x02, second);
    assert t.handed == [NewFrame(s3, 0, FLAP, 0x02, second)];
    FlushOne(t, NewFrame(s1, 0, FLAP, 0x02, first));
  }

  lemma FlushOne(s: State, f: TxFrame)
    requires s.outgoing == [f] && !f.handled && f.conn in s.conns && !s.conns[f.conn].inprogress
    ensures TxLive(s.conns, s.outgoing) && Flush(s) == s.(handed := s.handed + [f], outgoing := [])
  {
    assert s.outgoing[1..] == [];
    assert Sendable(s.conns, []) == [] && Waiting(s.conns, []) == [];
    assert Sendable(s.conns, s.outgoing) == [f];
    assert Waiting(s.conns, s.outgoing) == [];
  }
}
