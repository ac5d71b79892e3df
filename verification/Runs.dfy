/**
  What runs of the engine do beside keeping frames in order: which frames are enqueued, what a
  closed connection still does, which callbacks can be registered, and what logging off leaves.
*/
module Runs {
  import opened Octets
  import opened Connections
  import opened Dispatch
  import opened Engine
  import opened Sessions
  import Flap

  // ----- The log of enqueued frames -----

  // The frame a step asks for, if the connection's type takes it: OFT frames for the two rendezvous
  // types, FLAP frames for all others.
  function AskedNow(s: State, op: Op): seq<Request> {
    match op
    case Sent(id, framing, chan, payload) =>
      if id in s.conns && (framing == OFT <==> s.conns[id].typ in {0x0101, 0x0102}) then
        [Request(id, framing, chan, payload)]
      else []
    case _ => []
  }

  ghost function Asked(s: State, ops: seq<Op>, t: State): seq<Request>
    requires Run(s, ops, t)
    decreases |ops|
  {
    if |ops| == 0 then [] else AskedNow(s, ops[0]) + Asked(Step(s, ops[0]), ops[1..], t)
  }

  ghost predicate Holds(log: seq<TxFrame>, next: seq<TxFrame>, rs: seq<Request>) {
    && |next| == |log| + |rs| && next[..|log|] == log
    && forall k :: |log| <= k < |next| ==> Meets(next[k], rs[k - |log|])
  }

  predicate Meets(f: TxFrame, r: Request) {
    f.conn == r.id && f.framing == r.framing && f.chan == r.chan && f.payload == r.payload && !f.handled
  }

  lemma HoldsBoth(a: seq<TxFrame>, b: seq<TxFrame>, c: seq<TxFrame>, rs: seq<Request>, ss: seq<Request>)
    requires Holds(a, b, rs) && Holds(b, c, ss)
    ensures Holds(a, c, rs + ss)
  {
    assert c[..|a|] == c[..|b|][..|a|] == a;
    assert forall k :: |a| <= k < |b| ==> c[k] == c[..|b|][k];
  }

  lemma StepEnqueues(s: State, op: Op)
    requires Given(s, op) && Returns(s, op) && TxLive(s.conns, s.outgoing)
    ensures Holds(s.enqueued, Step(s, op).enqueued, AskedNow(s, op))
  {
    hide KillAll, TxLive, Live, Dispatched, Settled, Waiting, Sendable, TxCleaned, RxCleaned, Unlisted;
    KillAllRest(s, s.connlist);
  }

  /** Over every run, the frames enqueued are those asked for, one for one and in order, each with
      the channel and the payload it was asked for with. */
  lemma {:induction false} EnqueuedAreAsked(s: State, ops: seq<Op>, t: State)
    requires Run(s, ops, t)
    ensures Holds(s.enqueued, t.enqueued, Asked(s, ops, t))
    decreases |ops|
  {
    if |ops| > 0 {
      var m := Step(s, ops[0]);
      StepEnqueues(s, ops[0]);
      hide Step, AskedNow, Holds;
      EnqueuedAreAsked(m, ops[1..], t);
      HoldsBoth(s.enqueued, m.enqueued, t.enqueued, AskedNow(s, ops[0]), Asked(m, ops[1..], t));
    } else {
      assert t.enqueued[..|s.enqueued|] == s.enqueued;
    }
  }

  // ----- Connections -----

  // What a step leaves of the connections there were.
  ghost predicate Aged(s: State, t: State) {
    && s.next <= t.next
    && forall id :: id in t.conns && id < s.next ==>
         id in s.conns && t.conns[id].typ == s.conns[id].typ && (t.conns[id].open ==> s.conns[id].open)
  }

  lemma {:induction false} KillAllConns(s: State, ids: seq<nat>)
    ensures KillAll(s, ids).next == s.next
    ensures forall id :: id in KillAll(s, ids).conns <==> id in s.conns && id !in ids
    ensures forall id :: id in KillAll(s, ids).conns ==> KillAll(s, ids).conns[id] == s.conns[id]
    decreases |ids|
  {
    if |ids| > 0 {
      KillAllConns(KillReal(s, ids[0]), ids[1..]);
      hide KillAll;
      assert ids == [ids[0]] + ids[1..];
      assert forall id :: id in ids <==> id == ids[0] || id in ids[1..];
      KillAllNext(s, ids);
    }
  }

  lemma StepAges(s: State, op: Op)
    requires Inv(s) && Given(s, op) && Returns(s, op)
    ensures Aged(s, Step(s, op))
  {
    hide KillAll, TxLive, Live, Dispatched, Settled, Waiting, Sendable, TxCleaned, RxCleaned, Once, Unlisted;
    KillAllConns(s, s.connlist);
  }

  /** Over every run a connection keeps its type, and one that is closed or gone stays so. */
  lemma {:induction false} StaysClosed(s: State, ops: seq<Op>, t: State)
    requires Inv(s) && Run(s, ops, t)
    ensures Aged(s, t)
    decreases |ops|
  {
    if |ops| > 0 {
      StepKeeps(s, ops[0]);
      StepAges(s, ops[0]);
      hide Inv, Step;
      StaysClosed(Step(s, ops[0]), ops[1..], t);
    }
  }

  /** After a broken read nothing is ever received on the connection again: whatever happens in
      between, reading from it changes nothing. */
  lemma BrokenForGood(s: State, id: nat, ops: seq<Op>, t: State, got: Option<Flap.Frame>)
    requires Inv(s) && id in s.conns && s.conns[id].typ !in {0x0101, 0x0102} && !s.conns[id].inprogress
    requires Run(Receive(s, id, None), ops, t) && id in t.conns
    ensures !t.conns[id].open && Receive(t, id, got) == t
  {
    ReceiveKeeps(s, id, None);
    hide Run;
    var m := Receive(s, id, None);
    assert !m.conns[id].open && m.next == s.next;
    StaysClosed(m, ops, t);
  }

  /** A new connection reads FLAP frames exactly when it is open, has not still to be connected and is
      no rendezvous; and once closed it has no callbacks. */
  lemma FreshConnection(s: State, typ: u16, open: bool, inprogress: bool, f: Flap.Frame, family: u16, snac: u16)
    ensures var t := NewConn(s, typ, open, inprogress);
            && (Receive(t, s.next, Some(f)) != t <==> open && !inprogress && typ !in {0x0101, 0x0102})
            && (Receive(t, s.next, None) != t ==>
                  CallHandler(Receive(t, s.next, None).conns[s.next].handlerlist, family, snac) == None)
            && t.conns[s.next].seqnum == 0
  {
    FirstForIn([], family, snac);
    FirstForIn([], family, 0xffff);
  }

  lemma ClosedHasNone(c: Conn, family: u16, typ: u16)
    ensures CallHandler(Close(c).handlerlist, family, typ) == None && !Close(c).open
    ensures Close(c).typ == c.typ && Close(c).seqnum == c.seqnum
  {
    FirstForIn([], family, typ);
    FirstForIn([], family, 0xffff);
  }

  // The connection list runs from the newest to the oldest.
  ghost predicate Newest(list: seq<nat>) {
    |list| > 0 ==> (forall x :: x in list[1..] ==> x < list[0]) && Newest(list[1..])
  }

  lemma {:induction false} UnlistedNewest(list: seq<nat>, id: nat)
    requires Newest(list)
    ensures Newest(Unlisted(list, id))
    ensures forall x :: x in Unlisted(list, id) ==> x in list
  {
    if |list| > 0 {
      UnlistedNewest(list[1..], id);
      assert list == [list[0]] + list[1..];
      assert list[0] != id ==> Unlisted(list, id)[1..] == Unlisted(list[1..], id);
    }
  }

  lemma {:induction false} NewestFirst(s: State, ops: seq<Op>, t: State)
    requires Inv(s) && Run(s, ops, t) && Newest(s.connlist)
    ensures Newest(t.connlist)
    decreases |ops|
  {
    if |ops| > 0 {
      var m := Step(s, ops[0]);
      StepKeeps(s, ops[0]);
      UnlistedNewest(s.connlist, if ops[0].Killed? then ops[0].id else 0);
      assert Newest(m.connlist) by {
        hide Run, TxLive, Live, Dispatched, KillAll;
        assert ([s.next] + s.connlist)[1..] == s.connlist;
      }
      hide Inv, Step;
      NewestFirst(m, ops[1..], t);
    }
  }

  /** Logging off leaves no connection, no frame to send and none to hand out. */
  lemma LoggedOffIsEmpty(s: State)
    requires Inv(s)
    ensures var t := Logoff(s);
            && t.connlist == [] && t.conns == map[] && Unsent(t.outgoing) == [] && Purged(t.incoming) == []
            && t.handed == s.handed && t.settled == s.settled
  {
    LogoffKeeps(s);
    KillAllConns(s, s.connlist);
    KillAllLogs(s, s.connlist);
    var t := Logoff(s);
    hide KillAll, Once;
    NothingUnsent(t.outgoing);
    NothingLeft(t.incoming);
  }

  lemma {:induction false} KillAllLogs(s: State, ids: seq<nat>)
    ensures KillAll(s, ids).handed == s.handed && KillAll(s, ids).settled == s.settled
    decreases |ids|
  {
    if |ids| > 0 {
      KillAllLogs(KillReal(s, ids[0]), ids[1..]);
    }
  }

  lemma {:induction false} NothingUnsent(fs: seq<TxFrame>)
    requires forall k :: 0 <= k < |fs| ==> fs[k].handled
    ensures Unsent(fs) == []
  {
    if |fs| > 0 {
      NothingUnsent(fs[1..]);
    }
  }

  lemma {:induction false} NothingLeft(q: seq<RxFrame>)
    requires forall k :: 0 <= k < |q| ==> q[k].handled != 0
    ensures Purged(q) == []
  {
    if |q| > 0 {
      NothingLeft(q[1..]);
    }
  }

  // ----- Callbacks -----

  // The SNACs the library keeps to itself.
  predicate Private(h: Handler) {
    h.family == 0x0001 && h.typ in {0x0002, 0x0003, 0x0006, 0x0007, 0x0008, 0x0017, 0x0018}
  }

  ghost predicate NonePrivate(s: State) {
    forall id :: id in s.conns ==> forall h :: h in s.conns[id].handlerlist ==> !Private(h)
  }

  lemma StepHooks(s: State, op: Op)
    requires Inv(s) && Given(s, op) && Returns(s, op) && NonePrivate(s)
    ensures NonePrivate(Step(s, op))
  {
    hide KillAll, TxLive, Live, Dispatched, Settled, Waiting, Sendable, TxCleaned, RxCleaned, Once, Unlisted;
    KillAllConns(s, s.connlist);
  }

  lemma {:induction false} RunHooks(s: State, ops: seq<Op>, t: State)
    requires Inv(s) && NonePrivate(s) && Run(s, ops, t)
    ensures NonePrivate(t)
    decreases |ops|
  {
    if |ops| > 0 {
      StepKeeps(s, ops[0]);
      StepHooks(s, ops[0]);
      hide Inv, Step, NonePrivate;
      RunHooks(Step(s, ops[0]), ops[1..], t);
    }
  }

  /** Over every run, a lookup for a SNAC the library keeps to itself finds at most the default
      callback of family 1; a registration for any other SNAC is accepted at all times. */
  lemma PrivateStays(ops: seq<Op>, t: State, id: nat, h: Handler)
    requires Run(INITIAL, ops, t) && id in t.conns
    ensures var list := t.conns[id].handlerlist;
            && (Private(h) ==> CallHandler(list, h.family, h.typ) == CallHandler(list, 0x0001, 0xffff))
            && (AddHandler(list, h) == if Private(h) then None else Some(list + [h]))
  {
    RunHooks(INITIAL, ops, t);
    hide Run;
    if Private(h) {
      FirstForIn(t.conns[id].handlerlist, h.family, h.typ);
    }
  }

  lemma {:induction false} FirstForIn(list: seq<Handler>, family: u16, typ: u16)
    requires forall h :: h in list ==> h.family != family || h.typ != typ
    ensures FirstFor(list, family, typ) == None
  {
    if |list| > 0 {
      FirstForIn(list[1..], family, typ);
    }
  }
}
