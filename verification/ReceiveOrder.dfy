/**
  The order in which received frames are handed out (src/rxqueue.c and aim_rxdispatch of
  src/rxhandlers.c): from what arrives on a connection, through the receive queue, to the modules.
*/
module ReceiveOrder {
  import opened Octets
  import opened ByteStream
  import opened Connections
  import opened Dispatch
  import opened Engine
  import Flap

  // The frames of a connection.
  function RxOf(fs: seq<RxFrame>, id: nat): seq<RxFrame> {
    if |fs| == 0 then [] else if fs[0].conn == id then [fs[0]] + RxOf(fs[1..], id) else RxOf(fs[1..], id)
  }

  // The frames of a connection that still have to be handed out, as they were received.
  function RxPending(fs: seq<RxFrame>, id: nat): seq<RxFrame> {
    if |fs| == 0 then []
    else if fs[0].handled == 0 && fs[0].conn == id then [Core(fs[0])] + RxPending(fs[1..], id)
    else RxPending(fs[1..], id)
  }

  lemma {:induction false} RxOfAppend(xs: seq<RxFrame>, ys: seq<RxFrame>, id: nat)
    ensures RxOf(xs + ys, id) == RxOf(xs, id) + RxOf(ys, id)
  {
    if |xs| == 0 {
      assert xs + ys == ys;
    } else {
      RxOfAppend(xs[1..], ys, id);
      assert (xs + ys)[1..] == xs[1..] + ys;
      var head := if xs[0].conn == id then [xs[0]] else [];
      assert head + (RxOf(xs[1..], id) + RxOf(ys, id)) == head + RxOf(xs[1..], id) + RxOf(ys, id);
    }
  }

  lemma {:induction false} RxPendingAppend(xs: seq<RxFrame>, ys: seq<RxFrame>, id: nat)
    ensures RxPending(xs + ys, id) == RxPending(xs, id) + RxPending(ys, id)
  {
    if |xs| == 0 {
      assert xs + ys == ys;
    } else {
      RxPendingAppend(xs[1..], ys, id);
      assert (xs + ys)[1..] == xs[1..] + ys;
      var head := if xs[0].handled == 0 && xs[0].conn == id then [Core(xs[0])] else [];
      assert head + (RxPending(xs[1..], id) + RxPending(ys, id)) == head + RxPending(xs[1..], id) + RxPending(ys, id);
    }
  }

  lemma {:induction false} RxOfNone(fs: seq<RxFrame>, id: nat)
    requires forall k :: 0 <= k < |fs| ==> fs[k].conn != id
    ensures RxOf(fs, id) == []
  {
    if |fs| > 0 {
      RxOfNone(fs[1..], id);
    }
  }

  lemma {:induction false} RxPendingNone(fs: seq<RxFrame>, id: nat)
    requires forall k :: 0 <= k < |fs| ==> fs[k].conn != id || fs[k].handled != 0
    ensures RxPending(fs, id) == []
  {
    if |fs| > 0 {
      RxPendingNone(fs[1..], id);
    }
  }

  lemma {:induction false} RxCleanedPending(fs: seq<RxFrame>, id: nat, other: nat)
    ensures RxPending(RxCleaned(fs, id), other) == if other == id then [] else RxPending(fs, other)
  {
    if |fs| > 0 {
      RxCleanedPending(fs[1..], id, other);
      assert RxCleaned(fs, id)[1..] == RxCleaned(fs[1..], id);
    }
  }

  // ----- The queue is in order of receipt -----

  // Every frame of the queue is one that was received, from number low on, each behind those
  // that were received before it.
  ghost predicate Follows(q: seq<RxFrame>, low: nat, received: seq<RxFrame>) {
    |q| > 0 ==>
      && low <= q[0].tag < |received| && Core(q[0]) == received[q[0].tag]
      && Follows(q[1..], q[0].tag + 1, received)
  }

  lemma FollowsLower(q: seq<RxFrame>, low: nat, lower: nat, received: seq<RxFrame>)
    requires Follows(q, low, received) && lower <= low
    ensures Follows(q, lower, received)
  {
  }

  lemma {:induction false} FollowsAppend(q: seq<RxFrame>, low: nat, received: seq<RxFrame>, f: RxFrame)
    requires Follows(q, low, received) && low <= |received| == f.tag && Core(f) == f
    ensures Follows(q + [f], low, received + [f])
  {
    if |q| == 0 {
      assert q + [f] == [f] && [f][1..] == [];
    } else {
      FollowsAppend(q[1..], q[0].tag + 1, received, f);
      assert (q + [f])[1..] == q[1..] + [f];
    }
  }

  lemma {:induction false} FollowsCleaned(q: seq<RxFrame>, low: nat, received: seq<RxFrame>, id: nat)
    requires Follows(q, low, received)
    ensures Follows(RxCleaned(q, id), low, received)
  {
    if |q| > 0 {
      FollowsCleaned(q[1..], q[0].tag + 1, received, id);
      assert RxCleaned(q, id)[1..] == RxCleaned(q[1..], id);
    }
  }

  lemma {:induction false} FollowsRemaining(conns: map<nat, Conn>, q: seq<RxFrame>, cbs: nat -> nat -> Callback,
        i: nat, low: nat, received: seq<RxFrame>)
    requires Live(conns, q) && Follows(q, low, received)
    ensures Follows(Remaining(conns, q, cbs, i), low, received)
  {
    if |q| > 0 {
      FollowsRemaining(conns, q[1..], cbs, i + 1, q[0].tag + 1, received);
      RemainingHead(conns, q, cbs, i);
      hide Remaining, Kept;
      var r, rest := Remaining(conns, q, cbs, i), Remaining(conns, q[1..], cbs, i + 1);
      if r == rest {
        FollowsLower(rest, q[0].tag + 1, low, received);
      }
    }
  }

  // ----- One dispatch -----

  // Frame k, which nobody took last time, is kept again.
  ghost predicate Stays(conns: map<nat, Conn>, q: seq<RxFrame>, cbs: nat -> nat -> Callback, i: nat, k: nat)
    requires Live(conns, q) && k < |q| && q[k].handled == 0
  {
    Kept(conns[q[k].conn], q[k], cbs(i + k))
  }

  lemma RemainingHead(conns: map<nat, Conn>, q: seq<RxFrame>, cbs: nat -> nat -> Callback, i: nat)
    requires Live(conns, q) && |q| > 0
    ensures var r, rest := Remaining(conns, q, cbs, i), Remaining(conns, q[1..], cbs, i + 1);
            if q[0].handled == 0 && Stays(conns, q, cbs, i, 0) then
              |r| > 0 && Core(r[0]) == Core(q[0]) && r[0].handled == 0 && r[1..] == rest
            else r == rest
  {
    if q[0].handled == 0 {
      OneKeeps(conns[q[0].conn], q[0], cbs(i));
    }
    hide One, Kept;
  }

  // No frame of the connection is handed out while one that was received before it is kept.
  ghost predicate Straight(conns: map<nat, Conn>, q: seq<RxFrame>, cbs: nat -> nat -> Callback, i: nat, id: nat)
    requires Live(conns, q)
  {
    forall j, k :: 0 <= j < k < |q| && q[j].handled == 0 && q[k].handled == 0 && q[j].conn == q[k].conn == id ==>
      Stays(conns, q, cbs, i, j) ==> Stays(conns, q, cbs, i, k)
  }

  ghost predicate AllStay(conns: map<nat, Conn>, q: seq<RxFrame>, cbs: nat -> nat -> Callback, i: nat, id: nat)
    requires Live(conns, q)
  {
    forall k :: 0 <= k < |q| && q[k].handled == 0 && q[k].conn == id ==> Stays(conns, q, cbs, i, k)
  }

  lemma StaysNext(conns: map<nat, Conn>, q: seq<RxFrame>, cbs: nat -> nat -> Callback, i: nat, k: nat)
    requires Live(conns, q) && 0 < k < |q| && q[k].handled == 0
    ensures Live(conns, q[1..]) && q[k] == q[1..][k - 1]
    ensures Stays(conns, q, cbs, i, k) == Stays(conns, q[1..], cbs, i + 1, k - 1)
  {
  }

  lemma AllStayNext(conns: map<nat, Conn>, q: seq<RxFrame>, cbs: nat -> nat -> Callback, i: nat, id: nat)
    requires Live(conns, q) && |q| > 0
    ensures Live(conns, q[1..])
    ensures AllStay(conns, q, cbs, i, id) <==>
              (q[0].handled == 0 && q[0].conn == id ==> Stays(conns, q, cbs, i, 0))
              && AllStay(conns, q[1..], cbs, i + 1, id)
  {
    hide Stays;
    forall k | 0 < k < |q| && q[k].handled == 0
      ensures q[k] == q[1..][k - 1] && Stays(conns, q, cbs, i, k) == Stays(conns, q[1..], cbs, i + 1, k - 1)
    {
      StaysNext(conns, q, cbs, i, k);
    }
    if AllStay(conns, q, cbs, i, id) {
      forall k | 0 <= k < |q[1..]| && q[1..][k].handled == 0 && q[1..][k].conn == id
        ensures Stays(conns, q[1..], cbs, i + 1, k)
      {
        assert q[k + 1] == q[1..][k];
      }
    }
  }

  lemma StraightNext(conns: map<nat, Conn>, q: seq<RxFrame>, cbs: nat -> nat -> Callback, i: nat, id: nat)
    requires Live(conns, q) && |q| > 0
    ensures Live(conns, q[1..])
    ensures Straight(conns, q, cbs, i, id) <==>
              (q[0].handled == 0 && q[0].conn == id && Stays(conns, q, cbs, i, 0) ==>
                 AllStay(conns, q[1..], cbs, i + 1, id))
              && Straight(conns, q[1..], cbs, i + 1, id)
  {
    hide Stays;
    forall k | 0 < k < |q| && q[k].handled == 0
      ensures q[k] == q[1..][k - 1] && Stays(conns, q, cbs, i, k) == Stays(conns, q[1..], cbs, i + 1, k - 1)
    {
      StaysNext(conns, q, cbs, i, k);
    }
    var r := q[1..];
    forall k | 0 <= k < |r| ensures r[k] == q[k + 1] {
    }
    if Straight(conns, q, cbs, i, id) {
      forall j, k | 0 <= j < k < |r| && r[j].handled == 0 && r[k].handled == 0 && r[j].conn == r[k].conn == id
        ensures Stays(conns, r, cbs, i + 1, j) ==> Stays(conns, r, cbs, i + 1, k)
      {
        assert q[j + 1] == r[j] && q[k + 1] == r[k];
      }
    }
  }

  lemma {:induction false} NoneSettled(conns: map<nat, Conn>, q: seq<RxFrame>, cbs: nat -> nat -> Callback, i: nat,
        id: nat)
    requires Live(conns, q)
    ensures RxOf(Settled(conns, q, cbs, i), id) == [] <==> AllStay(conns, q, cbs, i, id)
    decreases |q|
  {
    if |q| > 0 {
      AllStayNext(conns, q, cbs, i, id);
      NoneSettled(conns, q[1..], cbs, i + 1, id);
      hide AllStay, Kept;
      var s, rest := Settled(conns, q, cbs, i), Settled(conns, q[1..], cbs, i + 1);
      assert s == rest || s[1..] == rest;
    }
  }

  lemma {:induction false} SettledTags(conns: map<nat, Conn>, q: seq<RxFrame>, cbs: nat -> nat -> Callback, i: nat,
        id: nat, low: nat, received: seq<RxFrame>)
    requires Live(conns, q) && Follows(q, low, received)
    ensures var s := RxOf(Settled(conns, q, cbs, i), id); |s| > 0 ==> s[0].tag >= low
    decreases |q|
  {
    if |q| > 0 {
      SettledTags(conns, q[1..], cbs, i + 1, id, q[0].tag + 1, received);
      hide Kept;
      var s, rest := Settled(conns, q, cbs, i), Settled(conns, q[1..], cbs, i + 1);
      assert s == rest || s[1..] == rest;
    }
  }

  /** What a dispatch hands out of a connection's frames and then what it keeps are those that were
      waiting, in order, exactly when it hands none out behind one that it keeps. */
  lemma {:induction false} DispatchOrder(conns: map<nat, Conn>, q: seq<RxFrame>, cbs: nat -> nat -> Callback,
        i: nat, id: nat, low: nat, received: seq<RxFrame>)
    requires Live(conns, q) && Follows(q, low, received)
    ensures RxOf(Settled(conns, q, cbs, i), id) + RxPending(Remaining(conns, q, cbs, i), id) == RxPending(q, id)
            <==> Straight(conns, q, cbs, i, id)
    decreases |q|
  {
    if |q| > 0 {
      var tail := q[1..];
      DispatchOrder(conns, tail, cbs, i + 1, id, q[0].tag + 1, received);
      SettledTags(conns, tail, cbs, i + 1, id, q[0].tag + 1, received);
      NoneSettled(conns, tail, cbs, i + 1, id);
      StraightNext(conns, q, cbs, i, id);
      DispatchHead(conns, q, cbs, i, id);
      hide Settled, Remaining, Straight, AllStay, RxPending, RxOf, Live, Follows, Stays, Core;
      var s, r, p := RxOf(Settled(conns, tail, cbs, i + 1), id), RxPending(Remaining(conns, tail, cbs, i + 1), id),
                     RxPending(tail, id);
      if q[0].handled == 0 && q[0].conn == id {
        FrontCancels(Core(q[0]), s, r, p);
      }
    }
  }

  lemma FrontCancels(f: RxFrame, s: seq<RxFrame>, r: seq<RxFrame>, p: seq<RxFrame>)
    ensures [f] + s + r == [f] + p <==> s + r == p
    ensures |s| == 0 || s[0] != f ==> (s + ([f] + r) == [f] + p <==> s == [] && s + r == p)
  {
    assert [f] + s + r == [f] + (s + r);
    assert ([f] + (s + r))[1..] == s + r && ([f] + p)[1..] == p;
    if |s| > 0 && s[0] != f {
      assert (s + ([f] + r))[0] == s[0] && ([f] + p)[0] == f;
    }
    if |s| == 0 {
      assert s + ([f] + r) == [f] + r && ([f] + r)[1..] == r && s + r == r;
    }
  }

  // What the frame at the front adds.
  lemma DispatchHead(conns: map<nat, Conn>, q: seq<RxFrame>, cbs: nat -> nat -> Callback, i: nat, id: nat)
    requires Live(conns, q) && |q| > 0
    ensures var s, r, p := RxOf(Settled(conns, q[1..], cbs, i + 1), id),
                           RxPending(Remaining(conns, q[1..], cbs, i + 1), id), RxPending(q[1..], id);
            var mine := q[0].handled == 0 && q[0].conn == id;
            && RxPending(q, id) == (if mine then [Core(q[0])] + p else p)
            && RxOf(Settled(conns, q, cbs, i), id)
               == (if mine && !Stays(conns, q, cbs, i, 0) then [Core(q[0])] + s else s)
            && RxPending(Remaining(conns, q, cbs, i), id)
               == (if mine && Stays(conns, q, cbs, i, 0) then [Core(q[0])] + r else r)
  {
    RemainingHead(conns, q, cbs, i);
    hide Remaining, Kept;
    var s, rest := Settled(conns, q, cbs, i), Settled(conns, q[1..], cbs, i + 1);
    assert s == rest || s[1..] == rest;
  }

  /** Whatever is kept, a dispatch loses no frame and hands none out twice. */
  lemma {:induction false} DispatchAll(conns: map<nat, Conn>, q: seq<RxFrame>, cbs: nat -> nat -> Callback,
        i: nat, id: nat)
    requires Live(conns, q)
    ensures multiset(RxOf(Settled(conns, q, cbs, i), id)) + multiset(RxPending(Remaining(conns, q, cbs, i), id))
         == multiset(RxPending(q, id))
    decreases |q|
  {
    if |q| > 0 {
      DispatchAll(conns, q[1..], cbs, i + 1, id);
      DispatchHead(conns, q, cbs, i, id);
      hide Settled, Remaining, RxPending, RxOf, Live, Stays;
    }
  }

  // ----- Steps -----

  // The frames handed out of a connection and then those still waiting are those received.
  ghost predicate InOrder(s: State, id: nat) {
    RxOf(s.settled, id) + RxPending(s.incoming, id) == RxOf(s.received, id)
  }

  ghost predicate NoneLost(s: State, id: nat) {
    multiset(RxOf(s.settled, id)) + multiset(RxPending(s.incoming, id)) == multiset(RxOf(s.received, id))
  }

  // The frames received are numbered, and belong to connections there have been.
  ghost predicate Log(s: State) {
    && Follows(s.incoming, 0, s.received)
    && (forall k :: 0 <= k < |s.received| ==>
          s.received[k].tag == k && Core(s.received[k]) == s.received[k] && s.received[k].conn < s.next)
    && (forall k :: 0 <= k < |s.settled| ==> s.settled[k].conn < s.next)
    && (forall id :: id in s.conns ==> NoneLost(s, id))
  }

  ghost predicate Ordered(s: State) {
    forall id :: id in s.conns ==> InOrder(s, id)
  }

  // A dispatch that hands out a frame behind one of the same connection that it keeps.
  ghost predicate Skips(s: State, op: Op)
    requires Returns(s, op)
  {
    op.Handled? && exists id :: id in s.conns && !Straight(s.conns, s.incoming, op.cbs, 0, id)
  }

  lemma NewConnLog(s: State, typ: u16, open: bool, inprogress: bool)
    requires Inv(s) && Log(s)
    ensures var t := NewConn(s, typ, open, inprogress); Log(t) && (Ordered(t) <==> Ordered(s))
  {
    RxOfNone(s.received, s.next);
    RxOfNone(s.settled, s.next);
    RxPendingNone(s.incoming, s.next);
    hide RxOf, RxPending, Follows, TxLive, Live, Core;
    var t := NewConn(s, typ, open, inprogress);
    assert s.next !in s.conns;
    assert InOrder(t, s.next) && NoneLost(t, s.next);
    assert forall id :: id in s.conns ==> InOrder(s, id) == InOrder(t, id) && NoneLost(s, id) == NoneLost(t, id);
    hide InOrder, NoneLost;
  }

  // Steps that leave the receive queue, its logs and the names of the connections alone.
  lemma SameLog(s: State, t: State)
    requires s.incoming == t.incoming && s.received == t.received && s.settled == t.settled && s.next == t.next
    requires s.conns.Keys == t.conns.Keys
    ensures Log(s) ==> Log(t)
    ensures Ordered(t) <==> Ordered(s)
  {
    hide Follows, Core, RxOf, RxPending;
    assert forall id :: id in t.conns.Keys ==>
             id in s.conns && InOrder(s, id) == InOrder(t, id) && NoneLost(s, id) == NoneLost(t, id);
  }

  lemma ReceiveLog(s: State, id: nat, got: Option<Flap.Frame>)
    requires Inv(s) && Log(s) && id in s.conns
    ensures var t := Receive(s, id, got); Log(t) && (Ordered(t) <==> Ordered(s))
  {
    hide Log, Ordered, TxLive, Live;
    var t := Receive(s, id, got);
    if t.received != s.received {
      NextReceived(s, t, t.received[|s.received|]);
    } else {
      SameLog(s, t);
    }
  }

  lemma NextReceived(s: State, t: State, f: RxFrame)
    requires Log(s) && t == s.(incoming := s.incoming + [f], received := s.received + [f])
    requires f.handled == 0 && f.data.pos == 0 && f.tag == |s.received| && f.conn < s.next
    ensures Log(t) && (Ordered(t) <==> Ordered(s))
  {
    CoreOf(f);
    FollowsAppend(s.incoming, 0, s.received, f);
    hide Follows, Core, RxOf, RxPending, InOrder, NoneLost;
    forall other | other in s.conns
      ensures (InOrder(t, other) <==> InOrder(s, other)) && NoneLost(t, other)
    {
      ReceiveOne(s, t, f, other);
    }
  }

  lemma ReceiveOne(s: State, t: State, f: RxFrame, id: nat)
    requires t.settled == s.settled && t.incoming == s.incoming + [f] && t.received == s.received + [f]
    requires f.handled == 0 && f.data.pos == 0
    ensures InOrder(t, id) <==> InOrder(s, id)
    ensures NoneLost(s, id) ==> NoneLost(t, id)
  {
    var one := [f];
    RxOfAppend(s.received, one, id);
    RxPendingAppend(s.incoming, one, id);
    RxOne(f, id);
    hide RxOf, RxPending;
    OneBehind(RxOf(s.settled, id), RxPending(s.incoming, id), RxOf(s.received, id), RxOf(one, id));
  }

  lemma OneBehind(d: seq<RxFrame>, p: seq<RxFrame>, e: seq<RxFrame>, one: seq<RxFrame>)
    ensures d + (p + one) == e + one <==> d + p == e
    ensures multiset(d) + multiset(p) == multiset(e) ==>
              multiset(d) + multiset(p + one) == multiset(e + one)
  {
    assert d + (p + one) == d + p + one;
    SameFront(d + p, e, one);
  }

  lemma SameFront(xs: seq<RxFrame>, ys: seq<RxFrame>, zs: seq<RxFrame>)
    ensures xs + zs == ys + zs <==> xs == ys
  {
    if xs + zs == ys + zs {
      assert |xs| == |ys| && (xs + zs)[..|xs|] == xs && (ys + zs)[..|xs|] == ys;
    }
  }

  lemma CoreOf(f: RxFrame)
    ensures Core(f) == f <==> f.handled == 0 && f.data.pos == 0
  {
  }

  lemma RxOne(f: RxFrame, id: nat)
    requires f.handled == 0 && f.data.pos == 0
    ensures RxOf([f], id) == RxPending([f], id) == if f.conn == id then [f] else []
  {
    var one := [f];
    assert one[1..] == [] && RxOf([], id) == [] && RxPending([], id) == [];
    assert Core(f) == f;
  }

  lemma KillRealLog(s: State, id: nat)
    requires Log(s)
    ensures var t := KillReal(s, id); Log(t) && (Ordered(s) ==> Ordered(t))
  {
    FollowsCleaned(s.incoming, 0, s.received, id);
    hide Follows, TxCleaned, RxCleaned, RxOf, RxPending, Core;
    var t := KillReal(s, id);
    forall other | other in t.conns
      ensures NoneLost(t, other) && InOrder(t, other) == InOrder(s, other)
    {
      assert NoneLost(s, other);
      RxCleanedPending(s.incoming, id, other);
    }
  }

  lemma {:induction false} KillAllLog(s: State, ids: seq<nat>)
    requires Log(s)
    ensures var t := KillAll(s, ids); Log(t) && (Ordered(s) ==> Ordered(t))
    decreases |ids|
  {
    if |ids| > 0 {
      KillRealLog(s, ids[0]);
      hide KillReal, Log, Ordered;
      KillAllLog(KillReal(s, ids[0]), ids[1..]);
    }
  }

  lemma {:induction false} SettledBorn(conns: map<nat, Conn>, q: seq<RxFrame>, cbs: nat -> nat -> Callback, i: nat)
    requires Live(conns, q)
    ensures forall k :: 0 <= k < |Settled(conns, q, cbs, i)| ==> Settled(conns, q, cbs, i)[k].conn in conns
    decreases |q|
  {
    if |q| > 0 {
      SettledBorn(conns, q[1..], cbs, i + 1);
      hide Kept;
    }
  }

  lemma HandoutLog(s: State, cbs: nat -> nat -> Callback)
    requires Inv(s) && Log(s) && Returns(s, Handled(cbs))
    ensures var t := Handout(s, cbs); Log(t) && (Ordered(s) ==> (Ordered(t) <==> !Skips(s, Handled(cbs))))
  {
    var t, out := Handout(s, cbs), Settled(s.conns, s.incoming, cbs, 0);
    DispatchConserves(s.conns, s.incoming, cbs, 0);
    FollowsRemaining(s.conns, s.incoming, cbs, 0, 0, s.received);
    SettledBorn(s.conns, s.incoming, cbs, 0);
    hide Follows, Core, TxLive, Live, Settled, Straight, InOrder, NoneLost, Dispatched, Remaining;
    forall id | id in t.conns
      ensures NoneLost(t, id) && (InOrder(s, id) ==> (InOrder(t, id) <==> Straight(s.conns, s.incoming, cbs, 0, id)))
    {
      HandoutOne(s, t, cbs, id);
    }
  }

  lemma HandoutOne(s: State, t: State, cbs: nat -> nat -> Callback, id: nat)
    requires Live(s.conns, s.incoming) && Follows(s.incoming, 0, s.received)
    requires t.settled == s.settled + Settled(s.conns, s.incoming, cbs, 0) && t.received == s.received
    requires t.incoming == Remaining(s.conns, s.incoming, cbs, 0)
    ensures InOrder(s, id) ==> (InOrder(t, id) <==> Straight(s.conns, s.incoming, cbs, 0, id))
    ensures NoneLost(s, id) ==> NoneLost(t, id)
  {
    var out := Settled(s.conns, s.incoming, cbs, 0);
    DispatchOrder(s.conns, s.incoming, cbs, 0, id, 0, s.received);
    DispatchAll(s.conns, s.incoming, cbs, 0, id);
    RxOfAppend(s.settled, out, id);
    hide Follows, RxOf, RxPending, Core, Live, Settled, Remaining, Straight;
    SameBehind(RxOf(s.settled, id), RxOf(out, id), RxPending(t.incoming, id), RxPending(s.incoming, id));
  }

  lemma SameBehind(d: seq<RxFrame>, o: seq<RxFrame>, r: seq<RxFrame>, p: seq<RxFrame>)
    ensures d + o + r == d + p <==> o + r == p
  {
    assert d + o + r == d + (o + r);
    assert (d + (o + r))[|d|..] == o + r && (d + p)[|d|..] == p;
  }

  lemma StepLog(s: State, op: Op)
    requires Inv(s) && Log(s) && Given(s, op) && Returns(s, op)
    ensures var t := Step(s, op); Log(t) && (Ordered(s) ==> (Ordered(t) <==> !Skips(s, op)))
  {
    hide Log, Ordered, NewConn, Send, Flush, KillReal, KillAll, TxLive, Live, Dispatched, Receive, Straight, Handout;
    match op
    case Opened(typ, open, inprogress) => NewConnLog(s, typ, open, inprogress);
    case Killed(id) =>
      KillRealLog(s, id);
      SameLog(KillReal(s, id), KillReal(s, id).(connlist := Unlisted(s.connlist, id)));
    case LoggedOff =>
      KillAllLog(s, s.connlist);
      SameLog(KillAll(s, s.connlist), Logoff(s));
    case Arrived(id, got) => ReceiveLog(s, id, got);
    case Handled(cbs) => HandoutLog(s, cbs);
    case Sent(id, framing, chan, payload) =>
      SendQueues(s, id, framing, chan, payload);
      SameLog(s, Step(s, op));
    case Flushed =>
      FlushQueues(s);
      SameLog(s, Step(s, op));
    case _ => SameLog(s, Step(s, op));
  }

  lemma SendQueues(s: State, id: nat, framing: Framing, chan: byte, payload: Short)
    requires id in s.conns
    ensures var t := Send(s, id, framing, chan, payload);
            && s.incoming == t.incoming && s.received == t.received && s.settled == t.settled && s.next == t.next
            && s.conns.Keys == t.conns.Keys
  {
  }

  lemma FlushQueues(s: State)
    requires TxLive(s.conns, s.outgoing)
    ensures var t := Flush(s);
            && s.incoming == t.incoming && s.received == t.received && s.settled == t.settled && s.next == t.next
            && s.conns == t.conns
  {
  }

  // ----- Runs -----

  // A run in which no dispatch skips a frame.
  ghost predicate Patient(s: State, ops: seq<Op>, t: State)
    requires Run(s, ops, t)
    decreases |ops|
  {
    |ops| > 0 ==> !Skips(s, ops[0]) && Patient(Step(s, ops[0]), ops[1..], t)
  }

  lemma {:induction false} RunLog(s: State, ops: seq<Op>, t: State)
    requires Inv(s) && Log(s) && Run(s, ops, t)
    ensures Log(t)
    ensures Ordered(s) && Patient(s, ops, t) ==> Ordered(t)
    decreases |ops|
  {
    if |ops| > 0 {
      StepKeeps(s, ops[0]);
      StepLog(s, ops[0]);
      hide Inv, Log, Ordered, Skips, Step;
      RunLog(Step(s, ops[0]), ops[1..], t);
    }
  }

  /** Over every run, for every connection that still exists: each frame received has either been
      handed out or is in the queue, once, and the queue is in order of receipt. */
  lemma NoFrameLost(ops: seq<Op>, t: State, id: nat)
    requires Run(INITIAL, ops, t) && id in t.conns
    ensures multiset(RxOf(t.settled, id)) + multiset(RxPending(t.incoming, id)) == multiset(RxOf(t.received, id))
    ensures Follows(t.incoming, 0, t.received)
  {
    RunLog(INITIAL, ops, t);
    hide Run, Follows, RxOf, RxPending;
    assert NoneLost(t, id);
  }

  /** Over every run in which no frame is handed out behind one that is kept, for every connection
      that still exists: the frames handed out and then those in the queue are those received, in
      order. */
  lemma ReceiveFifo(ops: seq<Op>, t: State, id: nat)
    requires Run(INITIAL, ops, t) && Patient(INITIAL, ops, t) && id in t.conns
    ensures RxOf(t.settled, id) + RxPending(t.incoming, id) == RxOf(t.received, id)
  {
    RunLog(INITIAL, ops, t);
    assert InOrder(t, id);
  }

  /** A frame on channel 1 that the client's callback does not take stays in the queue, and a frame
      that came behind it is handed out first. */
  lemma KeptIsOvertaken(first: Short, second: Short)
    ensures var conns := map[0 := Conn(TYPE_BOS, true, false, 0, [Handler(0xffff, 0x0005, 7)])];
            var f := RxFrame(0, FLAP, 0x01, 1, Cursor(first, 0), 0, 0);
            var g := RxFrame(0, FLAP, 0x05, 2, Cursor(second, 0), 1, 0);
            var cbs := (i: nat) => (k: nat) => Callback(0, 0);
            && Live(conns, [f, g]) && Handle(conns, [f, g], cbs, 0).Done?
            && Settled(conns, [f, g], cbs, 0) == [g] && Remaining(conns, [f, g], cbs, 0) == [f]
            && !Straight(conns, [f, g], cbs, 0, 0)
  {
    var c := Conn(TYPE_BOS, true, false, 0, [Handler(0xffff, 0x0005, 7)]);
    var conns := map[0 := c];
    var f := RxFrame(0, FLAP, 0x01, 1, Cursor(first, 0), 0, 0);
    var g := RxFrame(0, FLAP, 0x05, 2, Cursor(second, 0), 1, 0);
    var cbs := (i: nat) => (k: nat) => Callback(0, 0);
    FirstIsKept(c, f, cbs(0));
    LastChanceIsMisc(c, g, cbs(1));
    hide One, CallHandler, Offered;
    var q, r, none := [f, g], [g], [];
    assert q[1..] == r && r[1..] == none;
    assert Handle(conns, none, cbs, 2).Done?;
    assert Handle(conns, r, cbs, 1).Done?;
    assert Settled(conns, none, cbs, 2) == none && Remaining(conns, none, cbs, 2) == none;
    assert Settled(conns, r, cbs, 1) == r && Remaining(conns, r, cbs, 1) == none;
    assert Core(g) == g && Moved(f, One(c, f, cbs(0))) == f;
    assert q[0] == f && q[1] == g && Stays(conns, q, cbs, 0, 0) && !Stays(conns, q, cbs, 0, 1);
  }

  lemma FirstIsKept(c: Conn, f: RxFrame, cb: nat -> Callback)
    requires f.Valid() && f.framing == FLAP && f.chan == 0x01 && c.typ == TYPE_BOS && cb(0) == Callback(0, 0)
    requires c.handlerlist == [Handler(0xffff, 0x0005, 7)]
    ensures Kept(c, f, cb) && One(c, f, cb) == Sets(0, 0, [])
  {
    assert FirstFor(c.handlerlist, 0xffff, 0x0005) == Some(7);
  }

  // ----- From the peer to the modules -----

  // Frames read one after the other from a connection.
  function Arrivals(id: nat, fs: seq<Flap.Frame>): seq<Op> {
    if |fs| == 0 then [] else [Arrived(id, Some(fs[0]))] + Arrivals(id, fs[1..])
  }

  // The queue q behind them: its old frames, and then the new ones in the order of their arrival.
  ghost predicate Appended(q: seq<RxFrame>, r: seq<RxFrame>, id: nat, fs: seq<Flap.Frame>, tag: nat) {
    && |r| == |q| + |fs| && r[..|q|] == q
    && forall k :: 0 <= k < |fs| ==>
         r[|q| + k] == RxFrame(id, FLAP, fs[k].typ, fs[k].seqnum, Cursor(fs[k].payload, 0), tag + k, 0)
  }

  // A connection that aim_get_command reads FLAP frames from.
  predicate Reads(s: State, id: nat) {
    id in s.conns && s.conns[id].open && !s.conns[id].inprogress && s.conns[id].typ !in {0x0101, 0x0102}
  }

  lemma {:induction false} ArrivalsQueue(s: State, id: nat, fs: seq<Flap.Frame>)
    requires Inv(s) && Reads(s, id)
    ensures exists t :: Run(s, Arrivals(id, fs), t)
    ensures forall t :: Run(s, Arrivals(id, fs), t) ==>
              Appended(s.incoming, t.incoming, id, fs, |s.received|)
              && Appended(s.received, t.received, id, fs, |s.received|)
              && t == s.(incoming := t.incoming, received := t.received)
    decreases |fs|
  {
    var ops := Arrivals(id, fs);
    if |fs| == 0 {
      assert Run(s, ops, s);
    } else {
      var m := Step(s, ops[0]);
      assert ops[1..] == Arrivals(id, fs[1..]);
      StepKeeps(s, ops[0]);
      ArrivalsQueue(m, id, fs[1..]);
      hide Inv, Arrivals;
      var t :| Run(m, ops[1..], t);
      assert Run(s, ops, t);
      forall t | Run(s, ops, t)
        ensures Appended(s.incoming, t.incoming, id, fs, |s.received|)
        ensures Appended(s.received, t.received, id, fs, |s.received|)
        ensures t == s.(incoming := t.incoming, received := t.received)
      {
        assert Run(m, ops[1..], t);
        AppendedNext(s.incoming, m.incoming, t.incoming, id, fs, |s.received|);
        AppendedNext(s.received, m.received, t.received, id, fs, |s.received|);
      }
    }
  }

  lemma AppendedNext(q: seq<RxFrame>, m: seq<RxFrame>, r: seq<RxFrame>, id: nat, fs: seq<Flap.Frame>, tag: nat)
    requires |fs| > 0 && Appended(m, r, id, fs[1..], tag + 1)
    requires m == q + [RxFrame(id, FLAP, fs[0].typ, fs[0].seqnum, Cursor(fs[0].payload, 0), tag, 0)]
    ensures Appended(q, r, id, fs, tag)
  {
    assert r[..|q|] == r[..|m|][..|q|] == q;
    assert r[|q|] == r[..|m|][|q|];
    forall k | 0 < k < |fs|
      ensures r[|q| + k] == RxFrame(id, FLAP, fs[k].typ, fs[k].seqnum, Cursor(fs[k].payload, 0), tag + k, 0)
    {
      assert r[|m| + (k - 1)] == r[|q| + k] && fs[1..][k - 1] == fs[k];
    }
  }

  // A dispatch that keeps nothing hands out all of the queue, in order.
  lemma {:induction false} AllHandedOut(conns: map<nat, Conn>, q: seq<RxFrame>, cbs: nat -> nat -> Callback, i: nat)
    requires Live(conns, q)
    requires forall k :: 0 <= k < |q| ==> q[k].handled == 0 && !Stays(conns, q, cbs, i, k)
    ensures Remaining(conns, q, cbs, i) == []
    ensures |Settled(conns, q, cbs, i)| == |q|
    ensures forall k :: 0 <= k < |q| ==> Settled(conns, q, cbs, i)[k] == Core(q[k])
    decreases |q|
  {
    if |q| > 0 {
      forall k | 0 <= k < |q[1..]| ensures q[1..][k].handled == 0 && !Stays(conns, q[1..], cbs, i + 1, k) {
        StaysNext(conns, q, cbs, i, k + 1);
      }
      AllHandedOut(conns, q[1..], cbs, i + 1);
      assert !Stays(conns, q, cbs, i, 0);
      hide Kept, Core;
    }
  }

  lemma NewHandedOut(s: State, id: nat, fs: seq<Flap.Frame>, tag: nat, cbs: nat -> nat -> Callback)
    requires Returns(s, Handled(cbs)) && Appended([], s.incoming, id, fs, tag)
    requires forall k :: 0 <= k < |s.incoming| && s.incoming[k].handled == 0 ==>
               !Stays(s.conns, s.incoming, cbs, 0, k)
    ensures var t := Handout(s, cbs); t.incoming == [] && Appended(s.settled, t.settled, id, fs, tag)
  {
    var q, none: seq<RxFrame> := s.incoming, [];
    hide Settled, Remaining, Core, Stays;
    forall k | 0 <= k < |fs|
      ensures q[k] == RxFrame(id, FLAP, fs[k].typ, fs[k].seqnum, Cursor(fs[k].payload, 0), tag + k, 0)
      ensures Core(q[k]) == q[k]
    {
      assert q[|none| + k] == q[k];
      CoreOf(q[k]);
    }
    DispatchConserves(s.conns, q, cbs, 0);
    AllHandedOut(s.conns, q, cbs, 0);
  }

  /** What the peer gives to its send loop is what this side's modules get, in the same order,
      however either side cuts up the stream: channel, sequence number and payload of each frame,
      when the queue was empty and no frame is kept. */
  lemma PeerHeard(s: State, id: nat, sends: seq<int>, recvs: seq<int>, fs: seq<Flap.Frame>, tail: seq<byte>, t: State,
        cbs: nat -> nat -> Callback)
    requires Inv(s) && Reads(s, id) && s.incoming == [] && Flap.Steady(sends) && Flap.Steady(recvs)
    requires forall i :: 0 <= i < |fs| ==> |fs[i].payload| <= Flap.MAX_PAYLOAD
    ensures var r := Flap.Commands(recvs, Flap.SendFrames(sends, fs).bytes + tail, |fs|);
            && r.Stream? && r.incoming == tail
            && (Run(s, Arrivals(id, r.frames), t) && Returns(t, Handled(cbs))
                && (forall k :: 0 <= k < |t.incoming| && t.incoming[k].handled == 0 ==>
                      !Stays(t.conns, t.incoming, cbs, 0, k)) ==>
                  var u := Handout(t, cbs);
                  u.incoming == [] && Appended(s.settled, u.settled, id, fs, |s.received|))
  {
    hide Inv, Run, Arrivals, Handout, Dispatched, Appended, Stays, Flap.SendFrames, Flap.Commands;
    Flap.StreamRoundTrip(sends, recvs, fs, tail);
    ArrivalsQueue(s, id, fs);
    if Run(s, Arrivals(id, fs), t) && Returns(t, Handled(cbs))
       && (forall k :: 0 <= k < |t.incoming| && t.incoming[k].handled == 0 ==>
             !Stays(t.conns, t.incoming, cbs, 0, k))
    {
      NewHandedOut(t, id, fs, |s.received|, cbs);
    }
  }
}
