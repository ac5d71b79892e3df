/**
  The receive dispatcher of src/rxhandlers.c: which module or callback gets a frame, and which
  frames stay in the queue. What a callback returns, and where it leaves the frame's stream, is
  not known here; callbacks leave the queue alone.
*/
module Dispatch {
  import opened Octets
  import opened ByteStream
  import opened Connections
  import Tlvs

  // ----- Modules -----

  datatype Module = Module(family: u16, multifamily: bool, snachandler: bool)

  // aim__registermodule on modules with different names: each goes in front of the list.
  function Register(list: seq<Module>, ms: seq<Module>): seq<Module>
    decreases |ms|
  {
    if |ms| == 0 then list else Register([ms[0]] + list, ms[1..])
  }

  function Family(family: u16): Module {
    Module(family, false, true)
  }

  // The catch-all, concerned by every family.
  const MISC := Module(0xffff, true, true)
  // These two have no SNAC handler.
  const INVITE := Module(0x0006, false, false)
  const TRANSLATE := Module(0x000c, false, false)

  // The modules aim_session_init registers behind misc: general, locate, buddylist, messaging,
  // adverts, invite, admin, popups, bos, search, stats, translate, chatnav, chat, ssi, icq, auth.
  const OTHERS: seq<Module> := [
    Family(0x0001), Family(0x0002), Family(0x0003), Family(0x0004), Family(0x0005), INVITE, Family(0x0007),
    Family(0x0008), Family(0x0009), Family(0x000a), Family(0x000b), TRANSLATE, Family(0x000d), Family(0x000e),
    Family(0x0013), Family(0x0015), Family(0x0017)
  ]

  const LOADED := [MISC] + OTHERS

  const MODULES := Register([], LOADED)

  // What a callback returns and where it leaves the stream.
  datatype Callback = Callback(ret: int, pos: nat)

  // The loop over the modules: the calls made, in order, and how it ended. A module without a
  // handler would be called through NULL.
  datatype Call = Call(m: Module, cb: Callback)
  datatype End = Taken | Passed | Null
  datatype Offer = Offer(end: End, calls: seq<Call>)

  predicate Concerns(m: Module, family: u16) {
    m.multifamily || m.family == family
  }

  function Offered(mods: seq<Module>, family: u16, cb: nat -> Callback, k: nat): Offer {
    if |mods| == 0 then Offer(Passed, [])
    else if !Concerns(mods[0], family) then Offered(mods[1..], family, cb, k)
    else if !mods[0].snachandler then Offer(Null, [])
    else
      var call := Call(mods[0], cb(k));
      if cb(k).ret != 0 then Offer(Taken, [call])
      else
        var o := Offered(mods[1..], family, cb, k + 1);
        o.(calls := [call] + o.calls)
  }

  function Alone(m: Module, family: u16): seq<Module> {
    if Concerns(m, family) then [m] else []
  }

  // The modules a family concerns, in the order of the list.
  function Concerned(mods: seq<Module>, family: u16): seq<Module> {
    if |mods| == 0 then [] else Alone(mods[0], family) + Concerned(mods[1..], family)
  }

  /** The modules called are the first ones concerned, and each but the last returned 0. The last
      one did not exactly when the SNAC was taken; it was passed on by all of them, or the next
      one has no handler. */
  ghost predicate Fair(o: Offer, ms: seq<Module>) {
    && |o.calls| <= |ms|
    && (forall i :: 0 <= i < |o.calls| ==> o.calls[i].m == ms[i] && ms[i].snachandler)
    && (forall i :: 0 <= i < |o.calls| - 1 ==> o.calls[i].cb.ret == 0)
    && (|o.calls| > 0 ==> (o.end.Taken? <==> o.calls[|o.calls| - 1].cb.ret != 0))
    && (o.end.Taken? ==> |o.calls| > 0)
    && (o.end.Passed? ==> |o.calls| == |ms|)
    && (o.end.Null? ==> |o.calls| < |ms| && !ms[|o.calls|].snachandler)
  }

  lemma {:induction false} OfferedIs(mods: seq<Module>, family: u16, cb: nat -> Callback, k: nat)
    ensures Fair(Offered(mods, family, cb, k), Concerned(mods, family))
  {
    if |mods| > 0 {
      var tail := mods[1..];
      if !Concerns(mods[0], family) {
        OfferedIs(tail, family, cb, k);
        assert Concerned(mods, family) == Concerned(tail, family);
      } else if mods[0].snachandler && cb(k).ret == 0 {
        OfferedIs(tail, family, cb, k + 1);
        FairNext(Offered(tail, family, cb, k + 1), Concerned(tail, family), mods[0], cb(k));
      }
    }
  }

  lemma FairNext(o: Offer, ms: seq<Module>, m: Module, cb: Callback)
    requires Fair(o, ms) && m.snachandler && cb.ret == 0
    ensures Fair(o.(calls := [Call(m, cb)] + o.calls), [m] + ms)
  {
    var p := o.(calls := [Call(m, cb)] + o.calls);
    assert forall i :: 0 < i < |p.calls| ==> p.calls[i] == o.calls[i - 1];
  }

  lemma {:induction false} ConcernedAppend(xs: seq<Module>, ys: seq<Module>, family: u16)
    ensures Concerned(xs + ys, family) == Concerned(xs, family) + Concerned(ys, family)
  {
    if |xs| == 0 {
      assert xs + ys == ys;
    } else {
      hide Alone;
      ConcernedAppend(xs[1..], ys, family);
      assert (xs + ys)[1..] == xs[1..] + ys && (xs + ys)[0] == xs[0];
      var head, a, b := Alone(xs[0], family), Concerned(xs[1..], family), Concerned(ys, family);
      assert head + (a + b) == head + a + b;
    }
  }

  // The module registered first is asked last.
  lemma {:induction false} FirstIsLast(list: seq<Module>, ms: seq<Module>, family: u16)
    ensures Concerned(Register(list, ms), family) == Backwards(Concerned(ms, family)) + Concerned(list, family)
    decreases |ms|
  {
    if |ms| == 0 {
      assert Backwards([]) + Concerned(list, family) == Concerned(list, family);
    } else {
      var one := [ms[0]];
      assert Register(list, ms) == Register(one + list, ms[1..]);
      hide Concerned, Backwards, Register;
      FirstIsLast(one + list, ms[1..], family);
      OneConcerned(ms[0], family);
      ConcernedAppend(one, list, family);
      assert one + ms[1..] == ms;
      ConcernedAppend(one, ms[1..], family);
      var head, tail, rest := Concerned(one, family), Concerned(ms[1..], family), Concerned(list, family);
      BackwardsAppend(head, tail);
      Regrouped(Backwards(tail), head, rest);
    }
  }

  lemma Regrouped(a: seq<Module>, b: seq<Module>, c: seq<Module>)
    ensures a + (b + c) == a + b + c
  {
  }

  lemma OneConcerned(m: Module, family: u16)
    ensures Backwards(Concerned([m], family)) == Concerned([m], family)
  {
    var one := [m];
    assert one[1..] == [];
    assert Concerned([m], family) == [m] || Concerned([m], family) == [];
  }

  function Backwards(ms: seq<Module>): seq<Module> {
    if |ms| == 0 then [] else Backwards(ms[1..]) + [ms[0]]
  }

  lemma {:induction false} BackwardsAppend(xs: seq<Module>, ys: seq<Module>)
    ensures Backwards(xs + ys) == Backwards(ys) + Backwards(xs)
  {
    if |xs| == 0 {
      assert xs + ys == ys;
    } else {
      BackwardsAppend(xs[1..], ys);
      assert (xs + ys)[1..] == xs[1..] + ys;
    }
  }

  lemma {:induction false} ConcernedIs(mods: seq<Module>, family: u16)
    ensures forall m :: m in Concerned(mods, family) <==> m in mods && Concerns(m, family)
  {
    if |mods| > 0 {
      ConcernedIs(mods[1..], family);
      assert mods == [mods[0]] + mods[1..];
    }
  }

  lemma {:induction false} BackwardsIs(ms: seq<Module>)
    ensures forall m :: m in Backwards(ms) <==> m in ms
  {
    if |ms| > 0 {
      BackwardsIs(ms[1..]);
      assert ms == [ms[0]] + ms[1..];
    }
  }

  lemma OthersAre()
    ensures forall m :: m in OTHERS ==>
              && !m.multifamily && m.family != MISC.family
              && (!m.snachandler <==> m.family == 0x0006 || m.family == 0x000c)
    ensures INVITE in OTHERS && TRANSLATE in OTHERS
  {
    assert OTHERS[5] == INVITE && OTHERS[11] == TRANSLATE;
  }

  function Own(family: u16): seq<Module> {
    Backwards(Concerned(OTHERS, family))
  }

  // The modules concerned are those of the family itself and then the catch-all.
  lemma MiscIsLast(family: u16)
    ensures Concerned(MODULES, family) == Own(family) + [MISC]
    ensures forall m :: m in Own(family) <==> m in OTHERS && m.family == family
  {
    hide OTHERS;
    OthersAre();
    FirstIsLast([], LOADED, family);
    var c := Concerned(OTHERS, family);
    assert LOADED[1..] == OTHERS && ([MISC] + c)[1..] == c;
    assert Concerned(LOADED, family) == [MISC] + c;
    ConcernedIs(OTHERS, family);
    BackwardsIs(c);
  }

  /** A SNAC gets to the catch-all only after every module of its own family was called and
      returned 0. */
  lemma CatchAllComesLast(family: u16, cb: nat -> Callback, i: nat)
    requires i < |Offered(MODULES, family, cb, 0).calls|
    ensures var calls := Offered(MODULES, family, cb, 0).calls;
            calls[i].m == MISC ==>
              && i == |Own(family)|
              && forall k :: 0 <= k < i ==> calls[k].m == Own(family)[k] && calls[k].cb.ret == 0
  {
    hide OTHERS, Own, MODULES;
    OfferedIs(MODULES, family, cb, 0);
    MiscIsLast(family);
    OthersAre();
    hide Offered, Concerned;
    var calls, own := Offered(MODULES, family, cb, 0).calls, Own(family);
    if i < |own| {
      assert own[i] in own && own[i] == (own + [MISC])[i];
    } else {
      forall k | 0 <= k < i ensures calls[k].m == own[k] && calls[k].cb.ret == 0 {
        assert own[k] == (own + [MISC])[k];
      }
    }
  }

  // A handler is called through NULL exactly for the families of invite and translate.
  lemma NullExactly(family: u16, cb: nat -> Callback, k: nat)
    ensures Offered(MODULES, family, cb, k).end.Null? <==> family == INVITE.family || family == TRANSLATE.family
  {
    hide OTHERS, Own, MODULES;
    OfferedIs(MODULES, family, cb, k);
    MiscIsLast(family);
    OthersAre();
    hide Offered, Concerned;
    var o, own := Offered(MODULES, family, cb, k), Own(family);
    if o.end.Null? {
      assert (own + [MISC])[|o.calls|] in own + [MISC];
      assert own[|o.calls|] in own;
    }
    if family == INVITE.family || family == TRANSLATE.family {
      assert INVITE in own || TRANSLATE in own;
      assert own[0] in own && own[0] == (own + [MISC])[0];
    }
  }

  // The i-th call gets the i-th answer.
  lemma {:induction false} CallAnswers(mods: seq<Module>, family: u16, cb: nat -> Callback, k: nat, i: nat)
    requires i < |Offered(mods, family, cb, k).calls|
    ensures Offered(mods, family, cb, k).calls[i].cb == cb(k + i)
  {
    if !Concerns(mods[0], family) {
      CallAnswers(mods[1..], family, cb, k, i);
    } else if i > 0 {
      CallAnswers(mods[1..], family, cb, k + 1, i - 1);
    }
  }

  lemma HeadIsIn(ms: seq<Module>)
    ensures |ms| > 0 ==> ms[0] in ms
  {
  }

  // The families that have a module.
  predicate Loaded(family: u16) {
    1 <= family <= 0x000e || family in {0x0013, 0x0015, 0x0017}
  }

  // The module of a family; two of them have no handler.
  function ModuleOf(family: u16): Module {
    Module(family, false, family != 0x0006 && family != 0x000c)
  }

  // In order of family, so no family twice.
  ghost predicate Rising(mods: seq<Module>) {
    forall i, j :: 0 <= i < j < |mods| ==> mods[i].family < mods[j].family
  }

  lemma OthersRise()
    ensures |OTHERS| == 17 && Rising(OTHERS)
  {
    assert forall i :: 0 <= i < 16 ==> OTHERS[i].family < OTHERS[i + 1].family;
    hide OTHERS;
    forall i, j | 0 <= i < j < |OTHERS| ensures OTHERS[i].family < OTHERS[j].family {
      Rises(i, j);
    }
  }

  lemma {:induction false} Rises(i: nat, j: nat)
    requires |OTHERS| == 17 && i < j < 17
    requires forall k :: 0 <= k < 16 ==> OTHERS[k].family < OTHERS[k + 1].family
    ensures OTHERS[i].family < OTHERS[j].family
    decreases j - i
  {
    hide OTHERS;
    if i + 1 < j {
      Rises(i, j - 1);
      assert OTHERS[j - 1].family < OTHERS[j - 1 + 1].family;
    }
  }

  // Every module is the one of its family.
  lemma OthersAreModules()
    ensures forall m :: m in OTHERS ==> Loaded(m.family) && m == ModuleOf(m.family)
  {
    assert forall k :: 0 <= k < 17 ==> Loaded(OTHERS[k].family) && OTHERS[k] == ModuleOf(OTHERS[k].family);
  }

  // Every family named has one.
  lemma LoadedAreOthers(family: u16)
    requires Loaded(family)
    ensures ModuleOf(family) in OTHERS
  {
    if family <= 0x000e {
      assert OTHERS[family - 1] == ModuleOf(family);
    } else {
      assert OTHERS[14] == ModuleOf(0x0013) && OTHERS[15] == ModuleOf(0x0015) && OTHERS[16] == ModuleOf(0x0017);
    }
  }

  lemma {:induction false} AtMostOne(mods: seq<Module>, family: u16)
    requires Rising(mods) && forall m :: m in mods ==> !m.multifamily
    ensures |Concerned(mods, family)| <= 1
  {
    if |mods| > 0 {
      assert forall m :: m in mods[1..] ==> m in mods;
      AtMostOne(mods[1..], family);
      ConcernedIs(mods[1..], family);
      HeadIsIn(Concerned(mods[1..], family));
    }
  }

  /** Every loaded family has exactly one module of its own, and no other family has any. */
  lemma OwnIs(family: u16)
    ensures Own(family) == if Loaded(family) then [ModuleOf(family)] else []
  {
    hide OTHERS, MODULES, Concerned;
    OthersRise();
    OthersAre();
    OthersAreModules();
    AtMostOne(OTHERS, family);
    MiscIsLast(family);
    BackwardsLength(Concerned(OTHERS, family));
    var own := Own(family);
    HeadIsIn(own);
    if Loaded(family) {
      LoadedAreOthers(family);
      assert ModuleOf(family) in own;
    }
  }

  lemma {:induction false} BackwardsLength(ms: seq<Module>)
    ensures |Backwards(ms)| == |ms|
  {
    if |ms| > 0 {
      BackwardsLength(ms[1..]);
    }
  }

  /** A SNAC of a loaded family goes to that family's module first, and to the catch-all only after
      the module returned 0. A SNAC of any other family goes to the catch-all at once. */
  lemma OwnComesFirst(family: u16, cb: nat -> Callback)
    requires family != 0x0006 && family != 0x000c
    ensures var calls := Offered(MODULES, family, cb, 0).calls;
            && |calls| > 0
            && (Loaded(family) ==>
                 && calls[0] == Call(ModuleOf(family), cb(0))
                 && (cb(0).ret != 0 ==> |calls| == 1)
                 && (cb(0).ret == 0 ==> |calls| == 2 && calls[1] == Call(MISC, cb(1))))
            && (!Loaded(family) ==> calls == [Call(MISC, cb(0))])
  {
    hide OTHERS, MODULES;
    OfferedIs(MODULES, family, cb, 0);
    MiscIsLast(family);
    OwnIs(family);
    hide Concerned, Own;
    var o := Offered(MODULES, family, cb, 0);
    NullExactly(family, cb, 0);
    if |o.calls| > 0 {
      CallAnswers(MODULES, family, cb, 0, 0);
    }
    if |o.calls| > 1 {
      CallAnswers(MODULES, family, cb, 0, 1);
    }
    hide Offered;
  }

  // How the offer ends.
  lemma OwnDecides(family: u16, cb: nat -> Callback)
    requires Loaded(family) && family != 0x0006 && family != 0x000c
    ensures var own := Call(ModuleOf(family), cb(0));
            Offered(MODULES, family, cb, 0)
              == if cb(0).ret != 0 then Offer(Taken, [own])
                 else if cb(1).ret != 0 then Offer(Taken, [own, Call(MISC, cb(1))])
                 else Offer(Passed, [own, Call(MISC, cb(1))])
  {
    hide OTHERS, MODULES, Loaded;
    OwnComesFirst(family, cb);
    OfferedIs(MODULES, family, cb, 0);
    NullExactly(family, cb, 0);
    MiscIsLast(family);
    OwnIs(family);
    hide Offered, Concerned, Own;
  }

  // Only the catch-all is called for its own family.
  lemma CatchAllOnly(cb: nat -> Callback, k: nat)
    ensures var o := Offered(MODULES, MISC.family, cb, k);
            !o.end.Null? && o.calls == [Call(MISC, cb(k))]
  {
    hide OTHERS, Own, MODULES;
    OfferedIs(MODULES, MISC.family, cb, k);
    MiscIsLast(MISC.family);
    OthersAre();
    hide Concerned;
    var o, own := Offered(MODULES, MISC.family, cb, k), Own(MISC.family);
    HeadIsIn(own);
    assert own + [MISC] == [MISC];
    CallAnswers(MODULES, MISC.family, cb, k, 0);
  }

  // ----- The loops of consumesnac and consumenonsnac -----

  method OfferModules(mods: seq<Module>, family: u16, cb: nat -> Callback, k: nat) returns (o: Offer)
    ensures o == Offered(mods, family, cb, k)
  {
    var calls := [];
    for i := 0 to |mods|
      invariant var p := Offered(mods[i..], family, cb, k + |calls|);
                Offered(mods, family, cb, k) == p.(calls := calls + p.calls)
    {
      assert mods[i..][1..] == mods[i + 1..];
      if !Concerns(mods[i], family) {
        continue;
      }
      if !mods[i].snachandler {
        return Offer(Null, calls);
      }
      var r := cb(k + |calls|);
      ghost var p := Offered(mods[i + 1..], family, cb, k + |calls| + 1);
      assert calls + ([Call(mods[i], r)] + p.calls) == calls + [Call(mods[i], r)] + p.calls;
      calls := calls + [Call(mods[i], r)];
      if r.ret != 0 {
        return Offer(Taken, calls);
      }
    }
    o := Offer(Passed, calls);
  }

  // ----- One frame -----

  // tag tells frames apart, as their addresses do: the number of frames received before.
  datatype RxFrame =
    RxFrame(conn: nat, framing: Framing, chan: byte, seqnum: u16, data: Cursor, tag: nat, handled: byte)
  {
    ghost predicate Valid() {
      data.Valid()
    }
  }

  // What the dispatcher does to a frame: its handled byte, the position of its stream, and the
  // modules called on the way. Or it calls through NULL, or never comes back from reading TLVs.
  datatype Outcome = Sets(handled: byte, pos: nat, calls: seq<Call>) | Crashes | Spins

  // A stream stays within its buffer.
  function Within(c: Cursor, pos: nat): nat {
    if pos > |c.buf| then |c.buf| else pos
  }

  // Where the last module called leaves the stream.
  function LastPos(f: RxFrame, calls: seq<Call>): nat {
    Within(f.data, if |calls| > 0 then calls[|calls| - 1].cb.pos else f.data.pos)
  }

  // consumenonsnac as the result of a frame's handling.
  function NonSnac(f: RxFrame, family: u16, cb: nat -> Callback): Outcome {
    var o := Offered(MODULES, family, cb, 0);
    if o.end.Null? then Crashes else Sets(if o.end.Taken? then 1 else 0, LastPos(f, o.calls), o.calls)
  }

  // A frame nobody took is offered to the catch-all, and is handled whatever that returns.
  function LastChance(f: RxFrame, calls: seq<Call>, cb: nat -> Callback): Outcome {
    var o := Offered(MODULES, MISC.family, cb, |calls|);
    if o.end.Null? then Crashes else Sets(1, f.data.pos, calls + o.calls)
  }

  // consumesnac and the last chance.
  function Snac(f: RxFrame, cb: nat -> Callback): Outcome
    requires f.Valid()
  {
    if f.data.Room() < 10 then LastChance(f, [], cb)
    else
      var o := Offered(MODULES, f.data.U16(), cb, 0);
      match o.end
      case Null => Crashes
      case Taken => Sets(1, f.data.pos, o.calls)
      case Passed => LastChance(f, o.calls, cb)
  }

  // negchan_middle.
  function Negotiation(c: Conn, f: RxFrame, cb: nat -> Callback): Outcome
    requires f.Valid()
  {
    if f.data.Room() == 0 then Sets(1, f.data.pos, [])
    else if c.typ == TYPE_AUTH then NonSnac(f, 0x0017, cb)
    else if Tlvs.ReadFrom(f.data, []).Diverges? then Spins
    else UserCall(c, f, SPECIAL_CONNERR, cb)
  }

  // A special callback of the client: its result is kept in 8 bits. Without one the frame is done.
  function UserCall(c: Conn, f: RxFrame, typ: u16, cb: nat -> Callback): Outcome {
    if CallHandler(c.handlerlist, FAM_SPECIAL, typ).Some? then Sets(Low8(cb(0).ret), Within(f.data, cb(0).pos), [])
    else Sets(1, f.data.pos, [])
  }

  // A frame whose framing does not suit its connection, or that a rendezvous connection got.
  predicate Misplaced(c: Conn, f: RxFrame) {
    || (f.framing == OFT && c.typ != TYPE_RENDEZVOUS)
    || c.typ == TYPE_RENDEZVOUS || c.typ == TYPE_RENDEZVOUS_OUT
  }

  // The body of the loop in aim_rxdispatch.
  function One(c: Conn, f: RxFrame, cb: nat -> Callback): Outcome
    requires f.Valid()
  {
    if Misplaced(c, f) then Sets(1, f.data.pos, [])
    else if f.chan == 0x01 then UserCall(c, f, SPECIAL_FLAPVER, cb)
    else if f.chan == 0x02 then Snac(f, cb)
    else if f.chan == 0x04 then Negotiation(c, f, cb)
    else LastChance(f, [], cb)
  }

  /** The last chance calls the catch-all once, behind all other calls. So a frame on a channel that
      has no handler of its own, and a SNAC none of its modules took, end with the catch-all. */
  lemma LastChanceIsMisc(c: Conn, f: RxFrame, cb: nat -> Callback)
    requires f.Valid() && !Misplaced(c, f) && f.chan != 0x01 && f.chan != 0x04
    ensures f.chan != 0x02 || f.data.Room() < 10 ==> One(c, f, cb) == Sets(1, f.data.pos, [Call(MISC, cb(0))])
    ensures var calls := Offered(MODULES, f.data.U16(), cb, 0).calls;
            f.chan == 0x02 && f.data.Room() >= 10 && Offered(MODULES, f.data.U16(), cb, 0).end.Passed? ==>
              One(c, f, cb) == Sets(1, f.data.pos, calls + [Call(MISC, cb(|calls|))])
  {
    hide MODULES;
    CatchAllOnly(cb, 0);
    CatchAllOnly(cb, |Offered(MODULES, f.data.U16(), cb, 0).calls|);
    hide Offered, Cursor.U16;
    var one := [Call(MISC, cb(0))];
    assert [] + one == one;
  }

  /** A SNAC is offered first to the module of the family that its first two bytes name, and then
      to the catch-all, each until one takes it; a last offer goes to the catch-all. */
  lemma SnacGoesHome(c: Conn, f: RxFrame, cb: nat -> Callback)
    requires f.Valid() && f.framing == FLAP && c.typ !in {0x0101, 0x0102} && f.chan == 0x02 && f.data.Room() >= 10
    ensures var family := f.data.Rest()[0] as int * 0x100 + f.data.Rest()[1];
            var own := Call(ModuleOf(family), cb(0));
            Loaded(family) && family != 0x0006 && family != 0x000c ==>
              One(c, f, cb) == Sets(1, f.data.pos,
                if cb(0).ret != 0 then [own]
                else if cb(1).ret != 0 then [own, Call(MISC, cb(1))]
                else [own, Call(MISC, cb(1)), Call(MISC, cb(2))])
  {
    FamilyIs(f.data);
    hide MODULES, Offered, ModuleOf, Cursor.U16, Cursor.Rest, Loaded;
    var family := f.data.U16();
    if Loaded(family) && family != 0x0006 && family != 0x000c {
      OwnDecides(family, cb);
      CatchAllOnly(cb, 2);
      var own := Call(ModuleOf(family), cb(0));
      assert [own, Call(MISC, cb(1))] + [Call(MISC, cb(2))] == [own, Call(MISC, cb(1)), Call(MISC, cb(2))];
    }
  }

  lemma FamilyIs(c: Cursor)
    requires c.Valid() && c.Room() >= 2
    ensures c.U16() == c.Rest()[0] as int * 0x100 + c.Rest()[1]
  {
  }

  // ----- The queue -----

  // Whether the frame stays: it came on channel 1 or 4 of a FLAP connection, there is someone to
  // hand it to, and whoever got it returned 0 in the bits that are kept.
  ghost predicate Kept(c: Conn, f: RxFrame, cb: nat -> Callback)
    requires f.Valid()
  {
    && f.framing == FLAP && c.typ !in {0x0101, 0x0102}
    && (f.chan == 0x01 || (f.chan == 0x04 && f.data.Room() > 0))
    && (if f.chan == 0x04 && c.typ == 0x0007 then cb(0).ret == 0 && cb(1).ret == 0
        else
          && CallHandler(c.handlerlist, 0xffff, if f.chan == 0x01 then 0x0005 else 0x0003).Some?
          && cb(0).ret % 0x100 == 0
          && (f.chan == 0x04 ==> !Tlvs.ReadFrom(f.data, []).Diverges?))
  }

  // The old login's negotiation goes to the authorisation module and then to the catch-all.
  lemma AuthPassed(cb: nat -> Callback)
    ensures Offered(MODULES, 0x0017, cb, 0).end.Passed? <==> cb(0).ret == 0 && cb(1).ret == 0
    ensures !Offered(MODULES, 0x0017, cb, 0).end.Null?
  {
    OwnDecides(0x0017, cb);
  }

  lemma OneKeeps(c: Conn, f: RxFrame, cb: nat -> Callback)
    requires f.Valid()
    ensures One(c, f, cb).Sets? && One(c, f, cb).handled == 0 <==> Kept(c, f, cb)
    ensures One(c, f, cb).Sets? ==> One(c, f, cb).pos <= |f.data.buf|
    ensures One(c, f, cb).Crashes? <==>
              (&& f.framing == FLAP && c.typ !in {0x0101, 0x0102} && f.chan == 0x02 && f.data.Room() >= 10
               && f.data.U16() in {0x0006, 0x000c})
  {
    hide MODULES, Offered, CallHandler, Cursor.U16, Tlvs.ReadFrom;
    AuthPassed(cb);
    NullExactly(f.data.U16(), cb, 0);
    NullExactly(MISC.family, cb, 0);
    NullExactly(MISC.family, cb, |Offered(MODULES, f.data.U16(), cb, 0).calls|);
  }

  /** The next dispatch goes on where the last callback left the stream of a kept frame, or at its
      end. */
  lemma KeptResumes(c: Conn, f: RxFrame, cb: nat -> Callback)
    requires f.Valid() && Kept(c, f, cb)
    ensures var pos := (if f.chan == 0x04 && c.typ == 0x0007 then cb(1) else cb(0)).pos;
            One(c, f, cb).Sets? && One(c, f, cb).pos == if pos <= |f.data.buf| then pos else |f.data.buf|
  {
    hide MODULES, Offered, CallHandler, Tlvs.ReadFrom;
    OwnDecides(0x0017, cb);
  }

  /** Frames of the other framing and all of those on rendezvous connections are done with at once. */
  lemma MisplacedIgnored(c: Conn, f: RxFrame, cb: nat -> Callback)
    requires f.Valid() && (f.framing == OFT || c.typ in {0x0101, 0x0102})
    ensures One(c, f, cb) == Sets(1, f.data.pos, [])
  {
  }

  function Moved(f: RxFrame, o: Outcome): (g: RxFrame)
    requires f.Valid() && o.Sets? && o.pos <= |f.data.buf|
    ensures g.Valid()
  {
    f.(handled := o.handled, data := Cursor(f.data.buf, o.pos))
  }

  // Every frame that is not handled belongs to a connection that still exists.
  ghost predicate Live(conns: map<nat, Conn>, q: seq<RxFrame>) {
    forall k :: 0 <= k < |q| ==> q[k].Valid() && (q[k].handled == 0 ==> q[k].conn in conns)
  }

  datatype Verdict = Done(q: seq<RxFrame>) | Crash | Spin

  // The loop of aim_rxdispatch over the frames from number i on; cbs(i) answers for frame i.
  function Handle(conns: map<nat, Conn>, s: seq<RxFrame>, cbs: nat -> nat -> Callback, i: nat): Verdict
    requires Live(conns, s)
  {
    if |s| == 0 then Done([])
    else if s[0].handled != 0 then Before([s[0]], Handle(conns, s[1..], cbs, i + 1))
    else
      OneKeeps(conns[s[0].conn], s[0], cbs(i));
      match One(conns[s[0].conn], s[0], cbs(i))
      case Crashes => Crash
      case Spins => Spin
      case Sets(h, p, calls) => Before([Moved(s[0], Sets(h, p, calls))], Handle(conns, s[1..], cbs, i + 1))
  }

  function Before(p: seq<RxFrame>, v: Verdict): Verdict {
    if v.Done? then Done(p + v.q) else v
  }

  // aim_purge_rxqueue.
  function Purged(q: seq<RxFrame>): seq<RxFrame> {
    if |q| == 0 then [] else (if q[0].handled == 0 then [q[0]] else []) + Purged(q[1..])
  }

  function Dispatched(conns: map<nat, Conn>, q: seq<RxFrame>, cbs: nat -> nat -> Callback): Verdict
    requires Live(conns, q)
  {
    match Handle(conns, q, cbs, 0)
    case Done(r) => Done(Purged(r))
    case Crash => Crash
    case Spin => Spin
  }

  // The frames that stay, in their order; only their streams may have moved.
  ghost function Remaining(conns: map<nat, Conn>, s: seq<RxFrame>, cbs: nat -> nat -> Callback, i: nat): seq<RxFrame>
    requires Live(conns, s)
  {
    if |s| == 0 then []
    else
      (if s[0].handled == 0 && Kept(conns[s[0].conn], s[0], cbs(i)) then
         OneKeeps(conns[s[0].conn], s[0], cbs(i));
         [Moved(s[0], One(conns[s[0].conn], s[0], cbs(i)))]
       else []) + Remaining(conns, s[1..], cbs, i + 1)
  }

  // A frame as it was received.
  function Core(f: RxFrame): RxFrame {
    f.(data := Cursor(f.data.buf, 0), handled := 0)
  }

  // The frames a dispatch is done with, in the order in which they were handed out.
  ghost function Settled(conns: map<nat, Conn>, s: seq<RxFrame>, cbs: nat -> nat -> Callback, i: nat): seq<RxFrame>
    requires Live(conns, s)
  {
    if |s| == 0 then []
    else if s[0].handled == 0 && !Kept(conns[s[0].conn], s[0], cbs(i)) then
      [Core(s[0])] + Settled(conns, s[1..], cbs, i + 1)
    else Settled(conns, s[1..], cbs, i + 1)
  }

  // What is left in the queue are exactly the frames that are kept.
  lemma {:induction false} DispatchConserves(conns: map<nat, Conn>, s: seq<RxFrame>,
        cbs: nat -> nat -> Callback, i: nat)
    requires Live(conns, s) && Handle(conns, s, cbs, i).Done?
    ensures Purged(Handle(conns, s, cbs, i).q) == Remaining(conns, s, cbs, i)
  {
    if |s| > 0 {
      DispatchConserves(conns, s[1..], cbs, i + 1);
      OneStays(conns, s, cbs, i);
    }
  }

  lemma OneStays(conns: map<nat, Conn>, s: seq<RxFrame>, cbs: nat -> nat -> Callback, i: nat)
    requires Live(conns, s) && |s| > 0 && Handle(conns, s, cbs, i).Done?
    ensures var r := Handle(conns, s, cbs, i).q;
            var rest := Handle(conns, s[1..], cbs, i + 1);
            && rest.Done? && |r| > 0 && r[1..] == rest.q
            && (r[0].handled == 0 <==> s[0].handled == 0 && Kept(conns[s[0].conn], s[0], cbs(i)))
            && (r[0].handled == 0 ==> r[0] == Moved(s[0], One(conns[s[0].conn], s[0], cbs(i))))
  {
    if s[0].handled == 0 {
      OneKeeps(conns[s[0].conn], s[0], cbs(i));
    }
    hide One, Kept;
  }

  lemma {:induction false} RemainingLive(conns: map<nat, Conn>, s: seq<RxFrame>, cbs: nat -> nat -> Callback, i: nat)
    requires Live(conns, s)
    ensures Live(conns, Remaining(conns, s, cbs, i))
  {
    if |s| > 0 {
      RemainingLive(conns, s[1..], cbs, i + 1);
      if s[0].handled == 0 {
        OneKeeps(conns[s[0].conn], s[0], cbs(i));
      }
      hide Kept, One;
      var r, rest := Remaining(conns, s, cbs, i), Remaining(conns, s[1..], cbs, i + 1);
      assert r == rest || r[1..] == rest;
      forall k | 0 <= k < |r| ensures r[k].Valid() && (r[k].handled == 0 ==> r[k].conn in conns) {
        assert r != rest && k > 0 ==> r[k] == rest[k - 1];
      }
    }
  }

  // ----- In place -----

  method HandleFrame(c: Conn, f: RxFrame, cb: nat -> Callback) returns (o: Outcome)
    requires f.Valid()
    ensures o == One(c, f, cb)
  {
    hide MODULES, Offered, CallHandler, Tlvs.ReadFrom;
    var done := Sets(1, f.data.pos, []);
    if (f.framing == OFT && c.typ != TYPE_RENDEZVOUS) || (f.framing == FLAP && c.typ == TYPE_RENDEZVOUS) {
      return done;
    }
    if c.typ == TYPE_RENDEZVOUS {
      return done;
    }
    if c.typ == TYPE_RENDEZVOUS_OUT {
      return done;
    }
    if f.chan == 0x01 {
      o := CallUser(c, f, SPECIAL_FLAPVER, cb);
      return;
    } else if f.chan == 0x04 {
      o := Negotiate(c, f, cb);
      return;
    }
    var calls := [];
    if f.chan == 0x02 && f.data.Room() >= 10 {
      var offer := OfferModules(MODULES, f.data.U16(), cb, 0);
      if offer.end.Null? {
        return Crashes;
      } else if offer.end.Taken? {
        return Sets(1, f.data.pos, offer.calls);
      }
      calls := offer.calls;
    }
    var last := OfferModules(MODULES, MISC.family, cb, |calls|);
    o := if last.end.Null? then Crashes else Sets(1, f.data.pos, calls + last.calls);
  }

  method CallUser(c: Conn, f: RxFrame, typ: u16, cb: nat -> Callback) returns (o: Outcome)
    ensures o == UserCall(c, f, typ, cb)
  {
    var userfunc := FindHandler(c.handlerlist, FAM_SPECIAL, typ);
    o := if userfunc.Some? then Sets(Low8(cb(0).ret), Within(f.data, cb(0).pos), []) else Sets(1, f.data.pos, []);
  }

  method Negotiate(c: Conn, f: RxFrame, cb: nat -> Callback) returns (o: Outcome)
    requires f.Valid()
    ensures o == Negotiation(c, f, cb)
  {
    hide MODULES, Offered, CallHandler, Tlvs.ReadFrom;
    if f.data.Room() == 0 {
      return Sets(1, f.data.pos, []);
    }
    if c.typ == TYPE_AUTH {
      var offer := OfferModules(MODULES, 0x0017, cb, 0);
      return if offer.end.Null? then Crashes
             else Sets(if offer.end.Taken? then 1 else 0, LastPos(f, offer.calls), offer.calls);
    }
    var data := OpenFrame(f);
    var tlvlist := Tlvs.ReadChain(data);
    if tlvlist.Diverges? {
      return Spins;
    }
    o := CallUser(c, f, SPECIAL_CONNERR, cb);
  }

  // The frame's stream.
  method OpenFrame(f: RxFrame) returns (data: Bstream)
    requires f.Valid()
    ensures fresh(data) && data.Valid() && data.View() == f.data
  {
    var n := |f.data.buf|;
    var buf := new byte[n](i requires 0 <= i < n => f.data.buf[i]);
    data := new Bstream(buf, n);
    assert buf[..n] == f.data.buf;
    var pos := data.SetPos(f.data.pos);
  }
}
