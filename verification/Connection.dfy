/**
  Connections and their callback lists (src/conn.c, and the handler list of src/rxhandlers.c).
  A connection is named by the number of its allocation.
*/
module Connections {
  import opened Octets

  const TYPE_BOS: u16 := 0x0002
  const TYPE_AUTH: u16 := 0x0007
  const TYPE_RENDEZVOUS: u16 := 0x0101
  const TYPE_RENDEZVOUS_OUT: u16 := 0x0102

  const FAM_SPECIAL: u16 := 0xffff
  const SPECIAL_CONNERR: u16 := 0x0003
  const SPECIAL_CONNCOMPLETE: u16 := 0x0004
  const SPECIAL_FLAPVER: u16 := 0x0005
  const SPECIAL_DEFAULT: u16 := 0xffff

  datatype Framing = FLAP | OFT

  // code stands for the function registered.
  datatype Handler = Handler(family: u16, typ: u16, code: nat)

  // open: the descriptor is not -1. seqnum: the last sequence number given out.
  datatype Conn = Conn(typ: u16, open: bool, inprogress: bool, seqnum: u16, handlerlist: seq<Handler>)

  // Rendezvous connections carry OFT frames and all others FLAP frames.
  predicate Suits(typ: u16, framing: Framing) {
    framing == (if typ == TYPE_RENDEZVOUS || typ == TYPE_RENDEZVOUS_OUT then OFT else FLAP)
  }

  // aim_conn_close: the descriptor and the callbacks go.
  function Close(c: Conn): Conn {
    c.(open := false, handlerlist := [])
  }

  // ----- aim_conn_addhandler and aim_callhandler -----

  // The SNACs that may not be hooked.
  predicate Disallowed(family: u16, typ: u16) {
    family == 0x0001 && typ in {0x0002, 0x0003, 0x0006, 0x0007, 0x0008, 0x0017, 0x0018}
  }

  // In order of registration; None is a refusal.
  function AddHandler(list: seq<Handler>, h: Handler): Option<seq<Handler>> {
    if Disallowed(h.family, h.typ) then None else Some(list + [h])
  }

  function FirstFor(list: seq<Handler>, family: u16, typ: u16): Option<nat> {
    if |list| == 0 then None
    else if list[0].family == family && list[0].typ == typ then Some(list[0].code)
    else FirstFor(list[1..], family, typ)
  }

  // The callback for a SNAC, or the default one of its family.
  function CallHandler(list: seq<Handler>, family: u16, typ: u16): Option<nat>
    decreases if typ == SPECIAL_DEFAULT then 0 else 1
  {
    match FirstFor(list, family, typ)
    case Some(code) => Some(code)
    case None => if typ == SPECIAL_DEFAULT then None else CallHandler(list, family, SPECIAL_DEFAULT)
  }

  method FindHandler(list: seq<Handler>, family: u16, typ: u16) returns (r: Option<nat>)
    ensures r == CallHandler(list, family, typ)
    decreases if typ == SPECIAL_DEFAULT then 0 else 1
  {
    for k := 0 to |list|
      invariant FirstFor(list[k..], family, typ) == FirstFor(list, family, typ)
    {
      if list[k].family == family && list[k].typ == typ {
        return Some(list[k].code);
      }
      assert list[k..][1..] == list[k + 1..];
    }
    if typ == SPECIAL_DEFAULT {
      return None;
    }
    r := FindHandler(list, family, SPECIAL_DEFAULT);
  }

  lemma {:induction false} FirstForAppend(list: seq<Handler>, h: Handler, family: u16, typ: u16)
    ensures FirstFor(list + [h], family, typ)
         == match FirstFor(list, family, typ)
            case Some(code) => Some(code)
            case None => if h.family == family && h.typ == typ then Some(h.code) else None
  {
    if |list| == 0 {
      assert list + [h] == [h];
    } else {
      assert (list + [h])[1..] == list[1..] + [h];
      FirstForAppend(list[1..], h, family, typ);
    }
  }

  /** A registration changes the callback for a SNAC exactly when it is the first for that SNAC,
      or the first default of its family and the SNAC has no callback of its own. */
  lemma HandlerAdded(list: seq<Handler>, h: Handler, family: u16, typ: u16)
    ensures CallHandler(list + [h], family, typ)
         == if FirstFor(list, family, typ).Some? then CallHandler(list, family, typ)
            else if h.family == family && h.typ == typ then Some(h.code)
            else if h.family == family && h.typ == SPECIAL_DEFAULT && CallHandler(list, family, typ).None? then
              Some(h.code)
            else CallHandler(list, family, typ)
  {
    FirstForAppend(list, h, family, typ);
    FirstForAppend(list, h, family, SPECIAL_DEFAULT);
  }
}
