/**
  The string tokenizer of src/util.c. A string is its bytes in front of the terminator; a
  result of strchr is an index, or none.
*/
module Tokenizer {
  import opened Octets

  // The first delimiter at or behind from.
  function Strchr(s: seq<byte>, from: nat, dl: byte): (r: Option<nat>)
    requires from <= |s|
    ensures r.Some? ==> from <= r.value < |s|
    decreases |s| - from
  {
    if from == |s| then None else if s[from] == dl then Some(from) else Strchr(s, from + 1, dl)
  }

  // The tokens of s from last on: the stretches between delimiters, empty ones included.
  function Tokens(s: seq<byte>, last: nat, dl: byte): (ts: seq<seq<byte>>)
    requires last <= |s|
    ensures |ts| >= 1
    decreases |s| - last
  {
    match Strchr(s, last, dl)
    case None => [s[last..]]
    case Some(k) => [s[last..k]] + Tokens(s, k + 1, dl)
  }

  function Split(s: seq<byte>, dl: byte): (ts: seq<seq<byte>>)
    ensures |ts| >= 1
  {
    Tokens(s, 0, dl)
  }

  // The tokens with one delimiter between any two.
  function Join(ts: seq<seq<byte>>, dl: byte): seq<byte> {
    if |ts| == 0 then [] else if |ts| == 1 then ts[0] else ts[0] + [dl] + Join(ts[1..], dl)
  }

  function Total(ts: seq<seq<byte>>): nat {
    if |ts| == 0 then 0 else |ts[0]| + Total(ts[1..])
  }

  ghost predicate Clean(ts: seq<seq<byte>>, dl: byte) {
    forall i, j :: 0 <= i < |ts| && 0 <= j < |ts[i]| ==> ts[i][j] != dl
  }

  lemma {:induction false} StrchrIs(s: seq<byte>, from: nat, dl: byte)
    requires from <= |s|
    ensures var r := Strchr(s, from, dl);
            && (r.Some? ==> s[r.value] == dl)
            && forall i :: from <= i < (if r.Some? then r.value else |s|) ==> s[i] != dl
    decreases |s| - from
  {
    if from < |s| && s[from] != dl {
      StrchrIs(s, from + 1, dl);
    }
  }

  lemma {:induction false} StrchrFinds(s: seq<byte>, from: nat, k: nat, dl: byte)
    requires from <= k <= |s| && (k < |s| ==> s[k] == dl)
    requires forall i :: from <= i < k ==> s[i] != dl
    ensures Strchr(s, from, dl) == if k < |s| then Some(k) else None
    decreases k - from
  {
    if from < k {
      StrchrFinds(s, from + 1, k, dl);
    }
  }

  // The tokens hold no delimiter, and with delimiters put back they are the string.
  lemma {:induction false} TokensJoin(s: seq<byte>, last: nat, dl: byte)
    requires last <= |s|
    ensures Join(Tokens(s, last, dl), dl) == s[last..] && Clean(Tokens(s, last, dl), dl)
    decreases |s| - last
  {
    StrchrIs(s, last, dl);
    match Strchr(s, last, dl)
    case None =>
    case Some(k) =>
      TokensJoin(s, k + 1, dl);
      assert Tokens(s, last, dl)[1..] == Tokens(s, k + 1, dl);
      assert s[last..] == s[last..k] + [dl] + s[k + 1..];
  }

  lemma FirstToken(s: seq<byte>, last: nat, ts: seq<seq<byte>>, dl: byte)
    requires last <= |s| && |ts| >= 1 && s[last..] == Join(ts, dl)
    ensures last + |ts[0]| <= |s| && s[last..last + |ts[0]|] == ts[0]
    ensures |ts| == 1 ==> last + |ts[0]| == |s|
    ensures |ts| > 1 ==>
              && last + |ts[0]| < |s| && s[last + |ts[0]|] == dl
              && s[last + |ts[0]| + 1..] == Join(ts[1..], dl)
  {
    var u, n := s[last..], |ts[0]|;
    assert s[last..last + n] == u[..n] == ts[0];
    if |ts| > 1 {
      assert s[last + n] == u[n] == dl;
      assert s[last + n + 1..] == u[n + 1..] == Join(ts[1..], dl);
    }
  }

  lemma {:induction false} TokensOfJoin(s: seq<byte>, last: nat, ts: seq<seq<byte>>, dl: byte)
    requires last <= |s| && |ts| >= 1 && s[last..] == Join(ts, dl) && Clean(ts, dl)
    ensures Tokens(s, last, dl) == ts
    decreases |ts|
  {
    FirstToken(s, last, ts, dl);
    hide Join;
    var k := last + |ts[0]|;
    forall i | last <= i < k ensures s[i] != dl {
      assert s[i] == s[last..k][i - last] == ts[0][i - last];
    }
    if |ts| > 1 {
      TokensOfJoin(s, k + 1, ts[1..], dl);
    }
    StrchrFinds(s, last, k, dl);
  }

  // Splitting and joining undo each other.
  lemma SplitJoin(s: seq<byte>, ts: seq<seq<byte>>, dl: byte)
    requires |ts| >= 1
    ensures Split(s, dl) == ts <==> s == Join(ts, dl) && Clean(ts, dl)
  {
    TokensJoin(s, 0, dl);
    assert s[0..] == s;
    if s == Join(ts, dl) && Clean(ts, dl) {
      TokensOfJoin(s, 0, ts, dl);
    }
  }

  // Every byte is in a token or is a delimiter between two.
  lemma {:induction false} TokensTotal(s: seq<byte>, last: nat, dl: byte)
    requires last <= |s|
    ensures Total(Tokens(s, last, dl)) + |Tokens(s, last, dl)| - 1 == |s| - last
    decreases |s| - last
  {
    match Strchr(s, last, dl)
    case None => assert Tokens(s, last, dl)[1..] == [];
    case Some(k) =>
      TokensTotal(s, k + 1, dl);
      assert Tokens(s, last, dl)[1..] == Tokens(s, k + 1, dl);
  }

  lemma {:induction false} TotalAppend(xs: seq<seq<byte>>, ys: seq<seq<byte>>)
    ensures Total(xs + ys) == Total(xs) + Total(ys)
  {
    if |xs| == 0 {
      assert xs + ys == ys;
    } else {
      TotalAppend(xs[1..], ys);
      assert (xs + ys)[1..] == xs[1..] + ys;
    }
  }

  lemma OneMore(ts: seq<seq<byte>>, k: nat)
    requires k < |ts|
    ensures Total(ts[..k + 1]) == Total(ts[..k]) + |ts[k]|
  {
    var one := [ts[k]];
    assert ts[..k + 1] == ts[..k] + one;
    TotalAppend(ts[..k], one);
    assert one[1..] == [];
  }

  // aimutil_itemcnt: how many tokens there are.
  method ItemCount(toSearch: seq<byte>, dl: byte) returns (n: nat)
    ensures n == |Split(toSearch, dl)|
  {
    n := 1;
    ghost var last := 0;
    var next := Strchr(toSearch, 0, dl);
    while next.Some?
      invariant last <= |toSearch| && next == Strchr(toSearch, last, dl)
      invariant n >= 1 && n - 1 + |Tokens(toSearch, last, dl)| == |Split(toSearch, dl)|
      decreases |toSearch| - last
    {
      n := n + 1;
      last := next.value + 1;
      next := Strchr(toSearch, next.value + 1, dl);
    }
  }

  // aimutil_itemidx: a token by its number, or nothing beyond the last.
  method ItemAt(toSearch: seq<byte>, index: int, dl: byte) returns (t: seq<byte>)
    ensures index < 0 ==> t == Split(toSearch, dl)[0]
    ensures 0 <= index < |Split(toSearch, dl)| ==> t == Split(toSearch, dl)[index]
    ensures index >= |Split(toSearch, dl)| ==> t == []
  {
    var curCount, last, next := 0, 0, Strchr(toSearch, 0, dl);
    ghost var ts := Split(toSearch, dl);
    while curCount < index && next.Some?
      invariant last <= |toSearch| && next == Strchr(toSearch, last, dl)
      invariant 0 <= curCount < |ts| && (curCount <= index || curCount == 0)
      invariant ts[curCount..] == Tokens(toSearch, last, dl)
      decreases |toSearch| - last
    {
      assert ts[curCount + 1..] == Tokens(toSearch, last, dl)[1..];
      curCount := curCount + 1;
      last := next.value + 1;
      next := Strchr(toSearch, last, dl);
    }
    assert ts[curCount] == Tokens(toSearch, last, dl)[0];
    assert |ts| == curCount + |Tokens(toSearch, last, dl)|;
    next := Strchr(toSearch, last, dl);
    if curCount < index {
      t := [];
    } else if next.None? {
      t := toSearch[last..];
    } else {
      t := toSearch[last..next.value];
    }
  }

  // How many tokens aimutil_tokslen measures: index of them, but at least one and no more than there are.
  function Measured(ts: seq<seq<byte>>, index: int): (n: nat)
    requires |ts| >= 1
    ensures 1 <= n <= |ts|
  {
    if index < 1 then 1 else if index < |ts| then index else |ts|
  }

  // Number k of the tokens stands at last.
  ghost predicate Stands(s: seq<byte>, dl: byte, ts: seq<seq<byte>>, k: nat, last: nat) {
    last <= |s| && k < |ts| && ts[k..] == Tokens(s, last, dl) && Total(ts[..k]) + k == last
  }

  lemma FirstStands(s: seq<byte>, dl: byte)
    ensures Stands(s, dl, Split(s, dl), 0, 0)
  {
  }

  // How much the tokens up to this one measure, and where the next one stands.
  lemma NextStands(s: seq<byte>, dl: byte, ts: seq<seq<byte>>, k: nat, last: nat)
    requires Stands(s, dl, ts, k, last)
    ensures match Strchr(s, last, dl)
            case None => |ts| == k + 1 && Total(ts[..k + 1]) == |s| - k
            case Some(next) =>
              && |ts| > k + 1 && Total(ts[..k + 1]) == next - k && Stands(s, dl, ts, k + 1, next + 1)
  {
    OneMore(ts, k);
    hide Total, Strchr;
    assert ts[k] == ts[k..][0] && ts[k + 1..] == ts[k..][1..];
  }

  // aimutil_tokslen: the length of the first tokens together.
  method TokensLength(toSearch: seq<byte>, index: int, dl: byte) returns (n: int)
    ensures var ts := Split(toSearch, dl); n == Total(ts[..Measured(ts, index)])
  {
    hide Stands, Split, Tokens, Total, Strchr;
    var curCount, last, next := 1, 0, Strchr(toSearch, 0, dl);
    ghost var ts := Split(toSearch, dl);
    FirstStands(toSearch, dl);
    NextStands(toSearch, dl, ts, 0, 0);
    while curCount < index && next.Some?
      invariant last <= |toSearch| && next == Strchr(toSearch, last, dl)
      invariant 1 <= curCount <= |ts| && (curCount <= index || curCount == 1)
      invariant next.None? <==> curCount == |ts|
      invariant Stands(toSearch, dl, ts, curCount - 1, last)
      decreases |toSearch| - last
    {
      NextStands(toSearch, dl, ts, curCount - 1, last);
      curCount := curCount + 1;
      last := next.value + 1;
      next := Strchr(toSearch, last, dl);
      NextStands(toSearch, dl, ts, curCount - 1, last);
    }
    NextStands(toSearch, dl, ts, curCount - 1, last);
    if curCount < index || next.None? {
      n := |toSearch| - (curCount - 1);
    } else {
      n := next.value - (curCount - 1);
    }
  }
}
