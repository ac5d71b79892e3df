/**
  The cache of message cookies (src/msgcookie.c): one list per session, searched by cookie and
  type. The entries are the caller's own objects, so a cookie may be cached again while it is
  already in the list.
*/
module MsgCookies {
  import opened Octets

  type Octet8 = s: seq<byte> | |s| == 8 witness [0, 0, 0, 0, 0, 0, 0, 0]

  datatype Key = Key(cookie: Octet8, typ: int)

  const TYPE_CHAT := 0x05

  class Cookie {
    const key: Key
    var addtime: int

    // aim_mkcookie.
    constructor (cookie: Octet8, typ: int)
      ensures key == Key(cookie, typ) && addtime == 0
    {
      key, addtime := Key(cookie, typ), 0;
    }
  }

  // ----- The list as a value -----

  // aim_checkcookie.
  function Check(list: seq<Cookie>, key: Key): Option<Cookie> {
    if |list| == 0 then None else if list[0].key == key then Some(list[0]) else Check(list[1..], key)
  }

  // aim_uncachecookie: the first entry with this key leaves.
  function Uncached(list: seq<Cookie>, key: Key): seq<Cookie> {
    if |list| == 0 then [] else if list[0].key == key then list[1..] else [list[0]] + Uncached(list[1..], key)
  }

  // aim_cookie_free: every link to this very object leaves.
  function Unlinked(list: seq<Cookie>, c: Cookie): seq<Cookie> {
    if |list| == 0 then []
    else if list[0] == c then Unlinked(list[1..], c)
    else [list[0]] + Unlinked(list[1..], c)
  }

  // aim_cachecookie.
  function Cached(list: seq<Cookie>, c: Cookie): seq<Cookie> {
    match Check(list, c.key)
    case Some(d) => if d == c then list else [c] + Unlinked(list, d)
    case None => [c] + list
  }

  // ----- The list in place -----

  // The loop of aim_cookie_free.
  method Unlink(list: seq<Cookie>, c: Cookie) returns (rest: seq<Cookie>)
    ensures rest == Unlinked(list, c)
  {
    rest := [];
    for k := 0 to |list|
      invariant rest + Unlinked(list[k..], c) == Unlinked(list, c)
    {
      assert list[k..][1..] == list[k + 1..];
      if list[k] != c {
        rest := rest + [list[k]];
      }
    }
    assert list[|list|..] == [];
  }

  // The loop of aim_uncachecookie.
  method Take(list: seq<Cookie>, key: Key) returns (r: Option<Cookie>, rest: seq<Cookie>)
    ensures r == Check(list, key) && rest == Uncached(list, key)
  {
    hide Check, Uncached;
    var k := 0;
    assert list[..0] + Uncached(list, key) == Uncached(list, key) && list[0..] == list;
    while k < |list|
      invariant k <= |list|
      invariant list[..k] + Uncached(list[k..], key) == Uncached(list, key)
      invariant Check(list[k..], key) == Check(list, key)
    {
      TakeNext(list, key, k);
      if list[k].key == key {
        return Some(list[k]), list[..k] + list[k + 1..];
      }
      k := k + 1;
    }
    TakeNone(key);
    assert list[..k] == list && list[k..] == [];
    return None, list;
  }

  lemma TakeNext(list: seq<Cookie>, key: Key, k: nat)
    requires k < |list|
    ensures list[k].key == key ==> Check(list[k..], key) == Some(list[k]) && Uncached(list[k..], key) == list[k + 1..]
    ensures list[k].key != key ==>
              && Check(list[k..], key) == Check(list[k + 1..], key)
              && list[..k] + Uncached(list[k..], key) == list[..k + 1] + Uncached(list[k + 1..], key)
  {
    assert list[k..][1..] == list[k + 1..];
    assert list[..k + 1] == list[..k] + [list[k]];
  }

  lemma TakeNone(key: Key)
    ensures Check([], key) == None && Uncached([], key) == []
  {
  }

  class CookieCache {
    var msgcookies: seq<Cookie>
    // The objects handed to free.
    ghost var freed: set<Cookie>

    // No key twice, and nothing freed is still linked.
    ghost predicate Valid()
      reads this
    {
      Distinct(msgcookies) && forall c :: c in msgcookies ==> c !in freed
    }

    constructor ()
      ensures Valid() && msgcookies == [] && freed == {}
    {
      msgcookies, freed := [], {};
    }

    method CheckCookie(key: Key) returns (r: Option<Cookie>)
      ensures r == Check(msgcookies, key)
    {
      for k := 0 to |msgcookies|
        invariant Check(msgcookies[k..], key) == Check(msgcookies, key)
      {
        if msgcookies[k].key == key {
          return Some(msgcookies[k]);
        }
        assert msgcookies[k..][1..] == msgcookies[k + 1..];
      }
      r := None;
    }

    method CookieFree(c: Cookie)
      requires Valid() && c !in freed
      modifies this
      ensures Valid() && msgcookies == Unlinked(old(msgcookies), c) && freed == old(freed) + {c}
    {
      UnlinkedIs(msgcookies, c);
      forall d {
        InUnlinked(msgcookies, c, d);
      }
      msgcookies := Unlink(msgcookies, c);
      freed := freed + {c};
    }

    // 1 when this very cookie was cached and only its time is renewed, otherwise 0.
    method CacheCookie(c: Cookie, now: int) returns (r: int)
      requires Valid() && c !in freed
      modifies this, c
      ensures Valid() && msgcookies == Cached(old(msgcookies), c) && c.addtime == now
      ensures r == if c in old(msgcookies) then 1 else 0
      ensures freed == old(freed) + match Check(old(msgcookies), c.key)
                                    case Some(d) => if d == c then {} else {d}
                                    case None => {}
    {
      CheckIn(msgcookies, c);
      CachedIs(msgcookies, c);
      var found := CheckCookie(c.key);
      if found == Some(c) {
        c.addtime := now;
        return 1;
      }
      if found.Some? {
        CheckSome(msgcookies, c.key);
        CookieFree(found.value);
      }
      c.addtime := now;
      msgcookies := [c] + msgcookies;
      r := 0;
    }

    method UncacheCookie(key: Key) returns (r: Option<Cookie>)
      requires Valid()
      modifies this
      ensures Valid() && msgcookies == Uncached(old(msgcookies), key) && r == Check(old(msgcookies), key)
      ensures freed == old(freed)
    {
      if msgcookies == [] {
        return None;
      }
      UncachedIs(msgcookies, key);
      forall d {
        InUncached(msgcookies, key, d);
      }
      var rest;
      r, rest := Take(msgcookies, key);
      msgcookies := rest;
    }

    // aim_uncachecookie, and then the cookie found is freed.
    method DropCookie(key: Key)
      requires Valid()
      modifies this
      ensures Valid() && msgcookies == Uncached(old(msgcookies), key)
      ensures freed == old(freed) + match Check(old(msgcookies), key) case Some(d) => {d} case None => {}
    {
      ghost var list := msgcookies;
      var ck := UncacheCookie(key);
      if ck.Some? {
        CheckSome(list, key);
        CheckUncached(list, key, key);
        CheckIn(msgcookies, ck.value);
        freed := freed + {ck.value};
      }
    }
  }

  // ----- What the list operations do -----

  // No key twice.
  predicate Distinct(list: seq<Cookie>) {
    |list| > 0 ==> Check(list[1..], list[0].key).None? && Distinct(list[1..])
  }

  lemma {:induction false} DistinctIs(list: seq<Cookie>)
    ensures Distinct(list) <==> forall j, k :: 0 <= j < k < |list| ==> list[j].key != list[k].key
  {
    if |list| > 0 {
      DistinctIs(list[1..]);
      CheckNone(list[1..], list[0].key);
      if Distinct(list[1..]) && Check(list[1..], list[0].key).None? {
        forall j, k | 0 <= j < k < |list| ensures list[j].key != list[k].key {
          assert j > 0 ==> list[1..][j - 1].key != list[1..][k - 1].key;
          assert list[1..][k - 1].key != list[0].key;
        }
      } else if Distinct(list[1..]) {
        var k :| 0 <= k < |list[1..]| && list[1..][k].key == list[0].key;
        assert list[0].key == list[k + 1].key;
      } else {
        var j, k :| 0 <= j < k < |list[1..]| && list[1..][j].key == list[1..][k].key;
        assert list[j + 1].key == list[k + 1].key;
      }
    }
  }

  lemma {:induction false} CheckNone(list: seq<Cookie>, key: Key)
    ensures Check(list, key).None? <==> forall k :: 0 <= k < |list| ==> list[k].key != key
  {
    if |list| > 0 {
      CheckNone(list[1..], key);
      if Check(list[1..], key).None? && list[0].key != key {
        forall k | 0 <= k < |list| ensures list[k].key != key {
          assert k > 0 ==> list[k] == list[1..][k - 1];
        }
      } else if list[0].key != key {
        var k :| 0 <= k < |list[1..]| && list[1..][k].key == key;
        assert list[k + 1].key == key;
      }
    }
  }

  lemma {:induction false} CheckSome(list: seq<Cookie>, key: Key)
    requires Check(list, key).Some?
    ensures Check(list, key).value in list && Check(list, key).value.key == key
  {
    if list[0].key != key {
      CheckSome(list[1..], key);
    }
  }

  lemma {:induction false} CheckIn(list: seq<Cookie>, c: Cookie)
    requires Distinct(list)
    ensures c in list <==> Check(list, c.key) == Some(c)
  {
    if |list| > 0 {
      assert list == [list[0]] + list[1..];
      CheckIn(list[1..], c);
    }
  }

  // After aim_uncachecookie the key is absent; every other key is as before.
  lemma {:induction false} CheckUncached(list: seq<Cookie>, key: Key, other: Key)
    requires Distinct(list)
    ensures Check(Uncached(list, key), other) == if other == key then None else Check(list, other)
  {
    if |list| > 0 {
      CheckUncached(list[1..], key, other);
      assert list[0].key != key ==> Uncached(list, key)[1..] == Uncached(list[1..], key);
    }
  }

  lemma {:induction false} UncachedIs(list: seq<Cookie>, key: Key)
    requires Distinct(list)
    ensures Distinct(Uncached(list, key))
  {
    if |list| > 0 {
      UncachedIs(list[1..], key);
      CheckUncached(list[1..], key, list[0].key);
      assert list[0].key != key ==> Uncached(list, key)[1..] == Uncached(list[1..], key);
    }
  }

  lemma {:induction false} InUncached(list: seq<Cookie>, key: Key, d: Cookie)
    ensures d in Uncached(list, key) ==> d in list
  {
    if |list| > 0 {
      InUncached(list[1..], key, d);
      assert list == [list[0]] + list[1..];
    }
  }

  lemma {:induction false} CheckUnlinked(list: seq<Cookie>, c: Cookie, other: Key)
    requires Distinct(list)
    ensures Check(Unlinked(list, c), other) == if Check(list, other) == Some(c) then None else Check(list, other)
  {
    if |list| > 0 {
      CheckUnlinked(list[1..], c, other);
      assert list[0] != c ==> Unlinked(list, c)[1..] == Unlinked(list[1..], c);
    }
  }

  lemma {:induction false} UnlinkedIs(list: seq<Cookie>, c: Cookie)
    requires Distinct(list)
    ensures Distinct(Unlinked(list, c))
  {
    if |list| > 0 {
      UnlinkedIs(list[1..], c);
      CheckUnlinked(list[1..], c, list[0].key);
      assert list[0] != c ==> Unlinked(list, c)[1..] == Unlinked(list[1..], c);
    }
  }

  lemma {:induction false} InUnlinked(list: seq<Cookie>, c: Cookie, d: Cookie)
    ensures d in Unlinked(list, c) <==> d in list && d != c
  {
    if |list| > 0 {
      InUnlinked(list[1..], c, d);
      assert list == [list[0]] + list[1..];
    }
  }

  // aim_cachecookie touches no key but its own.
  lemma CheckCached(list: seq<Cookie>, c: Cookie, other: Key)
    requires Distinct(list)
    ensures Check(Cached(list, c), other) == if other == c.key then Some(c) else Check(list, other)
  {
    if Check(list, other).Some? {
      CheckSome(list, other);
    }
    if Check(list, c.key).Some? {
      CheckSome(list, c.key);
      CheckUnlinked(list, Check(list, c.key).value, other);
    }
  }

  lemma CachedIs(list: seq<Cookie>, c: Cookie)
    requires Distinct(list)
    ensures Distinct(Cached(list, c))
  {
    match Check(list, c.key)
    case Some(d) =>
      if d != c {
        UnlinkedIs(list, d);
        CheckUnlinked(list, d, c.key);
        assert Cached(list, c)[1..] == Unlinked(list, d);
      }
    case None => assert Cached(list, c)[1..] == list;
  }

  // ----- Refinement of a map -----

  // The list holds exactly the cookies of m, each under its own key.
  ghost predicate Refines(list: seq<Cookie>, m: map<Key, Cookie>) {
    Distinct(list) && forall key :: Check(list, key) == Entry(m, key)
  }

  function Entry(m: map<Key, Cookie>, key: Key): Option<Cookie> {
    if key in m then Some(m[key]) else None
  }

  datatype Op = Cache(c: Cookie) | Uncache(key: Key) | Look(key: Key) | Free(c: Cookie)

  datatype Reply = Code(r: int) | Found(c: Option<Cookie>) | Nothing

  function ListStep(list: seq<Cookie>, op: Op): (seq<Cookie>, Reply) {
    match op
    case Cache(c) => (Cached(list, c), Code(if c in list then 1 else 0))
    case Uncache(key) => (Uncached(list, key), Found(Check(list, key)))
    case Look(key) => (list, Found(Check(list, key)))
    case Free(c) => (Unlinked(list, c), Nothing)
  }

  function MapStep(m: map<Key, Cookie>, op: Op): (map<Key, Cookie>, Reply) {
    match op
    case Cache(c) => (m[c.key := c], Code(if Entry(m, c.key) == Some(c) then 1 else 0))
    case Uncache(key) => (m - {key}, Found(Entry(m, key)))
    case Look(key) => (m, Found(Entry(m, key)))
    case Free(c) => (if Entry(m, c.key) == Some(c) then m - {c.key} else m, Nothing)
  }

  function ListRun(list: seq<Cookie>, ops: seq<Op>): (seq<Cookie>, seq<Reply>)
    decreases |ops|
  {
    if |ops| == 0 then (list, [])
    else
      var (next, reply) := ListStep(list, ops[0]);
      var (end, replies) := ListRun(next, ops[1..]);
      (end, [reply] + replies)
  }

  function MapRun(m: map<Key, Cookie>, ops: seq<Op>): (map<Key, Cookie>, seq<Reply>)
    decreases |ops|
  {
    if |ops| == 0 then (m, [])
    else
      var (next, reply) := MapStep(m, ops[0]);
      var (end, replies) := MapRun(next, ops[1..]);
      (end, [reply] + replies)
  }

  lemma StepRefines(list: seq<Cookie>, m: map<Key, Cookie>, op: Op)
    requires Refines(list, m)
    ensures Refines(ListStep(list, op).0, MapStep(m, op).0)
    ensures ListStep(list, op).1 == MapStep(m, op).1
  {
    match op
    case Cache(c) =>
      CachedIs(list, c);
      CheckIn(list, c);
      forall key ensures Check(Cached(list, c), key) == Entry(m[c.key := c], key) {
        CheckCached(list, c, key);
        assert Check(list, key) == Entry(m, key);
      }
    case Uncache(key) =>
      UncachedIs(list, key);
      forall k ensures Check(Uncached(list, key), k) == Entry(m - {key}, k) {
        CheckUncached(list, key, k);
        assert Check(list, k) == Entry(m, k);
      }
    case Look(key) =>
    case Free(c) =>
      UnlinkedIs(list, c);
      forall key ensures Check(Unlinked(list, c), key) == Entry(MapStep(m, op).0, key) {
        CheckUnlinked(list, c, key);
        if Check(list, key).Some? {
          CheckSome(list, key);
        }
        assert Check(list, key) == Entry(m, key);
      }
  }

  // Over every run from any list without a key twice, the list behaves as a map on (cookie, type).
  lemma {:induction false} RunRefines(list: seq<Cookie>, m: map<Key, Cookie>, ops: seq<Op>)
    requires Refines(list, m)
    ensures Refines(ListRun(list, ops).0, MapRun(m, ops).0)
    ensures ListRun(list, ops).1 == MapRun(m, ops).1
    decreases |ops|
  {
    if |ops| > 0 {
      StepRefines(list, m, ops[0]);
      RunRefines(ListStep(list, ops[0]).0, MapStep(m, ops[0]).0, ops[1..]);
    }
  }
}
