/**
  SNAC headers and the cache of outstanding SNACs (src/snac.c): a 16-bucket hash in which
  each bucket is a list with the newest entry first.
*/
module Snacs {
  import opened Octets
  import opened ByteStream

  // The puts of aim_putsnac.
  function SnacChunks(family: u16, subtype: u16, flags: u16, id: u32): seq<seq<byte>> {
    [Octets.Put16(family), Octets.Put16(subtype), Octets.Put16(flags), Octets.Put32(id)]
  }

  method PutSnac(bs: Bstream, family: u16, subtype: u16, flags: u16, id: u32) returns (n: nat)
    requires bs.Valid()
    modifies bs`offset, bs.data
    ensures bs.Valid() && bs.View() == PutAll(old(bs.View()), SnacChunks(family, subtype, flags, id))
  {
    Puts4(bs.View(), Octets.Put16(family), Octets.Put16(subtype), Octets.Put16(flags), Octets.Put32(id));
    n := bs.Put16(family);
    n := bs.Put16(subtype);
    n := bs.Put16(flags);
    n := bs.Put32(id);
    n := 10;
  }

  lemma SnacFlatten(family: u16, subtype: u16, flags: u16, id: u32)
    ensures Flatten(SnacChunks(family, subtype, flags, id))
         == Octets.Put16(family) + Octets.Put16(subtype) + Octets.Put16(flags) + Octets.Put32(id)
  {
    var s := SnacChunks(family, subtype, flags, id);
    FlattenTwo(s[0], s[1]);
    assert [s[0], s[1]] + [s[2]] == [s[0], s[1], s[2]];
    FlattenSnoc([s[0], s[1]], s[2]);
    assert [s[0], s[1], s[2]] + [s[3]] == s;
    FlattenSnoc([s[0], s[1], s[2]], s[3]);
  }

  /** A SNAC header on the wire: family, subtype, flags and id, each high-order byte first. */
  lemma HeaderLayout(family: u16, subtype: u16, flags: u16, id: u32)
    ensures var h := Flatten(SnacChunks(family, subtype, flags, id));
            && |h| == 10
            && h[..6] == [family / 0x100, family % 0x100, subtype / 0x100, subtype % 0x100,
                          flags / 0x100, flags % 0x100]
            && Octets.Get32(h[6..]) == id
  {
    SnacFlatten(family, subtype, flags, id);
    Octets.GetPut32(id);
    hide SnacChunks, Flatten, Octets.Put32, Octets.Get32;
    var front := Octets.Put16(family) + Octets.Put16(subtype) + Octets.Put16(flags);
    assert |front| == 6 && (front + Octets.Put32(id))[6..] == Octets.Put32(id);
  }

  // ----- The cache as a value -----

  const SNAC_HASH_SIZE := 16

  datatype Snac = Snac(id: u32, family: u16, typ: u16, flags: u16, data: seq<byte>, issuetime: int)

  datatype Cache = Cache(buckets: seq<seq<Snac>>, next: u32) {
    ghost predicate Shaped() {
      |buckets| == SNAC_HASH_SIZE
    }
  }

  // The first entry with this id.
  function Find(list: seq<Snac>, id: u32): Option<Snac> {
    if |list| == 0 then None else if list[0].id == id then Some(list[0]) else Find(list[1..], id)
  }

  // The list without the first entry with this id.
  function Without(list: seq<Snac>, id: u32): seq<Snac> {
    if |list| == 0 then [] else if list[0].id == id then list[1..] else [list[0]] + Without(list[1..], id)
  }

  // The entries that are not older than maxage.
  function Young(list: seq<Snac>, curtime: int, maxage: int): seq<Snac> {
    if |list| == 0 then []
    else if curtime - list[0].issuetime > maxage then Young(list[1..], curtime, maxage)
    else [list[0]] + Young(list[1..], curtime, maxage)
  }

  function Lookup(c: Cache, id: u32): Option<Snac>
    requires c.Shaped()
  {
    Find(c.buckets[id % SNAC_HASH_SIZE], id)
  }

  // aim_newsnac: in front of its bucket.
  function Insert(c: Cache, s: Snac): (d: Cache)
    requires c.Shaped()
    ensures d.Shaped()
  {
    var i := s.id % SNAC_HASH_SIZE;
    c.(buckets := c.buckets[i := [s] + c.buckets[i]])
  }

  // aim_cachesnac: the id counter has 32 bits.
  function Issue(c: Cache, family: u16, typ: u16, flags: u16, data: seq<byte>, now: int): (d: Cache)
    requires c.Shaped()
    ensures d.Shaped()
  {
    Insert(c, Snac(c.next, family, typ, flags, data, now)).(next := (c.next + 1) % 0x1_0000_0000)
  }

  // aim_remsnac.
  function Remove(c: Cache, id: u32): (d: Cache)
    requires c.Shaped()
    ensures d.Shaped()
  {
    var i := id % SNAC_HASH_SIZE;
    c.(buckets := c.buckets[i := Without(c.buckets[i], id)])
  }

  // aim_cleansnacs; times holds the clock reading taken for each bucket.
  function Clean(c: Cache, maxage: int, times: seq<int>): (d: Cache)
    requires c.Shaped() && |times| == SNAC_HASH_SIZE
    ensures d.Shaped()
  {
    c.(buckets := seq(SNAC_HASH_SIZE, i requires 0 <= i < SNAC_HASH_SIZE => Young(c.buckets[i], times[i], maxage)))
  }

  // ----- The cache in place -----

  // The loop of aim_remsnac: the first entry with this id leaves the list.
  method Unlink(list: seq<Snac>, id: u32) returns (r: Option<Snac>, rest: seq<Snac>)
    ensures r == Find(list, id) && rest == Without(list, id)
  {
    var k := 0;
    while k < |list|
      invariant k <= |list|
      invariant list[..k] + Without(list[k..], id) == Without(list, id)
      invariant Find(list[k..], id) == Find(list, id)
    {
      assert list[k..][1..] == list[k + 1..];
      if list[k].id == id {
        return Some(list[k]), list[..k] + list[k + 1..];
      }
      assert list[..k + 1] == list[..k] + [list[k]];
      k := k + 1;
    }
    assert list[..k] == list && list[k..] == [];
    return None, list;
  }

  // The inner loop of aim_cleansnacs.
  method Sweep(list: seq<Snac>, curtime: int, maxage: int) returns (kept: seq<Snac>)
    ensures kept == Young(list, curtime, maxage)
  {
    kept := [];
    for k := 0 to |list|
      invariant kept + Young(list[k..], curtime, maxage) == Young(list, curtime, maxage)
    {
      assert list[k..][1..] == list[k + 1..];
      if curtime - list[k].issuetime > maxage {
      } else {
        kept := kept + [list[k]];
      }
    }
    assert list[|list|..] == [];
  }

  class SnacCache {
    const hash: array<seq<Snac>>
    var next: u32

    ghost predicate Valid()
      reads this
    {
      hash.Length == SNAC_HASH_SIZE
    }

    ghost function View(): (c: Cache)
      requires Valid()
      reads this, hash
      ensures c.Shaped()
    {
      Cache(hash[..], next)
    }

    // aim_initsnachash, with the counter as aim_session_init leaves it.
    constructor ()
      ensures Valid() && fresh(hash) && View() == EMPTY
    {
      hash := new seq<Snac>[SNAC_HASH_SIZE](i => []);
      next := 1;
      new;
      assert hash[..] == EMPTY.buckets;
    }

    method NewSnac(s: Snac) returns (id: u32)
      requires Valid()
      modifies hash
      ensures View() == Insert(old(View()), s) && id == s.id
    {
      var index := s.id % SNAC_HASH_SIZE;
      hash[index] := [s] + hash[index];
      id := s.id;
    }

    method CacheSnac(family: u16, typ: u16, flags: u16, data: seq<byte>, now: int) returns (id: u32)
      requires Valid()
      modifies hash, this
      ensures Valid() && View() == Issue(old(View()), family, typ, flags, data, now)
      ensures id == old(next)
    {
      var snac := Snac(next, family, typ, flags, data, now);
      next := (next + 1) % 0x1_0000_0000;
      id := NewSnac(snac);
    }

    method RemSnac(id: u32) returns (r: Option<Snac>)
      requires Valid()
      modifies hash
      ensures View() == Remove(old(View()), id) && r == Lookup(old(View()), id)
    {
      var index := id % SNAC_HASH_SIZE;
      var rest;
      r, rest := Unlink(hash[index], id);
      hash[index] := rest;
    }

    method CleanSnacs(maxage: int, times: seq<int>)
      requires Valid() && |times| == SNAC_HASH_SIZE
      modifies hash
      ensures View() == Clean(old(View()), maxage, times)
    {
      for i := 0 to SNAC_HASH_SIZE
        invariant forall j :: 0 <= j < i ==> hash[j] == Young(old(hash[j]), times[j], maxage)
        invariant forall j :: i <= j < SNAC_HASH_SIZE ==> hash[j] == old(hash[j])
      {
        if hash[i] == [] {
          continue;
        }
        var kept := Sweep(hash[i], times[i], maxage);
        hash[i] := kept;
      }
    }
  }

  const EMPTY := Cache(seq(SNAC_HASH_SIZE, i => []), 1)

  // ----- Refinement of a map -----

  // Every entry lies in the bucket of its id, and no bucket holds an id twice.
  ghost predicate Placed(c: Cache)
    requires c.Shaped()
  {
    forall i, k :: 0 <= i < SNAC_HASH_SIZE && 0 <= k < |c.buckets[i]| ==> c.buckets[i][k].id % SNAC_HASH_SIZE == i
  }

  ghost predicate Distinct(list: seq<Snac>) {
    forall j, k :: 0 <= j < k < |list| ==> list[j].id != list[k].id
  }

  ghost predicate Unique(c: Cache)
    requires c.Shaped()
  {
    forall i :: 0 <= i < SNAC_HASH_SIZE ==> Distinct(c.buckets[i])
  }

  function Entry(m: map<u32, Snac>, id: u32): Option<Snac> {
    if id in m then Some(m[id]) else None
  }

  // The hash holds exactly the entries of m.
  ghost predicate Refines(c: Cache, m: map<u32, Snac>) {
    c.Shaped() && Placed(c) && Unique(c) && forall id: u32 :: Lookup(c, id) == Entry(m, id)
  }

  lemma {:induction false} FindIs(list: seq<Snac>, id: u32)
    ensures Find(list, id).None? <==> forall k :: 0 <= k < |list| ==> list[k].id != id
    ensures Find(list, id).Some? ==> Find(list, id).value in list && Find(list, id).value.id == id
  {
    if |list| > 0 && list[0].id != id {
      FindIs(list[1..], id);
    }
  }

  lemma {:induction false} WithoutIs(list: seq<Snac>, id: u32)
    requires Distinct(list)
    ensures Distinct(Without(list, id))
    ensures forall s :: s in Without(list, id) <==> s in list && s.id != id
    ensures forall i: u32 :: Find(Without(list, id), i) == if i == id then None else Find(list, i)
  {
    if |list| > 0 {
      if list[0].id == id {
        FindIs(list[1..], id);
      } else {
        WithoutIs(list[1..], id);
        assert list == [list[0]] + list[1..];
      }
    }
  }

  lemma {:induction false} YoungMembers(list: seq<Snac>, curtime: int, maxage: int)
    ensures forall s :: s in Young(list, curtime, maxage) <==> s in list && curtime - s.issuetime <= maxage
  {
    if |list| > 0 {
      YoungMembers(list[1..], curtime, maxage);
      assert list == [list[0]] + list[1..];
    }
  }

  lemma {:induction false} YoungIs(list: seq<Snac>, curtime: int, maxage: int)
    requires Distinct(list)
    ensures Distinct(Young(list, curtime, maxage))
  {
    if |list| > 0 {
      var rest := Young(list[1..], curtime, maxage);
      YoungIs(list[1..], curtime, maxage);
      YoungMembers(list[1..], curtime, maxage);
      forall k | 0 <= k < |rest| ensures rest[k].id != list[0].id {
        assert rest[k] in list[1..];
      }
    }
  }

  lemma {:induction false} YoungFind(list: seq<Snac>, curtime: int, maxage: int, id: u32)
    requires Distinct(list)
    ensures var s := Find(list, id);
            Find(Young(list, curtime, maxage), id)
              == if s.Some? && curtime - s.value.issuetime > maxage then None else s
  {
    if |list| > 0 {
      YoungFind(list[1..], curtime, maxage, id);
      FindIs(list[1..], list[0].id);
      var rest := Young(list[1..], curtime, maxage);
      assert ([list[0]] + rest)[1..] == rest;
    }
  }

  // The entries of m that aim_cleansnacs keeps.
  function Kept(m: map<u32, Snac>, maxage: int, times: seq<int>): map<u32, Snac>
    requires |times| == SNAC_HASH_SIZE
  {
    map id | id in m && times[id % SNAC_HASH_SIZE] - m[id].issuetime <= maxage :: m[id]
  }

  lemma EmptyRefines()
    ensures Refines(EMPTY, map[])
  {
  }

  // Inserting refines a map update exactly when the id is not outstanding.
  lemma InsertRefines(c: Cache, m: map<u32, Snac>, s: Snac)
    requires Refines(c, m)
    ensures Refines(Insert(c, s), m[s.id := s]) <==> s.id !in m
  {
    var i := s.id % SNAC_HASH_SIZE;
    var d := Insert(c, s);
    FindIs(c.buckets[i], s.id);
    assert Lookup(c, s.id) == Entry(m, s.id);
    assert d.buckets[i][1..] == c.buckets[i];
    if s.id !in m {
      forall j, k | 0 <= j < k < |d.buckets[i]| ensures d.buckets[i][j].id != d.buckets[i][k].id {
        assert d.buckets[i][k] == c.buckets[i][k - 1];
      }
      assert Unique(d);
      forall id: u32 ensures Lookup(d, id) == Entry(m[s.id := s], id) {
        assert Lookup(c, id) == Entry(m, id);
      }
    } else {
      var k :| 0 <= k < |c.buckets[i]| && c.buckets[i][k].id == s.id;
      assert d.buckets[i][0].id == d.buckets[i][k + 1].id;
    }
  }

  // aim_remsnac takes out the entry it returns, and only that one.
  lemma RemoveRefines(c: Cache, m: map<u32, Snac>, id: u32)
    requires Refines(c, m)
    ensures Refines(Remove(c, id), m - {id}) && Lookup(c, id) == Entry(m, id)
  {
    var i := id % SNAC_HASH_SIZE;
    var d := Remove(c, id);
    WithoutIs(c.buckets[i], id);
    forall j, k | 0 <= j < SNAC_HASH_SIZE && 0 <= k < |d.buckets[j]|
      ensures d.buckets[j][k].id % SNAC_HASH_SIZE == j
    {
      assert d.buckets[j][k] in d.buckets[j];
      assert d.buckets[j][k] in c.buckets[j];
    }
    forall x: u32 ensures Lookup(d, x) == Entry(m - {id}, x) {
      assert Lookup(c, x) == Entry(m, x);
    }
  }

  // aim_cleansnacs takes out exactly the entries older than maxage.
  lemma CleanRefines(c: Cache, m: map<u32, Snac>, maxage: int, times: seq<int>)
    requires Refines(c, m) && |times| == SNAC_HASH_SIZE
    ensures Refines(Clean(c, maxage, times), Kept(m, maxage, times))
  {
    var d := Clean(c, maxage, times);
    forall j | 0 <= j < SNAC_HASH_SIZE
      ensures Distinct(d.buckets[j])
      ensures forall k :: 0 <= k < |d.buckets[j]| ==> d.buckets[j][k].id % SNAC_HASH_SIZE == j
    {
      YoungIs(c.buckets[j], times[j], maxage);
      YoungMembers(c.buckets[j], times[j], maxage);
      forall k | 0 <= k < |d.buckets[j]| ensures d.buckets[j][k].id % SNAC_HASH_SIZE == j {
        assert d.buckets[j][k] in d.buckets[j];
        assert d.buckets[j][k] in c.buckets[j];
      }
    }
    forall x: u32 ensures Lookup(d, x) == Entry(Kept(m, maxage, times), x) {
      assert Lookup(c, x) == Entry(m, x);
      YoungFind(c.buckets[x % SNAC_HASH_SIZE], times[x % SNAC_HASH_SIZE], maxage, x);
    }
  }

  // ----- Runs -----

  datatype Op =
    | Cached(family: u16, typ: u16, flags: u16, data: seq<byte>, now: int)
    | Taken(id: u32)
    | Cleaned(maxage: int, times: seq<int>)
  {
    ghost predicate Valid() {
      Cleaned? ==> |times| == SNAC_HASH_SIZE
    }
  }

  datatype Reply = Id(id: u32) | Found(snac: Option<Snac>) | Nothing

  function CacheStep(c: Cache, op: Op): (r: (Cache, Reply))
    requires c.Shaped() && op.Valid()
    ensures r.0.Shaped()
  {
    match op
    case Cached(family, typ, flags, data, now) => (Issue(c, family, typ, flags, data, now), Id(c.next))
    case Taken(id) => (Remove(c, id), Found(Lookup(c, id)))
    case Cleaned(maxage, times) => (Clean(c, maxage, times), Nothing)
  }

  // The same step on a map, where the n-th SNAC cached gets id n + 1 modulo 2^32.
  datatype Outstanding = Outstanding(m: map<u32, Snac>, n: nat)

  function IdOf(n: nat): u32 {
    (n + 1) % 0x1_0000_0000
  }

  function MapStep(o: Outstanding, op: Op): (r: (Outstanding, Reply))
    requires op.Valid()
  {
    match op
    case Cached(family, typ, flags, data, now) =>
      var id := IdOf(o.n);
      (Outstanding(o.m[id := Snac(id, family, typ, flags, data, now)], o.n + 1), Id(id))
    case Taken(id) => (o.(m := o.m - {id}), Found(Entry(o.m, id)))
    case Cleaned(maxage, times) => (o.(m := Kept(o.m, maxage, times)), Nothing)
  }

  function CacheRun(c: Cache, ops: seq<Op>): (r: (Cache, seq<Reply>))
    requires c.Shaped() && forall op :: op in ops ==> op.Valid()
    ensures r.0.Shaped()
    decreases |ops|
  {
    if |ops| == 0 then (c, [])
    else
      var (d, reply) := CacheStep(c, ops[0]);
      var (e, replies) := CacheRun(d, ops[1..]);
      (e, [reply] + replies)
  }

  function MapRun(o: Outstanding, ops: seq<Op>): (r: (Outstanding, seq<Reply>))
    requires forall op :: op in ops ==> op.Valid()
    decreases |ops|
  {
    if |ops| == 0 then (o, [])
    else
      var (p, reply) := MapStep(o, ops[0]);
      var (q, replies) := MapRun(p, ops[1..]);
      (q, [reply] + replies)
  }

  function Issues(ops: seq<Op>): nat {
    if |ops| == 0 then 0 else (if ops[0].Cached? then 1 else 0) + Issues(ops[1..])
  }

  // How many SNACs were cached before this id comes up for the first time.
  function Serial(id: u32): nat {
    if id == 0 then 0xffff_ffff else id - 1
  }

  // Only ids already given out are outstanding.
  ghost predicate Past(o: Outstanding) {
    forall id :: id in o.m ==> Serial(id) < o.n
  }

  ghost predicate Agrees(c: Cache, o: Outstanding) {
    Refines(c, o.m) && c.next == IdOf(o.n) && Past(o)
  }

  // A step is the same on the hash and on the map, except that an id given out while it is
  // outstanding breaks the refinement.
  lemma StepRefines(c: Cache, o: Outstanding, op: Op)
    requires Refines(c, o.m) && c.next == IdOf(o.n) && op.Valid()
    ensures var (d, r) := CacheStep(c, op);
            var (p, q) := MapStep(o, op);
            && (Refines(d, p.m) <==> !(op.Cached? && IdOf(o.n) in o.m)) && d.next == IdOf(p.n) && r == q
  {
    match op
    case Cached(family, typ, flags, data, now) =>
      var s := Snac(c.next, family, typ, flags, data, now);
      InsertRefines(c, o.m, s);
      SameHash(Insert(c, s), Issue(c, family, typ, flags, data, now), o.m[s.id := s]);
    case Taken(id) => RemoveRefines(c, o.m, id);
    case Cleaned(maxage, times) => CleanRefines(c, o.m, maxage, times);
  }

  lemma StepAgrees(c: Cache, o: Outstanding, op: Op)
    requires Agrees(c, o) && op.Valid() && (op.Cached? ==> o.n < 0x1_0000_0000)
    ensures Agrees(CacheStep(c, op).0, MapStep(o, op).0) && CacheStep(c, op).1 == MapStep(o, op).1
  {
    assert op.Cached? ==> Serial(IdOf(o.n)) == o.n;
    StepRefines(c, o, op);
    hide Refines;
  }

  lemma SameHash(c: Cache, d: Cache, m: map<u32, Snac>)
    requires c.Shaped() && c.buckets == d.buckets
    ensures Refines(c, m) <==> Refines(d, m)
  {
    assert forall id: u32 :: Lookup(c, id) == Lookup(d, id);
  }

  lemma {:induction false} RunAgrees(c: Cache, o: Outstanding, ops: seq<Op>)
    requires Refines(c, o.m) && c.next == IdOf(o.n) && (forall op :: op in ops ==> op.Valid()) && NoneReissued(o, ops)
    ensures Refines(CacheRun(c, ops).0, MapRun(o, ops).0.m) && CacheRun(c, ops).1 == MapRun(o, ops).1
    decreases |ops|
  {
    if |ops| > 0 {
      StepRefines(c, o, ops[0]);
      RunAgrees(CacheStep(c, ops[0]).0, MapStep(o, ops[0]).0, ops[1..]);
    }
  }

  // No id is given out while it is outstanding.
  ghost predicate NoneReissued(o: Outstanding, ops: seq<Op>)
    requires forall op :: op in ops ==> op.Valid()
    decreases |ops|
  {
    |ops| > 0 ==> (ops[0].Cached? ==> IdOf(o.n) !in o.m) && NoneReissued(MapStep(o, ops[0]).0, ops[1..])
  }

  // The hash holds exactly the entries of the map before and after every step.
  ghost predicate AlwaysRefines(c: Cache, o: Outstanding, ops: seq<Op>)
    requires c.Shaped() && forall op :: op in ops ==> op.Valid()
    decreases |ops|
  {
    && Refines(c, o.m)
    && (|ops| > 0 ==> AlwaysRefines(CacheStep(c, ops[0]).0, MapStep(o, ops[0]).0, ops[1..]))
  }

  lemma {:induction false} AlwaysExactly(c: Cache, o: Outstanding, ops: seq<Op>)
    requires Refines(c, o.m) && c.next == IdOf(o.n) && forall op :: op in ops ==> op.Valid()
    ensures AlwaysRefines(c, o, ops) <==> NoneReissued(o, ops)
    decreases |ops|
  {
    if |ops| > 0 {
      StepRefines(c, o, ops[0]);
      var d, p := CacheStep(c, ops[0]).0, MapStep(o, ops[0]).0;
      if ops[0].Cached? && IdOf(o.n) in o.m {
      } else {
        AlwaysExactly(d, p, ops[1..]);
      }
    }
  }

  /** The hash behaves as a map from id to entry in exactly those runs in which no id is given out
      while it is still outstanding. */
  lemma HashIsMap(ops: seq<Op>)
    requires forall op :: op in ops ==> op.Valid()
    ensures AlwaysRefines(EMPTY, Outstanding(map[], 0), ops) <==> NoneReissued(Outstanding(map[], 0), ops)
    ensures NoneReissued(Outstanding(map[], 0), ops) ==>
              CacheRun(EMPTY, ops).1 == MapRun(Outstanding(map[], 0), ops).1
  {
    EmptyRefines();
    AlwaysExactly(EMPTY, Outstanding(map[], 0), ops);
    if NoneReissued(Outstanding(map[], 0), ops) {
      RunAgrees(EMPTY, Outstanding(map[], 0), ops);
    }
  }

  lemma {:induction false} NoneReissuedYet(o: Outstanding, ops: seq<Op>)
    requires Past(o) && (forall op :: op in ops ==> op.Valid()) && o.n + Issues(ops) <= 0x1_0000_0000
    ensures NoneReissued(o, ops)
    decreases |ops|
  {
    if |ops| > 0 {
      assert ops[0].Cached? ==> Serial(IdOf(o.n)) == o.n;
      NoneReissuedYet(MapStep(o, ops[0]).0, ops[1..]);
    }
  }

  // That is so in every run that caches at most 2^32 SNACs.
  lemma HashIsMapAtFirst(ops: seq<Op>)
    requires (forall op :: op in ops ==> op.Valid()) && Issues(ops) <= 0x1_0000_0000
    ensures NoneReissued(Outstanding(map[], 0), ops)
    ensures Refines(CacheRun(EMPTY, ops).0, MapRun(Outstanding(map[], 0), ops).0.m)
    ensures CacheRun(EMPTY, ops).1 == MapRun(Outstanding(map[], 0), ops).1
  {
    NoneReissuedYet(Outstanding(map[], 0), ops);
    EmptyRefines();
    RunAgrees(EMPTY, Outstanding(map[], 0), ops);
  }

  // An id that was given out and is no longer outstanding stays away.
  lemma {:induction false} StaysGone(c: Cache, o: Outstanding, ops: seq<Op>, id: u32)
    requires Agrees(c, o) && (forall op :: op in ops ==> op.Valid()) && o.n + Issues(ops) <= 0x1_0000_0000
    requires id !in o.m && Serial(id) < o.n
    ensures Lookup(CacheRun(c, ops).0, id) == None
    decreases |ops|
  {
    if |ops| == 0 {
      assert Lookup(c, id) == Entry(o.m, id);
    } else {
      StepAgrees(c, o, ops[0]);
      assert Serial(IdOf(o.n)) == o.n || !ops[0].Cached?;
      StaysGone(CacheStep(c, ops[0]).0, MapStep(o, ops[0]).0, ops[1..], id);
    }
  }

  // aim_remsnac hands out an entry once: after that the id finds nothing, whatever happens in between.
  lemma TakenOnce(c: Cache, o: Outstanding, id: u32, ops: seq<Op>)
    requires Agrees(c, o) && (forall op :: op in ops ==> op.Valid()) && o.n + Issues(ops) <= 0x1_0000_0000
    requires Lookup(c, id).Some?
    ensures Lookup(c, id).value.id == id && Lookup(CacheRun(Remove(c, id), ops).0, id) == None
  {
    FindIs(c.buckets[id % SNAC_HASH_SIZE], id);
    StepAgrees(c, o, Taken(id));
    StaysGone(Remove(c, id), MapStep(o, Taken(id)).0, ops, id);
  }
}
