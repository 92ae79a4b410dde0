/** Whole histories of the PAC result cache: what a hit means, when an entry is sure to be kept,
    and that the list is the recency order of the keys that were looked up. */
module CacheHistory {
  import opened Basics
  import opened ResultCaches

  datatype Op<K, V> =
    | GetOp(key: K, now: int)
    | PutOp(key: K, result: V, now: int)
    | PutIfGenOp(key: K, result: V, gen: nat, now: int)
    | InvalidateOp

  function Step<K(==), V>(c: Cache<K, V>, op: Op<K, V>): (c': Cache<K, V>)
    requires c.cap > 0
    ensures c'.cap == c.cap && c'.ttl == c.ttl
  {
    match op
    case GetOp(key, now) => Get(c, key, now).1
    case PutOp(key, result, now) => Put(c, key, result, c.gen, now)
    case PutIfGenOp(key, result, gen, now) => PutIfGen(c, key, result, gen, now)
    case InvalidateOp => Invalidate(c)
  }

  function Exec<K(==), V>(c: Cache<K, V>, ops: seq<Op<K, V>>): (c': Cache<K, V>)
    requires c.cap > 0
    ensures c'.cap == c.cap && c'.ttl == c.ttl
  {
    if ops == [] then c else Step(Exec(c, ops[..|ops| - 1]), ops[|ops| - 1])
  }

  // ---------------------------------------------------------------- the simple reference

  /** The generation is the number of invalidations so far. */
  function Generation<K(==), V>(ops: seq<Op<K, V>>): nat {
    if ops == [] then 0
    else Generation(ops[..|ops| - 1]) + if ops[|ops| - 1].InvalidateOp? then 1 else 0
  }

  /** The latest accepted put of `key` since the last invalidation, with its time. */
  function LatestPut<K(==), V>(ops: seq<Op<K, V>>, key: K): Option<(V, int)> {
    if ops == [] then None
    else
      var before := ops[..|ops| - 1];
      match ops[|ops| - 1]
      case InvalidateOp => None
      case PutOp(k, result, now) => if k == key then Some((result, now)) else LatestPut(before, key)
      case PutIfGenOp(k, result, gen, now) =>
        if k == key && gen == Generation(before) then Some((result, now)) else LatestPut(before, key)
      case GetOp(_, _) => LatestPut(before, key)
  }

  ghost predicate Represents<K, V>(c: Cache<K, V>, ops: seq<Op<K, V>>) {
    && Coherent(c)
    && c.gen == Generation(ops)
    && forall e :: e in c.order ==> LatestPut(ops, e.key) == Some((e.result, e.expires - c.ttl))
  }

  lemma PutReplaces<K, V>(c: Cache<K, V>, key: K, result: V, now: int)
    requires Coherent(c)
    ensures forall e :: e in Put(c, key, result, c.gen, now).order ==>
              e == Entry(key, result, now + c.ttl, c.gen) || (e in c.order && e.key != key)
  {
    var i := IndexOf(c.order, key);
    if i < |c.order| { WithoutKeeps(c.order, i); }
  }

  lemma PutRepresented<K, V>(c: Cache<K, V>, c': Cache<K, V>, ops: seq<Op<K, V>>)
    requires ops != [] && (ops[|ops| - 1].PutOp? || ops[|ops| - 1].PutIfGenOp?)
    requires Represents(c, ops[..|ops| - 1]) && Coherent(c') && c'.gen == c.gen && c'.ttl == c.ttl
    requires var op := ops[|ops| - 1];
             if op.PutIfGenOp? && op.gen != c.gen then c' == c
             else forall e :: e in c'.order ==>
                    e == Entry(op.key, op.result, op.now + c.ttl, c.gen) || (e in c.order && e.key != op.key)
    ensures Represents(c', ops)
  {
    var op := ops[|ops| - 1];
    forall e | e in c'.order ensures LatestPut(ops, e.key) == Some((e.result, e.expires - c.ttl)) {
      if e in c.order && (c' == c || e.key != op.key) {
        assert LatestPut(ops, e.key) == LatestPut(ops[..|ops| - 1], e.key);
      }
    }
  }

  lemma GetRepresented<K, V>(c: Cache<K, V>, ops: seq<Op<K, V>>)
    requires ops != [] && ops[|ops| - 1].GetOp?
    requires Represents(c, ops[..|ops| - 1])
    ensures Represents(Step(c, ops[|ops| - 1]), ops)
  {
    GetKeeps(c, ops[|ops| - 1].key, ops[|ops| - 1].now);
  }

  /** After any sequence of operations no key is stored twice, the size is at most `cap`, every entry
      carries the current generation, and every entry is the latest put of its key. */
  lemma {:induction false} HistoryRepresented<K, V>(ttl: int, cap: int, ops: seq<Op<K, V>>)
    ensures Represents(Exec(New(ttl, cap), ops), ops)
  {
    if ops != [] {
      var op := ops[|ops| - 1];
      var c := Exec(New(ttl, cap), ops[..|ops| - 1]);
      HistoryRepresented(ttl, cap, ops[..|ops| - 1]);
      if op.GetOp? { GetRepresented(c, ops); }
      if op.PutOp? || op.PutIfGenOp? {
        PutKeeps(c, op.key, op.result, if op.PutOp? then c.gen else op.gen, op.now);
        PutReplaces(c, op.key, op.result, op.now);
        PutRepresented(c, Step(c, op), ops);
      }
    }
  }

  /** A hit returns the latest put of that key in this generation, made at most TTL ago; reads in
      between do not extend its life. */
  lemma HitIsLatestPut<K, V>(ttl: int, cap: int, ops: seq<Op<K, V>>, key: K, now: int)
    ensures var c := Exec(New(ttl, cap), ops);
            var hit := Get(c, key, now).0;
            hit.Some? ==>
              && LatestPut(ops, key).Some?
              && LatestPut(ops, key).value.0 == hit.value
              && now <= LatestPut(ops, key).value.1 + c.ttl
  {
    HistoryRepresented(ttl, cap, ops);
    var c := Exec(New(ttl, cap), ops);
    var i := IndexOf(c.order, key);
    if i < |c.order| { assert c.order[i] in c.order; }
  }

  // ---------------------------------------------------------------- retention

  ghost function Touched<K, V>(ops: seq<Op<K, V>>): set<K> {
    set op | op in ops && !op.InvalidateOp? :: op.key
  }

  ghost function KeySet<K, V>(order: seq<Entry<K, V>>): set<K> {
    set e | e in order :: e.key
  }

  lemma {:induction false} KeySetSize<K, V>(order: seq<Entry<K, V>>)
    requires DistinctKeys(order)
    ensures |KeySet(order)| == |order|
  {
    if order != [] {
      KeySetSize(order[1..]);
      assert KeySet(order) == {order[0].key} + KeySet(order[1..]);
      assert order[0].key !in KeySet(order[1..]);
    }
  }

  /** The operations leave the entry of `key` alone and never look at it after it has expired. */
  ghost predicate Spares<K, V>(ops: seq<Op<K, V>>, key: K, expires: int) {
    forall op :: op in ops ==>
      && !op.InvalidateOp?
      && (op.key == key ==> op.GetOp? && op.now <= expires)
  }

  /** `e` is stored, and everything in front of it belongs to `keys`. */
  ghost predicate StoredBehind<K, V>(c: Cache<K, V>, e: Entry<K, V>, keys: set<K>) {
    exists i :: 0 <= i < |c.order| && c.order[i] == e && KeySet(c.order[..i]) <= keys
  }

  /** A get that removes an expired entry of another key. */
  lemma StoredAfterRemoval<K, V>(c: Cache<K, V>, i: nat, j: nat)
    requires i < |c.order| && j < |c.order| && i != j
    ensures StoredBehind(c.(order := Without(c.order, j)), c.order[i], KeySet(c.order[..i]))
  {
    var order' := Without(c.order, j);
    var i' := if j < i then i - 1 else i;
    assert order'[i'] == c.order[i];
    forall e | e in order'[..i'] ensures e in c.order[..i] {
      var k :| 0 <= k < i' && order'[k] == e;
      assert c.order[if k < j then k else k + 1] == e;
    }
  }

  /** A hit, or a put of a stored key: one entry moves to the front. */
  lemma StoredAfterMove<K, V>(c: Cache<K, V>, i: nat, j: nat, front: Entry<K, V>)
    requires DistinctKeys(c.order) && i < |c.order| && j < |c.order|
    requires front.key == c.order[j].key && (i == j ==> front == c.order[j])
    ensures StoredBehind(c.(order := [front] + Without(c.order, j)), c.order[i],
                         KeySet(c.order[..i]) + ({front.key} - {c.order[i].key}))
  {
    var order' := [front] + Without(c.order, j);
    var i' := if j == i then 0 else if j < i then i else i + 1;
    assert order'[i'] == c.order[i];
    forall k | 0 <= k < i' ensures order'[k].key == front.key || order'[k] in c.order[..i] {
      if k > 0 { assert order'[k] == c.order[if k - 1 < j then k - 1 else k]; }
    }
    if i' > 0 { FrontKeys(order', c.order, i', i, front.key); }
    if i == j { assert KeySet(order'[..0]) == {}; }
  }

  /** A put of a new key evicts at most the last entry, which is not entry `i`. */
  lemma StoredAfterPush<K, V>(c: Cache<K, V>, i: nat, key: K, result: V, now: int)
    requires Coherent(c) && i < |c.order| && i + 1 < c.cap
    requires IndexOf(c.order, key) == |c.order|
    ensures StoredBehind(Put(c, key, result, c.gen, now), c.order[i], KeySet(c.order[..i]) + {key})
  {
    var order' := Put(c, key, result, c.gen, now).order;
    assert order'[i + 1] == c.order[i];
    FrontKeys(order', c.order, i + 1, i, key);
  }

  /** With fewer than `cap` keys in play, the entry is never the one to evict. */
  lemma NotLast<K, V>(c: Cache<K, V>, i: nat, keys: set<K>, key: K)
    requires Coherent(c) && i < |c.order| && KeySet(c.order[..i]) <= keys
    requires IndexOf(c.order, key) == |c.order|
    requires |keys + {key} + {c.order[i].key}| <= c.cap
    ensures i + 1 < c.cap
  {
    var front := KeySet(c.order[..i]);
    KeySetSize(c.order[..i]);
    assert key !in front && c.order[i].key !in front && key != c.order[i].key;
    assert |front + {key} + {c.order[i].key}| == i + 2;
    SubsetSize(front + {key} + {c.order[i].key}, keys + {key} + {c.order[i].key});
  }

  lemma StoredWider<K, V>(c: Cache<K, V>, e: Entry<K, V>, keys: set<K>, wider: set<K>)
    requires StoredBehind(c, e, keys) && keys <= wider
    ensures StoredBehind(c, e, wider)
  {}

  lemma StoredAfterGet<K, V>(c: Cache<K, V>, i: nat, keys: set<K>, key: K, now: int)
    requires Coherent(c) && i < |c.order| && KeySet(c.order[..i]) <= keys
    requires key == c.order[i].key ==> now <= c.order[i].expires
    ensures StoredBehind(Get(c, key, now).1, c.order[i], keys + ({key} - {c.order[i].key}))
  {
    var e, wider, c', j := c.order[i], keys + ({key} - {c.order[i].key}), Get(c, key, now).1, IndexOf(c.order, key);
    assert e in c.order;
    if j == |c.order| {
      StoredWider(c, e, keys, wider);
    } else if c.order[j].gen != c.gen || now > c.order[j].expires {
      StoredAfterRemoval(c, i, j);
      StoredWider(c', e, KeySet(c.order[..i]), wider);
    } else {
      StoredAfterMove(c, i, j, c.order[j]);
      StoredWider(c', e, KeySet(c.order[..i]) + ({key} - {e.key}), wider);
    }
  }

  lemma StoredAfterPut<K, V>(c: Cache<K, V>, i: nat, keys: set<K>, key: K, result: V, now: int)
    requires Coherent(c) && i < |c.order| && KeySet(c.order[..i]) <= keys
    requires key != c.order[i].key && |keys + {key} + {c.order[i].key}| <= c.cap
    ensures StoredBehind(Put(c, key, result, c.gen, now), c.order[i], keys + {key})
  {
    var e, c', j := c.order[i], Put(c, key, result, c.gen, now), IndexOf(c.order, key);
    if j == |c.order| {
      NotLast(c, i, keys, key);
      StoredAfterPush(c, i, key, result, now);
      StoredWider(c', e, KeySet(c.order[..i]) + {key}, keys + {key});
    } else {
      StoredAfterMove(c, i, j, c'.order[0]);
      StoredWider(c', e, KeySet(c.order[..i]) + ({key} - {e.key}), keys + {key});
    }
  }

  lemma StoredStep<K, V>(c: Cache<K, V>, e: Entry<K, V>, keys: set<K>, op: Op<K, V>)
    requires Coherent(c) && StoredBehind(c, e, keys) && e.key !in keys
    requires Spares([op], e.key, e.expires)
    requires |keys + {op.key} + {e.key}| <= c.cap
    ensures StoredBehind(Step(c, op), e, keys + ({op.key} - {e.key}))
  {
    assert op in [op];
    var i :| 0 <= i < |c.order| && c.order[i] == e && KeySet(c.order[..i]) <= keys;
    if op.GetOp? {
      StoredAfterGet(c, i, keys, op.key, op.now);
    } else {
      assert {op.key} - {e.key} == {op.key};
      StoredAfterPut(c, i, keys, op.key, op.result, op.now);
      StoredWider(c, e, keys, keys + {op.key});
    }
  }

  lemma FrontKeys<K, V>(order': seq<Entry<K, V>>, order: seq<Entry<K, V>>, i': nat, i: nat, key: K)
    requires i' <= |order'| && i <= |order|
    requires forall k :: 0 <= k < i' ==> order'[k].key == key || order'[k] in order[..i]
    ensures KeySet(order'[..i']) <= KeySet(order[..i]) + {key}
  {}

  lemma StepKeeps<K, V>(c: Cache<K, V>, op: Op<K, V>)
    requires Coherent(c)
    ensures Coherent(Step(c, op))
    ensures Step(c, op).gen == c.gen + if op.InvalidateOp? then 1 else 0
  {
    match op
    case GetOp(key, now) => GetKeeps(c, key, now);
    case PutOp(key, result, now) => PutKeeps(c, key, result, c.gen, now);
    case PutIfGenOp(key, result, gen, now) => PutKeeps(c, key, result, gen, now);
    case InvalidateOp =>
  }

  lemma TouchedSnoc<K, V>(ops: seq<Op<K, V>>, key: K)
    requires ops != [] && !ops[|ops| - 1].InvalidateOp?
    ensures Touched(ops) == Touched(ops[..|ops| - 1]) + {ops[|ops| - 1].key}
    ensures |Touched(ops[..|ops| - 1]) + {key}| <= |Touched(ops) + {key}|
  {
    assert ops == ops[..|ops| - 1] + [ops[|ops| - 1]];
    SubsetSize(Touched(ops[..|ops| - 1]) + {key}, Touched(ops) + {key});
  }

  lemma {:induction false} StoredThrough<K, V>(c: Cache<K, V>, e: Entry<K, V>, ops: seq<Op<K, V>>)
    requires Coherent(c) && c.order != [] && c.order[0] == e
    requires Spares(ops, e.key, e.expires) && |Touched(ops) + {e.key}| <= c.cap
    ensures Coherent(Exec(c, ops)) && Exec(c, ops).gen == c.gen
    ensures StoredBehind(Exec(c, ops), e, Touched(ops) - {e.key})
  {
    if ops == [] {
      assert KeySet(c.order[..0]) == {};
    } else {
      var before, op := ops[..|ops| - 1], ops[|ops| - 1];
      TouchedSnoc(ops, e.key);
      StoredThrough(c, e, before);
      var mid, others := Exec(c, before), Touched(before) - {e.key};
      assert others + {op.key} + {e.key} == Touched(ops) + {e.key};
      StoredStep(mid, e, others, op);
      assert others + ({op.key} - {e.key}) == Touched(ops) - {e.key};
      StepKeeps(mid, op);
    }
  }

  /** An answer that was put is found again until it expires, as long as the operations since then
      touch fewer than `cap` other keys and include no invalidation and no newer put. */
  lemma PutIsRetained<K, V>(c: Cache<K, V>, key: K, result: V, t: int, ops: seq<Op<K, V>>, now: int)
    requires Coherent(c)
    requires Spares(ops, key, t + c.ttl) && |Touched(ops) + {key}| <= c.cap
    requires now <= t + c.ttl
    ensures Get(Exec(Put(c, key, result, c.gen, t), ops), key, now).0 == Some(result)
    ensures Get(Exec(PutIfGen(c, key, result, c.gen, t), ops), key, now).0 == Some(result)
  {
    assert PutIfGen(c, key, result, c.gen, t) == Put(c, key, result, c.gen, t);
    PutKeeps(c, key, result, c.gen, t);
    var e := Entry(key, result, t + c.ttl, c.gen);
    StoredThrough(Put(c, key, result, c.gen, t), e, ops);
    var end := Exec(Put(c, key, result, c.gen, t), ops);
    var i :| 0 <= i < |end.order| && end.order[i] == e;
    assert IndexOf(end.order, key) == i;
  }

  // ---------------------------------------------------------------- recency order

  datatype Lookup<K, V> = Lookup(key: K, result: V, now: int)

  /** One lookup as FindProxyForURL makes it: a get, and after a miss a guarded put of the computed result. */
  function Access<K(==), V>(c: Cache<K, V>, a: Lookup<K, V>): (c': Cache<K, V>)
    requires c.cap > 0
    ensures c'.cap == c.cap && c'.ttl == c.ttl && c'.gen == c.gen
  {
    var (hit, after) := Get(c, a.key, a.now);
    if hit.Some? then after else PutIfGen(after, a.key, a.result, after.gen, a.now)
  }

  function AccessAll<K(==), V>(c: Cache<K, V>, as_: seq<Lookup<K, V>>): (c': Cache<K, V>)
    requires c.cap > 0
    ensures c'.cap == c.cap && c'.ttl == c.ttl && c'.gen == c.gen
  {
    if as_ == [] then c else Access(AccessAll(c, as_[..|as_| - 1]), as_[|as_| - 1])
  }

  function Drop<K(==)>(keys: seq<K>, key: K): seq<K> {
    if keys == [] then [] else (if keys[0] == key then [] else [keys[0]]) + Drop(keys[1..], key)
  }

  /** The distinct keys looked up, the latest first. */
  function Recency<K(==), V>(as_: seq<Lookup<K, V>>): seq<K> {
    if as_ == [] then []
    else [as_[|as_| - 1].key] + Drop(Recency(as_[..|as_| - 1]), as_[|as_| - 1].key)
  }

  function Keys<K(==), V>(order: seq<Entry<K, V>>): (ks: seq<K>)
    ensures |ks| == |order| && forall i :: 0 <= i < |order| ==> ks[i] == order[i].key
  {
    seq(|order|, i requires 0 <= i < |order| => order[i].key)
  }

  ghost predicate Distinct<K>(keys: seq<K>) {
    forall i, j :: 0 <= i < j < |keys| ==> keys[i] != keys[j]
  }

  function Take<K(==)>(keys: seq<K>, n: nat): seq<K> {
    if |keys| <= n then keys else keys[..n]
  }

  lemma {:induction false} DropAbsent<K>(keys: seq<K>, key: K)
    requires key !in keys
    ensures Drop(keys, key) == keys
  {
    if keys != [] { DropAbsent(keys[1..], key); }
  }

  lemma {:induction false} DropAt<K>(keys: seq<K>, i: nat)
    requires i < |keys| && Distinct(keys)
    ensures Drop(keys, keys[i]) == Without(keys, i)
  {
    if i == 0 {
      DropAbsent(keys[1..], keys[0]);
    } else {
      DropAt(keys[1..], i - 1);
      assert Without(keys, i) == [keys[0]] + Without(keys[1..], i - 1);
    }
  }

  lemma {:induction false} DropDistinct<K>(keys: seq<K>, key: K)
    requires Distinct(keys)
    ensures Distinct(Drop(keys, key)) && key !in Drop(keys, key)
    ensures forall k :: k in Drop(keys, key) ==> k in keys
  {
    if keys != [] {
      DropDistinct(keys[1..], key);
      assert keys[0] !in keys[1..];
    }
  }

  lemma {:induction false} RecencyDistinct<K, V>(as_: seq<Lookup<K, V>>)
    ensures Distinct(Recency(as_))
  {
    if as_ != [] {
      RecencyDistinct(as_[..|as_| - 1]);
      DropDistinct(Recency(as_[..|as_| - 1]), as_[|as_| - 1].key);
    }
  }

  lemma TakeWithout<K>(keys: seq<K>, n: nat, i: nat)
    requires i < |keys| && i < n
    ensures Take([keys[i]] + Without(keys, i), n) == [keys[i]] + Without(Take(keys, n), i)
  {}

  lemma {:induction false} KeysOfMoved<K, V>(order: seq<Entry<K, V>>, i: nat)
    requires i < |order|
    ensures Keys([order[i]] + Without(order, i)) == [order[i].key] + Without(Keys(order), i)
  {
    var moved, keys := [order[i]] + Without(order, i), [order[i].key] + Without(Keys(order), i);
    forall k | 0 <= k < |keys| ensures Keys(moved)[k] == keys[k] {
      assert moved[k] == if k == 0 then order[i] else if k <= i then order[k - 1] else order[k];
    }
  }

  lemma RecencyHit<K, V>(c: Cache<K, V>, a: Lookup<K, V>, older: seq<K>, i: nat)
    requires Coherent(c) && Distinct(older) && Keys(c.order) == Take(older, c.cap)
    requires i == IndexOf(c.order, a.key) < |c.order|
    requires a.now <= c.order[i].expires
    ensures Keys(Access(c, a).order) == Take([a.key] + Drop(older, a.key), c.cap)
  {
    assert c.order[i] in c.order;
    assert Keys(c.order)[i] == older[i] == a.key;
    DropAt(older, i);
    TakeWithout(older, c.cap, i);
    KeysOfMoved(c.order, i);
  }

  lemma KeysOfPushed<K, V>(c: Cache<K, V>, key: K, result: V, now: int, older: seq<K>)
    requires Coherent(c) && Keys(c.order) == Take(older, c.cap)
    requires IndexOf(c.order, key) == |c.order|
    ensures Keys(Put(c, key, result, c.gen, now).order) == [key] + Take(older, c.cap - 1)
  {
    var rest := if |c.order| >= c.cap then c.order[..c.cap - 1] else c.order;
    assert Keys(rest) == Take(older, c.cap - 1);
    assert Put(c, key, result, c.gen, now).order[1..] == rest;
  }

  lemma RecencyMiss<K, V>(c: Cache<K, V>, a: Lookup<K, V>, older: seq<K>)
    requires Coherent(c) && Distinct(older) && Keys(c.order) == Take(older, c.cap)
    requires IndexOf(c.order, a.key) == |c.order|
    ensures Keys(Access(c, a).order) == Take([a.key] + Drop(older, a.key), c.cap)
  {
    KeysOfPushed(c, a.key, a.result, a.now, older);
    forall i | 0 <= i < |c.order| ensures older[i] != a.key { assert Keys(c.order)[i] == older[i]; }
    if a.key in older {
      var k :| 0 <= k < |older| && older[k] == a.key;
      DropAt(older, k);
      assert Take(Without(older, k), c.cap - 1) == Take(older, c.cap - 1);
    } else {
      DropAbsent(older, a.key);
    }
  }

  /** No lookup of the sequence finds an entry that has expired. */
  ghost predicate NoExpiry<K, V>(c: Cache<K, V>, as_: seq<Lookup<K, V>>)
    requires c.cap > 0
  {
    as_ == [] || (var n := |as_| - 1; NoExpiry(c, as_[..n]) && Unexpired(AccessAll(c, as_[..n]), as_[n]))
  }

  /** The key is not stored, or its entry can still be used. */
  ghost predicate Unexpired<K, V>(c: Cache<K, V>, a: Lookup<K, V>) {
    var i := IndexOf(c.order, a.key);
    i < |c.order| ==> a.now <= c.order[i].expires
  }

  lemma AccessKeeps<K, V>(c: Cache<K, V>, a: Lookup<K, V>)
    requires Coherent(c)
    ensures Coherent(Access(c, a))
    ensures forall e :: e in Access(c, a).order ==> e in c.order || (e.key == a.key && e.expires == a.now + c.ttl)
  {
    GetKeeps(c, a.key, a.now);
    var mid := Get(c, a.key, a.now).1;
    PutKeeps(mid, a.key, a.result, mid.gen, a.now);
  }

  /** Without expiry the list is exactly the first `cap` keys of the recency order. */
  lemma {:induction false} ListIsRecencyPrefix<K, V>(ttl: int, cap: int, as_: seq<Lookup<K, V>>)
    requires NoExpiry(New(ttl, cap), as_)
    ensures var c := AccessAll(New(ttl, cap), as_);
            Keys(c.order) == Take(Recency(as_), EffectiveCap(cap)) && Coherent(c)
  {
    if as_ != [] {
      var before, a := as_[..|as_| - 1], as_[|as_| - 1];
      ListIsRecencyPrefix(ttl, cap, before);
      var c := AccessAll(New(ttl, cap), before);
      RecencyDistinct(before);
      var i := IndexOf(c.order, a.key);
      if i < |c.order| {
        RecencyHit(c, a, Recency(before), i);
      } else {
        RecencyMiss(c, a, Recency(before));
      }
      AccessKeeps(c, a);
    }
  }

  /** So a larger cache always holds everything a smaller one holds. */
  lemma LargerCacheContainsSmaller<K, V>(ttl: int, small: int, large: int, as_: seq<Lookup<K, V>>)
    requires 0 < small <= large
    requires NoExpiry(New(ttl, small), as_) && NoExpiry(New(ttl, large), as_)
    ensures Keys(AccessAll(New(ttl, small), as_).order) <= Keys(AccessAll(New(ttl, large), as_).order)
  {
    ListIsRecencyPrefix(ttl, small, as_);
    ListIsRecencyPrefix(ttl, large, as_);
  }

  // ---------------------------------------------------------------- when nothing expires

  /** Any two lookups of one key are at most one TTL apart. */
  ghost predicate Frequent<K, V>(as_: seq<Lookup<K, V>>, ttl: int) {
    forall i, j :: 0 <= i < j < |as_| && as_[i].key == as_[j].key ==> as_[j].now <= as_[i].now + ttl
  }

  /** The entry was stored by one of the lookups. */
  ghost predicate StoredBy<K, V>(as_: seq<Lookup<K, V>>, e: Entry<K, V>, ttl: int) {
    exists i :: 0 <= i < |as_| && as_[i].key == e.key && e.expires == as_[i].now + ttl
  }

  lemma {:induction false} EntriesComeFromLookups<K, V>(ttl: int, cap: int, as_: seq<Lookup<K, V>>)
    ensures var c := AccessAll(New(ttl, cap), as_);
            Coherent(c) && forall e :: e in c.order ==> StoredBy(as_, e, c.ttl)
  {
    if as_ != [] {
      var n := |as_| - 1;
      EntriesComeFromLookups(ttl, cap, as_[..n]);
      var c := AccessAll(New(ttl, cap), as_[..n]);
      AccessKeeps(c, as_[n]);
      forall e | e in Access(c, as_[n]).order ensures StoredBy(as_, e, c.ttl) {
        if e in c.order {
          var i :| 0 <= i < n && as_[..n][i].key == e.key && e.expires == as_[..n][i].now + c.ttl;
          assert as_[i].key == e.key;
        }
      }
    }
  }

  /** When lookups of a key are never more than one TTL apart nothing expires, whatever the capacity and however
      long the run. */
  lemma {:induction false} FrequentNeverExpires<K, V>(ttl: int, cap: int, as_: seq<Lookup<K, V>>)
    requires Frequent(as_, EffectiveTTL(ttl))
    ensures NoExpiry(New(ttl, cap), as_)
  {
    if as_ != [] {
      var n := |as_| - 1;
      FrequentNeverExpires(ttl, cap, as_[..n]);
      EntriesComeFromLookups(ttl, cap, as_[..n]);
      var c := AccessAll(New(ttl, cap), as_[..n]);
      var k := IndexOf(c.order, as_[n].key);
      if k < |c.order| {
        var e := c.order[k];
        assert e in c.order;
        var i :| 0 <= i < n && as_[..n][i].key == e.key && e.expires == as_[..n][i].now + c.ttl;
        assert as_[i] == as_[..n][i];
      }
    }
  }
}
