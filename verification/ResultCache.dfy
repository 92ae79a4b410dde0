/** The PAC result cache of internal/pac/cache.go.

    `Cache` is the value of the cache: its entries from the most to the least recently used.
    `ResultCache` is the mutable object of the program, a map and a list that share their elements;
    its methods are proved against the operations on `Cache`. */
module ResultCaches {
  import opened Basics

  datatype Entry<K, V> = Entry(key: K, result: V, expires: int, gen: nat)

  datatype Cache<K, V> = Cache(ttl: int, cap: int, gen: nat, order: seq<Entry<K, V>>)

  // Nanoseconds, as time.Duration counts them.
  const DEFAULT_TTL := 30_000_000_000
  const DEFAULT_CAP := 4096

  /** newResultCache replaces a non-positive TTL or capacity by its default. */
  function EffectiveTTL(ttl: int): int { if ttl <= 0 then DEFAULT_TTL else ttl }

  function EffectiveCap(cap: int): int { if cap <= 0 then DEFAULT_CAP else cap }

  function New<K, V>(ttl: int, cap: int): Cache<K, V> {
    Cache(EffectiveTTL(ttl), EffectiveCap(cap), 0, [])
  }

  /** The key under which the answer for a URL and a host is kept. */
  function CacheKey(rawURL: string, host: string): string {
    rawURL + ['\0'] + host
  }

  /** The position of `key`, or the length of the list when it is absent. */
  function IndexOf<K(==), V>(order: seq<Entry<K, V>>, key: K): (i: nat)
    ensures i <= |order|
    ensures i < |order| ==> order[i].key == key
    ensures forall j :: 0 <= j < i ==> order[j].key != key
  {
    if order == [] || order[0].key == key then 0 else 1 + IndexOf(order[1..], key)
  }

  function Without<T>(s: seq<T>, i: nat): seq<T>
    requires i < |s|
  {
    s[..i] + s[i + 1..]
  }

  function Get<K(==), V>(c: Cache<K, V>, key: K, now: int): (Option<V>, Cache<K, V>) {
    var i := IndexOf(c.order, key);
    if i == |c.order| then (None, c)
    else
      var e := c.order[i];
      if e.gen != c.gen || now > e.expires then (None, c.(order := Without(c.order, i)))
      else (Some(e.result), c.(order := [e] + Without(c.order, i)))
  }

  function Put<K(==), V>(c: Cache<K, V>, key: K, result: V, gen: nat, now: int): Cache<K, V>
    requires c.cap > 0
  {
    var i := IndexOf(c.order, key);
    var rest :=
      if i < |c.order| then Without(c.order, i)
      else if |c.order| >= c.cap then c.order[..c.cap - 1]
      else c.order;
    c.(order := [Entry(key, result, now + c.ttl, gen)] + rest)
  }

  function PutIfGen<K(==), V>(c: Cache<K, V>, key: K, result: V, gen: nat, now: int): Cache<K, V>
    requires c.cap > 0
  {
    if gen != c.gen then c else Put(c, key, result, gen, now)
  }

  function Invalidate<K, V>(c: Cache<K, V>): Cache<K, V> {
    c.(gen := c.gen + 1, order := [])
  }

  ghost predicate DistinctKeys<K, V>(order: seq<Entry<K, V>>) {
    forall i, j :: 0 <= i < j < |order| ==> order[i].key != order[j].key
  }

  /** What every operation keeps: no key twice, at most `cap` entries, all of the current generation. */
  ghost predicate Coherent<K, V>(c: Cache<K, V>) {
    && c.ttl > 0 && c.cap > 0
    && |c.order| <= c.cap
    && DistinctKeys(c.order)
    && forall e :: e in c.order ==> e.gen == c.gen
  }

  // ---------------------------------------------------------------- what the operations keep

  lemma WithoutKeeps<K, V>(order: seq<Entry<K, V>>, i: nat)
    requires i < |order| && DistinctKeys(order)
    ensures DistinctKeys(Without(order, i))
    ensures forall e :: e in Without(order, i) <==> e in order && e.key != order[i].key
  {
    var w := Without(order, i);
    forall e | e in order && e.key != order[i].key ensures e in w {
      var j :| 0 <= j < |order| && order[j] == e;
      assert w[if j < i then j else j - 1] == e;
    }
  }

  lemma FrontKeeps<K, V>(e: Entry<K, V>, order: seq<Entry<K, V>>)
    requires DistinctKeys(order) && forall x :: x in order ==> x.key != e.key
    ensures DistinctKeys([e] + order)
  {
    forall j | 0 < j < |order| + 1 ensures ([e] + order)[j].key != e.key {
      assert ([e] + order)[j] == order[j - 1];
    }
  }

  lemma GetKeeps<K, V>(c: Cache<K, V>, key: K, now: int)
    requires Coherent(c)
    ensures var c' := Get(c, key, now).1;
            && Coherent(c') && c'.gen == c.gen && c'.ttl == c.ttl && c'.cap == c.cap
            && forall e :: e in c'.order ==> e in c.order
  {
    var i := IndexOf(c.order, key);
    if i < |c.order| {
      WithoutKeeps(c.order, i);
      FrontKeeps(c.order[i], Without(c.order, i));
    }
  }

  lemma PutKeeps<K, V>(c: Cache<K, V>, key: K, result: V, gen: nat, now: int)
    requires Coherent(c)
    ensures var c' := PutIfGen(c, key, result, gen, now);
            && Coherent(c') && c'.gen == c.gen && c'.ttl == c.ttl && c'.cap == c.cap
            && (forall e :: e in c'.order ==>
                  e in c.order || (gen == c.gen && e == Entry(key, result, now + c.ttl, gen)))
  {
    var i := IndexOf(c.order, key);
    if i < |c.order| { WithoutKeeps(c.order, i); }
  }

  // ---------------------------------------------------------------- the key is unambiguous

  predicate EndsWith(s: string, suffix: string) {
    |suffix| <= |s| && s[|s| - |suffix|..] == suffix
  }

  /** A positive setting is kept; otherwise entries live 30 seconds and 4096 fit. */
  lemma NewCacheSettings<K, V>(ttl: int, cap: int)
    ensures var c: Cache<K, V> := New(ttl, cap);
            && c.ttl == (if ttl > 0 then ttl else 30_000_000_000) && c.cap == (if cap > 0 then cap else 4096)
            && c.gen == 0 && c.order == []
  {}

  /** A guarded put of the current generation is found by every lookup of its key within one TTL ... */
  lemma GuardedPutIsFound<K, V>(c: Cache<K, V>, key: K, result: V, gen: nat, now: int, later: int)
    requires c.cap > 0 && gen == c.gen && later <= now + c.ttl
    ensures Get(PutIfGen(c, key, result, gen, now), key, later).0 == Some(result)
  {
    var c' := PutIfGen(c, key, result, gen, now);
    assert c'.order[0] == Entry(key, result, now + c.ttl, gen);
    assert IndexOf(c'.order, key) == 0;
  }

  /** ... and one of another generation changes nothing. */
  lemma StalePutIsIgnored<K, V>(c: Cache<K, V>, key: K, result: V, gen: nat, now: int)
    requires c.cap > 0 && gen != c.gen
    ensures PutIfGen(c, key, result, gen, now) == c
  {}


  /** Two hosts can be confused by some pair of URLs exactly when one of them ends with a NUL
      character followed by the other. */
  lemma KeysCollideIff(h1: string, h2: string)
    requires h1 != h2
    ensures (exists u1, u2 :: CacheKey(u1, h1) == CacheKey(u2, h2))
       <==> EndsWith(h1, ['\0'] + h2) || EndsWith(h2, ['\0'] + h1)
  {
    if exists u1, u2 :: CacheKey(u1, h1) == CacheKey(u2, h2) {
      var u1, u2 :| CacheKey(u1, h1) == CacheKey(u2, h2);
      if |h1| <= |h2| { CollisionShape(u2, h2, u1, h1); } else { CollisionShape(u1, h1, u2, h2); }
    }
    if EndsWith(h1, ['\0'] + h2) { CollisionExists(h1, h2); }
    if EndsWith(h2, ['\0'] + h1) { CollisionExists(h2, h1); }
  }

  lemma CollisionExists(h1: string, h2: string)
    requires EndsWith(h1, ['\0'] + h2)
    ensures exists u1, u2 :: CacheKey(u1, h1) == CacheKey(u2, h2)
    ensures exists u1, u2 :: CacheKey(u1, h2) == CacheKey(u2, h1)
  {
    var u := ['\0'] + h1[..|h1| - |h2| - 1];
    assert CacheKey("", h1) == CacheKey(u, h2) by {
      assert h1 == h1[..|h1| - |h2| - 1] + (['\0'] + h2);
    }
  }

  lemma CollisionShape(u1: string, h1: string, u2: string, h2: string)
    requires |h2| <= |h1| && CacheKey(u1, h1) == CacheKey(u2, h2)
    ensures (h1 == h2 && u1 == u2) || EndsWith(h1, ['\0'] + h2)
  {
    var k := CacheKey(u1, h1);
    var suffix := ['\0'] + h2;
    assert h1 == k[|k| - |h1|..] && h2 == k[|k| - |h2|..] && suffix == k[|k| - |suffix|..];
    assert u1 == k[..|k| - |h1| - 1] && u2 == k[..|k| - |h2| - 1];
    if |h1| > |h2| {
      assert h1[|h1| - |suffix|..] == suffix;
    }
  }

  lemma EndsWithNul(h: string, rest: string)
    requires EndsWith(h, ['\0'] + rest)
    ensures '\0' in h
  {
    assert h[|h| - |rest| - 1] == h[|h| - |rest| - 1..][0] == '\0';
  }

  /** Hosts without NUL characters: the key determines both the URL and the host. */
  lemma CacheKeyInjective(u1: string, h1: string, u2: string, h2: string)
    requires '\0' !in h1 && '\0' !in h2 && CacheKey(u1, h1) == CacheKey(u2, h2)
    ensures u1 == u2 && h1 == h2
  {
    if EndsWith(h1, ['\0'] + h2) { EndsWithNul(h1, h2); }
    if EndsWith(h2, ['\0'] + h1) { EndsWithNul(h2, h1); }
    if |h1| <= |h2| { CollisionShape(u2, h2, u1, h1); } else { CollisionShape(u1, h1, u2, h2); }
  }

  lemma CacheKeyNotInjective()
    ensures CacheKey("a", "b\0c") == CacheKey("a\0b", "c")
  {
    assert CacheKey("a", "b\0c") == "a\0b\0c" == CacheKey("a\0b", "c");
  }
}
