/** The mutable cache object of internal/pac/cache.go: a map and a recency list that share their
    elements. Every method is proved to have the effect of its operation on `Cache`. */
module CacheObjects {
  import opened Basics
  import C = ResultCaches

  /** A list element with its entry; the map and the list refer to the same object. */
  class Element<K(==), V> {
    const key: K
    var result: V
    var expires: int
    var gen: nat

    constructor (key: K, result: V, expires: int, gen: nat)
      ensures this.key == key && this.result == result && this.expires == expires && this.gen == gen
    {
      this.key, this.result, this.expires, this.gen := key, result, expires, gen;
    }

    ghost predicate Holds(e: C.Entry<K, V>)
      reads this
    {
      e == C.Entry(key, result, expires, gen)
    }
  }

  function IndexOf<K, V>(els: seq<Element<K, V>>, el: Element<K, V>): (i: nat)
    requires el in els
    ensures i < |els| && els[i] == el
  {
    if els[0] == el then 0 else 1 + IndexOf(els[1..], el)
  }

  /** The list without one of its elements, as list.Remove leaves it. */
  function Unlinked<K, V>(els: seq<Element<K, V>>, el: Element<K, V>): seq<Element<K, V>>
    requires el in els
  {
    C.Without(els, IndexOf(els, el))
  }

  /** The map and the list hold the same elements, each under its own key. */
  ghost predicate Linked<K, V>(items: map<K, Element<K, V>>, order: seq<Element<K, V>>) {
    && (forall el :: el in order ==> el.key in items && items[el.key] == el)
    && (forall k :: k in items ==> items[k] in order && items[k].key == k)
    && (forall i, j :: 0 <= i < j < |order| ==> order[i].key != order[j].key)
  }

  lemma UnlinkedMembers<K, V>(order: seq<Element<K, V>>, el: Element<K, V>)
    requires el in order
    requires forall i, j :: 0 <= i < j < |order| ==> order[i].key != order[j].key
    ensures forall e :: e in Unlinked(order, el) <==> e in order && e.key != el.key
  {
    var i, w := IndexOf(order, el), Unlinked(order, el);
    forall e | e in order && e.key != el.key ensures e in w {
      var j := IndexOf(order, e);
      assert w[if j < i then j else j - 1] == e;
    }
  }

  lemma WithoutDistinct<K, V>(order: seq<Element<K, V>>, i: nat)
    requires i < |order| && forall j, k :: 0 <= j < k < |order| ==> order[j].key != order[k].key
    ensures var w := C.Without(order, i); forall j, k :: 0 <= j < k < |w| ==> w[j].key != w[k].key
  {
    var w := C.Without(order, i);
    forall j, k | 0 <= j < k < |w| ensures w[j].key != w[k].key {
      assert w[j] == order[if j < i then j else j + 1] && w[k] == order[if k < i then k else k + 1];
    }
  }

  lemma LinkedIntro<K, V>(items: map<K, Element<K, V>>, order: seq<Element<K, V>>)
    requires forall el :: el in order ==> el.key in items && items[el.key] == el
    requires forall k :: k in items ==> items[k] in order && items[k].key == k
    requires forall i, j :: 0 <= i < j < |order| ==> order[i].key != order[j].key
    ensures Linked(items, order)
  {}

  lemma UnlinkedKeepsLinks<K, V>(items: map<K, Element<K, V>>, order: seq<Element<K, V>>, el: Element<K, V>)
    requires Linked(items, order) && el in order
    ensures Linked(items - {el.key}, Unlinked(order, el))
    ensures forall e :: e in Unlinked(order, el) <==> e in order && e.key != el.key
  {
    var w, rest := Unlinked(order, el), items - {el.key};
    UnlinkedMembers(order, el);
    WithoutDistinct(order, IndexOf(order, el));
    forall e | e in w ensures e.key in rest && rest[e.key] == e { assert e in order; }
    forall k | k in rest ensures rest[k] in w && rest[k].key == k { assert items[k] in order; }
    LinkedIntro(rest, w);
  }

  lemma PushedKeepsLinks<K, V>(items: map<K, Element<K, V>>, order: seq<Element<K, V>>, el: Element<K, V>)
    requires Linked(items, order) && el.key !in items
    ensures Linked(items[el.key := el], [el] + order)
  {
    var items', order' := items[el.key := el], [el] + order;
    forall e | e in order' ensures e.key in items' && items'[e.key] == e {
      if e != el { assert e in order; }
    }
    forall k | k in items' ensures items'[k] in order' && items'[k].key == k {
      if k != el.key { assert items[k] in order; }
    }
    forall i, j | 0 <= i < j < |order'| ensures order'[i].key != order'[j].key {
      assert order'[j] == order[j - 1] && order[j - 1] in order;
    }
  }

  lemma MovedKeepsLinks<K, V>(items: map<K, Element<K, V>>, order: seq<Element<K, V>>, el: Element<K, V>)
    requires Linked(items, order) && el in order
    ensures Linked(items, [el] + Unlinked(order, el))
    ensures forall e :: e in [el] + Unlinked(order, el) <==> e in order
  {
    UnlinkedMembers(order, el);
    assert forall e :: e in order && e.key == el.key ==> e == el;
    PushedKeepsLinks(items - {el.key}, Unlinked(order, el), el) by { UnlinkedKeepsLinks(items, order, el); }
    assert (items - {el.key})[el.key := el] == items;
  }

  lemma LastIndex<K, V>(items: map<K, Element<K, V>>, order: seq<Element<K, V>>)
    requires Linked(items, order) && order != []
    ensures IndexOf(order, order[|order| - 1]) == |order| - 1
  {}

  /** `contents` lists the entries of the elements of `order`. */
  ghost predicate Mirrors<K, V>(order: seq<Element<K, V>>, contents: seq<C.Entry<K, V>>)
    reads order
  {
    |contents| == |order| && forall i :: 0 <= i < |order| ==> order[i].Holds(contents[i])
  }

  lemma MirrorsUnlinked<K, V>(order: seq<Element<K, V>>, contents: seq<C.Entry<K, V>>, el: Element<K, V>)
    requires Mirrors(order, contents) && el in order
    ensures Mirrors(Unlinked(order, el), C.Without(contents, IndexOf(order, el)))
    ensures Mirrors([el] + Unlinked(order, el),
                    [contents[IndexOf(order, el)]] + C.Without(contents, IndexOf(order, el)))
  {
    var i, order', contents' := IndexOf(order, el), Unlinked(order, el), C.Without(contents, IndexOf(order, el));
    forall k | 0 <= k < |order'| ensures order'[k].Holds(contents'[k]) {
      if k < i { assert order[k].Holds(contents[k]); } else { assert order[k + 1].Holds(contents[k + 1]); }
    }
  }

  lemma MirrorsPushed<K, V>(order: seq<Element<K, V>>, contents: seq<C.Entry<K, V>>, el: Element<K, V>, e: C.Entry<K, V>)
    requires Mirrors(order, contents) && el.Holds(e)
    ensures Mirrors([el] + order, [e] + contents)
  {}

  lemma WithoutUpdated<K, V>(contents: seq<C.Entry<K, V>>, i: nat, e: C.Entry<K, V>)
    requires i < |contents|
    ensures C.Without(contents[i := e], i) == C.Without(contents, i)
  {}

  lemma PutStored<K, V>(c: C.Cache<K, V>, key: K, result: V, gen: nat, now: int, i: nat)
    requires c.cap > 0 && i == C.IndexOf(c.order, key) < |c.order|
    ensures C.Put(c, key, result, gen, now) == c.(order := [C.Entry(key, result, now + c.ttl, gen)] + C.Without(c.order, i))
  {}

  lemma PutFresh<K, V>(c: C.Cache<K, V>, key: K, result: V, gen: nat, now: int)
    requires c.cap > 0 && C.IndexOf(c.order, key) == |c.order|
    ensures var kept := if |c.order| >= c.cap then c.order[..c.cap - 1] else c.order;
            C.Put(c, key, result, gen, now) == c.(order := [C.Entry(key, result, now + c.ttl, gen)] + kept)
  {}

  lemma IndexAgrees<K, V>(items: map<K, Element<K, V>>, order: seq<Element<K, V>>, contents: seq<C.Entry<K, V>>, key: K)
    requires Linked(items, order) && Mirrors(order, contents)
    ensures key in items ==> C.IndexOf(contents, key) == IndexOf(order, items[key])
    ensures key !in items ==> C.IndexOf(contents, key) == |contents|
  {
    assert forall j :: 0 <= j < |order| ==> contents[j].key == order[j].key && order[j] in order;
    if key in items {
      assert contents[IndexOf(order, items[key])].key == key;
    }
  }

  class ResultCache<K(==), V> {
    const ttl: int
    const cap: int
    var gen: nat
    var items: map<K, Element<K, V>>
    var order: seq<Element<K, V>>  // front = most recently used

    /** The entries in order, the abstract value of the list. */
    ghost var contents: seq<C.Entry<K, V>>

    ghost predicate Valid()
      reads this, order
    {
      && ttl > 0 && cap > 0 && |order| <= cap
      && Linked(items, order)
      && Mirrors(order, contents)
      && forall i :: 0 <= i < |contents| ==> contents[i].gen == gen
    }

    ghost function View(): C.Cache<K, V>
      reads this
    {
      C.Cache(ttl, cap, gen, contents)
    }

    lemma ViewIsCoherent()
      requires Valid()
      ensures C.Coherent(View())
    {
      assert forall j :: 0 <= j < |order| ==> order[j].Holds(contents[j]);
    }

    constructor (ttl: int, cap: int)
      ensures Valid() && View() == C.New(ttl, cap)
    {
      this.ttl := C.EffectiveTTL(ttl);
      this.cap := C.EffectiveCap(cap);
      gen, items, order, contents := 0, map[], [], [];
    }

    method Get(key: K, now: int) returns (hit: Option<V>)
      requires Valid()
      modifies this`items, this`order, this`contents
      ensures Valid()
      ensures View() == C.Get(old(View()), key, now).1
      ensures hit == C.Get(old(View()), key, now).0
      ensures forall el :: el in order ==> el in old(order)
    {
      IndexAgrees(items, order, contents, key);
      if key !in items {
        return None;
      }
      var el := items[key];
      assert el.Holds(contents[IndexOf(order, el)]);
      if el.gen != gen || now > el.expires {
        RemoveElement(el);
        return None;
      }
      MoveToFront(el);
      return Some(el.result);
    }

    method Generation() returns (g: nat)
      ensures g == View().gen
    {
      g := gen;
    }

    method Put(key: K, result: V, now: int)
      requires Valid()
      modifies this`items, this`order, this`contents, order
      ensures Valid() && View() == C.Put(old(View()), key, result, old(gen), now)
      ensures forall el :: el in order ==> el in old(order) || fresh(el)
    {
      PutLocked(key, result, gen, now);
    }

    method PutIfGen(key: K, result: V, gen: nat, now: int)
      requires Valid()
      modifies this`items, this`order, this`contents, order
      ensures Valid() && View() == C.PutIfGen(old(View()), key, result, gen, now)
      ensures forall el :: el in order ==> el in old(order) || fresh(el)
    {
      if gen != this.gen {
        return;
      }
      PutLocked(key, result, gen, now);
    }

    method PutLocked(key: K, result: V, gen: nat, now: int)
      requires Valid() && gen == this.gen
      modifies this`items, this`order, this`contents, order
      ensures Valid() && View() == C.Put(old(View()), key, result, gen, now)
      ensures forall el :: el in order ==> el in old(order) || fresh(el)
    {
      if key in items {
        Update(items[key], result, gen, now);
      } else {
        Insert(key, result, gen, now);
      }
    }

    lemma PutOfElement(el: Element<K, V>, result: V, gen: nat, now: int)
      requires Valid() && el in order
      ensures C.Put(View(), el.key, result, gen, now)
              == View().(order := [C.Entry(el.key, result, now + ttl, gen)] + C.Without(contents, IndexOf(order, el)))
    {
      assert items[el.key] == el;
      IndexAgrees(items, order, contents, el.key);
      PutStored(View(), el.key, result, gen, now, IndexOf(order, el));
    }

    method Update(el: Element<K, V>, result: V, gen: nat, now: int)
      requires Valid() && el in order && gen == this.gen
      modifies el, this`order, this`contents
      ensures Valid() && View() == C.Put(old(View()), el.key, result, gen, now)
      ensures forall e :: e in order <==> e in old(order)
    {
      PutOfElement(el, result, gen, now);
      OverwriteAndMove(el, result, gen, now);
    }

    method OverwriteAndMove(el: Element<K, V>, result: V, gen: nat, now: int)
      requires Valid() && el in order && gen == this.gen
      modifies el, this`order, this`contents
      ensures Valid()
      ensures contents == [C.Entry(el.key, result, now + ttl, gen)] + C.Without(old(contents), IndexOf(old(order), el))
      ensures forall e :: e in order <==> e in old(order)
    {
      WithoutUpdated(contents, IndexOf(order, el), C.Entry(el.key, result, now + ttl, gen));
      Overwrite(el, result, gen, now);
      MoveToFront(el);
    }

    lemma PutOfNewKey(key: K, result: V, gen: nat, now: int)
      requires Valid() && key !in items
      ensures var kept := if |contents| >= cap then contents[..cap - 1] else contents;
              C.Put(View(), key, result, gen, now) == View().(order := [C.Entry(key, result, now + ttl, gen)] + kept)
    {
      IndexAgrees(items, order, contents, key);
      PutFresh(View(), key, result, gen, now);
    }

    method Insert(key: K, result: V, gen: nat, now: int)
      requires Valid() && key !in items && gen == this.gen
      modifies this`items, this`order, this`contents
      ensures Valid() && View() == C.Put(old(View()), key, result, gen, now)
      ensures forall el :: el in order ==> el in old(order) || fresh(el)
    {
      PutOfNewKey(key, result, gen, now);
      EvictToFit();
      PushNew(key, result, gen, now);
    }

    method PushNew(key: K, result: V, gen: nat, now: int)
      requires Valid() && |order| < cap && key !in items && gen == this.gen
      modifies this`items, this`order, this`contents
      ensures Valid() && contents == [C.Entry(key, result, now + ttl, gen)] + old(contents)
      ensures forall el :: el in order ==> el in old(order) || fresh(el)
    {
      var el := new Element(key, result, now + ttl, gen);
      PushFront(el);
    }

    method Invalidate()
      requires ttl > 0 && cap > 0
      modifies this`gen, this`items, this`order, this`contents
      ensures Valid() && View() == C.Invalidate(old(View()))
    {
      gen := gen + 1;
      items := map[];
      order, contents := [], [];
    }

    /** Deletes an element from the map and from the list. */
    method RemoveElement(el: Element<K, V>)
      requires Valid() && el in order
      modifies this`items, this`order, this`contents
      ensures Valid() && order == Unlinked(old(order), el) && items == old(items) - {el.key}
      ensures contents == C.Without(old(contents), IndexOf(old(order), el))
      ensures forall e :: e in order ==> e in old(order)
    {
      UnlinkedKeepsLinks(items, order, el);
      MirrorsUnlinked(order, contents, el);
      contents := C.Without(contents, IndexOf(order, el));
      items := items - {el.key};
      order := Unlinked(order, el);
    }

    method MoveToFront(el: Element<K, V>)
      requires Valid() && el in order
      modifies this`order, this`contents
      ensures Valid()
      ensures var i := IndexOf(old(order), el);
              contents == [old(contents)[i]] + C.Without(old(contents), i)
      ensures forall e :: e in order <==> e in old(order)
    {
      MovedKeepsLinks(items, order, el);
      MirrorsUnlinked(order, contents, el);
      ghost var i := IndexOf(order, el);
      contents := [contents[i]] + C.Without(contents, i);
      order := [el] + Unlinked(order, el);
    }

    /** Overwrites an element in place; the map and the list both see it. */
    method Overwrite(el: Element<K, V>, result: V, gen: nat, now: int)
      requires Valid() && el in order && gen == this.gen
      modifies el, this`contents
      ensures Valid()
      ensures contents == old(contents)[IndexOf(order, el) := C.Entry(el.key, result, now + ttl, gen)]
    {
      el.result := result;
      el.expires := now + ttl;
      el.gen := gen;
      contents := contents[IndexOf(order, el) := C.Entry(el.key, result, now + ttl, gen)];
    }

    /** The eviction loop: the last elements go until one more fits. */
    method EvictToFit()
      requires Valid()
      modifies this`items, this`order, this`contents
      ensures Valid() && |order| < cap && items.Keys <= old(items.Keys)
      ensures contents == if |old(contents)| >= cap then old(contents)[..cap - 1] else old(contents)
      ensures forall e :: e in order ==> e in old(order)
    {
      while |order| >= cap
        invariant Valid() && items.Keys <= old(items.Keys)
        invariant contents == if |old(contents)| >= cap && |order| < cap then old(contents)[..cap - 1] else old(contents)
        invariant forall e :: e in order ==> e in old(order)
        decreases |order|
      {
        LastIndex(items, order);
        RemoveElement(order[|order| - 1]);
      }
    }

    method PushFront(el: Element<K, V>)
      requires Valid() && |order| < cap && el.key !in items && el.gen == gen
      modifies this`items, this`order, this`contents
      ensures Valid() && order == [el] + old(order)
      ensures contents == [C.Entry(el.key, el.result, el.expires, el.gen)] + old(contents)
    {
      PushedKeepsLinks(items, order, el);
      MirrorsPushed(order, contents, el, C.Entry(el.key, el.result, el.expires, el.gen));
      items := items[el.key := el];
      order := [el] + order;
      contents := [C.Entry(el.key, el.result, el.expires, el.gen)] + contents;
    }
  }
}
