/** Applying a set of keyed settings one after the other, the first error stopping the rest: the loop of
    applyValues in internal/config/config.go, for any keys, fields and values. */
module Layers {
  import opened Basics

  /** The fields after the keys have been applied in the given order, and whether none was in error. */
  function Run<K, F, W>(fields: map<F, W>, keys: seq<K>, effect: K -> Option<map<F, W>>): (map<F, W>, bool) {
    if keys == [] then (fields, true)
    else
      var (before, ok) := Run(fields, keys[..|keys| - 1], effect);
      if !ok then (before, false)
      else match effect(keys[|keys| - 1])
        case None => (before, false)
        case Some(writes) => (before + writes, true)
  }

  ghost predicate Valid<K, F, W>(keys: seq<K>, effect: K -> Option<map<F, W>>) {
    forall i :: 0 <= i < |keys| ==> effect(keys[i]).Some?
  }

  predicate Writes<K, F, W>(effect: K -> Option<map<F, W>>, k: K, f: F) { effect(k).Some? && f in effect(k).value }

  /** The position of the last key that writes `f`, or -1. */
  function LastWriter<K, F, W>(keys: seq<K>, effect: K -> Option<map<F, W>>, f: F): (i: int)
    ensures -1 <= i < |keys|
    ensures i >= 0 ==> Writes(effect, keys[i], f)
    ensures forall j :: i < j < |keys| ==> !Writes(effect, keys[j], f)
  {
    if keys == [] then -1
    else if Writes(effect, keys[|keys| - 1], f) then |keys| - 1
    else LastWriter(keys[..|keys| - 1], effect, f)
  }

  /** Without errors every field holds what its last writer wrote, or what it held before. */
  lemma {:induction false} FieldIsLastWrite<K, F, W>(fields: map<F, W>, keys: seq<K>, effect: K -> Option<map<F, W>>, f: F)
    requires Valid(keys, effect)
    ensures Run(fields, keys, effect).1
    ensures var i, r := LastWriter(keys, effect, f), Run(fields, keys, effect).0;
            && (f in r <==> i >= 0 || f in fields)
            && (f in r ==> r[f] == if i >= 0 then effect(keys[i]).value[f] else fields[f])
  {
    if keys != [] {
      FieldIsLastWrite(fields, keys[..|keys| - 1], effect, f);
    }
  }

  /** An error stops the loop: what was applied is what precedes the first key in error. */
  lemma {:induction false} FirstErrorStops<K, F, W>(fields: map<F, W>, keys: seq<K>, effect: K -> Option<map<F, W>>, i: nat)
    requires i < |keys| && effect(keys[i]).None? && Valid(keys[..i], effect)
    ensures Run(fields, keys, effect) == (Run(fields, keys[..i], effect).0, false)
  {
    var n := |keys| - 1;
    if n == i {
      RunOk(fields, keys[..i], effect);
    } else {
      assert keys[..n][..i] == keys[..i];
      FirstErrorStops(fields, keys[..n], effect, i);
    }
  }

  lemma {:induction false} RunOk<K, F, W>(fields: map<F, W>, keys: seq<K>, effect: K -> Option<map<F, W>>)
    requires Valid(keys, effect)
    ensures Run(fields, keys, effect).1
  {
    if keys != [] { RunOk(fields, keys[..|keys| - 1], effect); }
  }

  // ---------------------------------------------------------------- the order of the keys

  /** Two keys agree on every field that both write. */
  ghost predicate Agree<K, F(!new), W>(effect: K -> Option<map<F, W>>, a: K, b: K) {
    forall f :: Writes(effect, a, f) && Writes(effect, b, f) ==> effect(a).value[f] == effect(b).value[f]
  }

  ghost predicate SameKeys<K>(a: seq<K>, b: seq<K>) {
    && (forall i :: 0 <= i < |a| ==> a[i] in b) && (forall i :: 0 <= i < |b| ==> b[i] in a)
  }

  /** When all keys agree the order does not matter. */
  lemma OrderIsIrrelevant<K, F(!new), W>(fields: map<F, W>, keys: seq<K>, other: seq<K>, effect: K -> Option<map<F, W>>)
    requires Valid(keys, effect) && SameKeys(keys, other)
    requires forall i, j :: 0 <= i < |keys| && 0 <= j < |keys| ==> Agree(effect, keys[i], keys[j])
    ensures Run(fields, keys, effect) == Run(fields, other, effect)
  {
    var r, s := Run(fields, keys, effect).0, Run(fields, other, effect).0;
    assert Valid(other, effect);
    RunOk(fields, keys, effect);
    RunOk(fields, other, effect);
    forall f ensures (f in r <==> f in s) && (f in r ==> r[f] == s[f]) {
      FieldIsLastWrite(fields, keys, effect, f);
      FieldIsLastWrite(fields, other, effect, f);
      SameWriter(keys, other, effect, f);
    }
    assert r == s;
  }

  lemma SameWriter<K, F(!new), W>(keys: seq<K>, other: seq<K>, effect: K -> Option<map<F, W>>, f: F)
    requires SameKeys(keys, other)
    requires forall i, j :: 0 <= i < |keys| && 0 <= j < |keys| ==> Agree(effect, keys[i], keys[j])
    ensures var i, j := LastWriter(keys, effect, f), LastWriter(other, effect, f);
            (i >= 0 <==> j >= 0) && (i >= 0 ==> effect(keys[i]).value[f] == effect(other[j]).value[f])
  {
    var i, j := LastWriter(keys, effect, f), LastWriter(other, effect, f);
    if i >= 0 {
      var l :| 0 <= l < |other| && other[l] == keys[i];
      assert Writes(effect, other[l], f);
    }
    if j >= 0 {
      var l :| 0 <= l < |keys| && keys[l] == other[j];
      assert Writes(effect, keys[l], f);
      assert Agree(effect, keys[i], keys[l]);
    }
  }

  /** When two keys disagree, swapping them at the end changes the result. */
  lemma OrderMatters<K, F(!new), W>(fields: map<F, W>, rest: seq<K>, a: K, b: K, effect: K -> Option<map<F, W>>)
    requires Valid(rest, effect) && !Agree(effect, a, b)
    ensures Run(fields, rest + [a, b], effect) != Run(fields, rest + [b, a], effect)
  {
    var f :| Writes(effect, a, f) && Writes(effect, b, f) && effect(a).value[f] != effect(b).value[f];
    RunLastTwo(fields, rest, a, b, effect);
    RunLastTwo(fields, rest, b, a, effect);
    var r := Run(fields, rest, effect).0;
    assert (r + effect(a).value + effect(b).value)[f] == effect(b).value[f];
    assert (r + effect(b).value + effect(a).value)[f] == effect(a).value[f];
  }

  lemma RunLastTwo<K, F, W>(fields: map<F, W>, rest: seq<K>, a: K, b: K, effect: K -> Option<map<F, W>>)
    requires Valid(rest, effect) && effect(a).Some? && effect(b).Some?
    ensures Run(fields, rest + [a, b], effect).0 == Run(fields, rest, effect).0 + effect(a).value + effect(b).value
  {
    RunOk(fields, rest, effect);
    assert (rest + [a, b])[..|rest| + 1] == rest + [a] && (rest + [a])[..|rest|] == rest;
  }

  // ---------------------------------------------------------------- sorting the keys

  ghost predicate Sorted<K>(keys: seq<K>, rank: K -> int) { forall i, j :: 0 <= i < j < |keys| ==> rank(keys[i]) < rank(keys[j]) }

  /** Two strictly sorted lists of the same keys are equal. */
  lemma {:induction false} SortedIsUnique<K>(a: seq<K>, b: seq<K>, rank: K -> int)
    requires Sorted(a, rank) && Sorted(b, rank) && SameKeys(a, b)
    ensures a == b
  {
    assert a != [] ==> a[0] in b;
    assert b != [] ==> b[0] in a;
    if a != [] && b != [] {
      var x, y := a[|a| - 1], b[|b| - 1];
      assert x == y by { LastIsLargest(a, b, rank); }
      DropLast(a, b, rank);
      DropLast(b, a, rank);
      SortedIsUnique(a[..|a| - 1], b[..|b| - 1], rank);
      assert a == a[..|a| - 1] + [x] && b == b[..|b| - 1] + [y];
    }
  }

  lemma LastIsLargest<K>(a: seq<K>, b: seq<K>, rank: K -> int)
    requires Sorted(a, rank) && Sorted(b, rank) && SameKeys(a, b) && a != [] && b != []
    ensures a[|a| - 1] == b[|b| - 1]
  {
    var x, y := a[|a| - 1], b[|b| - 1];
    var i :| 0 <= i < |b| && b[i] == x;
    var j :| 0 <= j < |a| && a[j] == y;
    assert i < |b| - 1 ==> rank(x) < rank(y);
    assert j < |a| - 1 ==> rank(y) < rank(x);
  }

  lemma DropLast<K>(a: seq<K>, b: seq<K>, rank: K -> int)
    requires Sorted(a, rank) && Sorted(b, rank) && SameKeys(a, b) && a != [] && b != [] && a[|a| - 1] == b[|b| - 1]
    ensures forall i :: 0 <= i < |a| - 1 ==> a[i] in b[..|b| - 1]
  {
    forall i | 0 <= i < |a| - 1 ensures a[i] in b[..|b| - 1] {
      assert a[i] in b;
      var j :| 0 <= j < |b| && b[j] == a[i];
      assert rank(a[i]) < rank(a[|a| - 1]);
      assert j < |b| - 1;
      assert b[..|b| - 1][j] == a[i];
    }
  }

  /** Where a key goes in a sorted list. */
  method InsertKey<K>(keys: seq<K>, k: K, rank: K -> int) returns (r: seq<K>)
    requires Sorted(keys, rank) && forall i :: 0 <= i < |keys| ==> rank(keys[i]) != rank(k)
    ensures Sorted(r, rank) && forall x :: x in r <==> x in keys || x == k
  {
    var i := 0;
    while i < |keys| && rank(keys[i]) < rank(k)
      invariant i <= |keys| && forall j :: 0 <= j < i ==> rank(keys[j]) < rank(k)
    {
      i := i + 1;
    }
    r := keys[..i] + [k] + keys[i..];
    assert keys == keys[..i] + keys[i..];
  }
}
