/** applyValues of internal/config/config.go: any enumeration of the given values leads to one result. */
module ConfigLoading {
  import opened Basics
  import opened Layers
  import opened Config

  /** What each key does, given the values. */
  function Effect(values: map<Key, string>, other: string -> Option<int>): Key -> Option<Fields> {
    k => if k in values then WritesOf(k, values[k], other) else Some(map[])
  }

  /** The keys of the values in the order of their names. */
  ghost predicate InOrder(keys: seq<Key>, values: map<Key, string>) {
    Sorted(keys, Rank) && forall k :: k in keys <==> k in values
  }

  class Store {
    var fields: Fields

    constructor ()
      ensures fields == Default()
    {
      fields := Default();
    }

    /** The keys come out of the map in any order, are sorted and then applied until one is in error. */
    method ApplyValues(values: map<Key, string>, other: string -> Option<int>) returns (ok: bool)
      modifies this
      ensures forall keys :: InOrder(keys, values) ==> (fields, ok) == Run(old(fields), keys, Effect(values, other))
    {
      var keys := SortedKeys(values);
      var effect := Effect(values, other);
      ok := true;
      for i := 0 to |keys|
        invariant ok && (fields, true) == Run(old(fields), keys[..i], effect)
      {
        assert keys[..i + 1][..i] == keys[..i];
        match WritesOf(keys[i], values[keys[i]], other) {
          case None =>
            StopsHere(old(fields), keys, effect, i);
            SameForAll(old(fields), keys, values, other);
            return false;
          case Some(writes) => fields := fields + writes;
        }
      }
      assert keys[..|keys|] == keys;
      SameForAll(old(fields), keys, values, other);
    }
  }

  lemma {:induction false} RunOkMeansValid(fields: Fields, keys: seq<Key>, effect: Key -> Option<Fields>)
    requires Run(fields, keys, effect).1
    ensures Valid(keys, effect)
  {
    if keys != [] {
      RunOkMeansValid(fields, keys[..|keys| - 1], effect);
    }
  }

  lemma StopsHere(fields: Fields, keys: seq<Key>, effect: Key -> Option<Fields>, i: nat)
    requires i < |keys| && effect(keys[i]).None? && Run(fields, keys[..i], effect).1
    ensures Run(fields, keys, effect) == (Run(fields, keys[..i], effect).0, false)
  {
    RunOkMeansValid(fields, keys[..i], effect);
    FirstErrorStops(fields, keys, effect, i);
  }

  /** There is only one list of the keys in order. */
  lemma SameForAll(fields: Fields, keys: seq<Key>, values: map<Key, string>, other: string -> Option<int>)
    requires InOrder(keys, values)
    ensures forall ks :: InOrder(ks, values) ==> Run(fields, ks, Effect(values, other)) == Run(fields, keys, Effect(values, other))
  {
    forall ks | InOrder(ks, values) ensures ks == keys { SortedIsUnique(ks, keys, Rank); }
  }

  /** slices.Sort on the keys of the map, taken out one by one in no particular order. */
  method SortedKeys(values: map<Key, string>) returns (keys: seq<Key>)
    ensures InOrder(keys, values)
  {
    keys := [];
    var left := values.Keys;
    while left != {}
      invariant left <= values.Keys && Sorted(keys, Rank) && forall k :: k in keys <==> k in values && k !in left
      decreases left
    {
      var k :| k in left;
      forall i | 0 <= i < |keys| ensures Rank(keys[i]) != Rank(k) {
        assert keys[i] in keys;
        RankInjective(keys[i], k);
      }
      keys := InsertKey(keys, k, Rank);
      left := left - {k};
    }
  }

  // ---------------------------------------------------------------- which keys commute

  ghost predicate AllValid(values: map<Key, string>, other: string -> Option<int>) {
    forall k :: k in values ==> WritesOf(k, values[k], other).Some?
  }

  /** Without rivals among the keys the order of application does not matter at all. */
  lemma KeysCommute(fields: Fields, values: map<Key, string>, other: string -> Option<int>, keys: seq<Key>, order: seq<Key>)
    requires AllValid(values, other) && InOrder(keys, values) && SameKeys(keys, order)
    requires forall a, b :: a in values && b in values ==> !Rivals(a, b)
    ensures Run(fields, order, Effect(values, other)) == Run(fields, keys, Effect(values, other))
  {
    var effect := Effect(values, other);
    forall i, j | 0 <= i < |keys| && 0 <= j < |keys| ensures Agree(effect, keys[i], keys[j]) {
      assert keys[i] in keys && keys[j] in keys;
      OthersAgree(values, other, keys[i], keys[j]);
    }
    EffectsValid(values, other, keys);
    OrderIsIrrelevant(fields, keys, order, effect);
  }

  lemma OthersAgree(values: map<Key, string>, other: string -> Option<int>, a: Key, b: Key)
    requires a in values && b in values && !Rivals(a, b)
    ensures Agree(Effect(values, other), a, b)
  {
    if a != b {
      forall f ensures !(Writes(Effect(values, other), a, f) && Writes(Effect(values, other), b, f)) {
        NotBoth(values, other, a, b, f);
      }
    }
  }

  lemma NotBoth(values: map<Key, string>, other: string -> Option<int>, a: Key, b: Key, f: Field)
    requires a in values && b in values && a != b
    ensures Writes(Effect(values, other), a, f) && Writes(Effect(values, other), b, f) ==> Rivals(a, b)
  {
    if Writes(Effect(values, other), a, f) && Writes(Effect(values, other), b, f) {
      WritesWithin(a, values[a], other, f);
      WritesWithin(b, values[b], other, f);
      if !Rivals(a, b) { NoSharedField(a, b, f); }
    }
  }

  lemma EffectsValid(values: map<Key, string>, other: string -> Option<int>, keys: seq<Key>)
    requires AllValid(values, other) && forall k :: k in keys ==> k in values
    ensures Valid(keys, Effect(values, other))
  {
    forall i | 0 <= i < |keys| ensures Effect(values, other)(keys[i]).Some? { assert keys[i] in keys; }
  }

  /** A value decides its field unless an overriding key writes the field too: server decides over proxy, silent
      over quiet, and a true verbose over log, foreground and log_level. */
  lemma LaterNameWins(fields: Fields, values: map<Key, string>, other: string -> Option<int>, keys: seq<Key>, a: Key, f: Field)
    requires AllValid(values, other) && InOrder(keys, values)
    requires a in values && f in WritesOf(a, values[a], other).value
    requires forall b :: b in values && Overrides(b, a) ==> f !in WritesOf(b, values[b], other).value
    ensures var (r, ok) := Run(fields, keys, Effect(values, other));
            ok && f in r && r[f] == WritesOf(a, values[a], other).value[f]
  {
    var effect := Effect(values, other);
    EffectsValid(values, other, keys);
    FieldIsLastWrite(fields, keys, effect, f);
    assert a in keys;
    var i :| 0 <= i < |keys| && keys[i] == a;
    assert Writes(effect, a, f);
    var b := keys[LastWriter(keys, effect, f)];
    assert b in keys && Rank(b) >= Rank(a);
    if a != b {
      NotBoth(values, other, a, b, f);
      if Overrides(a, b) { OverridesIsLater(a, b); }
    }
  }

  /** A field that no key writes keeps its value. */
  lemma UnwrittenIsKept(fields: Fields, values: map<Key, string>, other: string -> Option<int>, keys: seq<Key>, f: Field)
    requires AllValid(values, other) && InOrder(keys, values) && f in fields
    requires forall k :: k in values ==> f !in WritesOf(k, values[k], other).value
    ensures var (r, ok) := Run(fields, keys, Effect(values, other)); ok && f in r && r[f] == fields[f]
  {
    EffectsValid(values, other, keys);
    assert forall i :: 0 <= i < |keys| ==> keys[i] in keys;
    FieldIsLastWrite(fields, keys, Effect(values, other), f);
  }
}
