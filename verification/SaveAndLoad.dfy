/** Saving a configuration and loading it again over the defaults restores it. */
module SaveAndLoad {
  import opened Basics
  import opened Text
  import opened Layers
  import opened Config
  import opened ConfigLoading
  import opened ConfigRoundTrip
  import Lists
  import Decimals
  import Binary64

  /** The values that survive being printed. */
  predicate Storable(v: Value, reader: Reader)
    requires HasKind(v, reader)
  {
    match reader
    case AsString => true
    case AsItems => forall i :: 0 <= i < |v.items| ==> Lists.Item(v.items[i]) && ',' !in v.items[i]
    case AsFlag => true
    case AsLevel => true
    case AsNumber => Decimals.InRange(v.number) && v.number != 0
    case AsSeconds => WholeSeconds(v.number)
    case AsTimeout => WholeTenths(v.number)
    case AsTest => false
    case AsVerbose => false
  }

  /** What they become: timeouts pass through binary64. */
  function Restored(v: Value, reader: Reader): Value
    requires HasKind(v, reader) && Storable(v, reader)
  {
    if reader.AsTimeout? then Number(Binary64.LoadedNanos(v.number / Binary64.TENTH)) else v
  }

  lemma PrintReads(v: Value, reader: Reader, other: string -> Option<int>)
    requires HasKind(v, reader) && Storable(v, reader)
    ensures Print(v, reader).Some? && Read(reader, Print(v, reader).value, other) == Some(Restored(v, reader))
    ensures reader.AsString? || reader.AsItems? || Print(v, reader).value != ""
  {
    match reader
    case AsString =>
    case AsItems => Lists.SplitListInvertsJoinIff(v.items);
    case AsFlag => FlagReads(v.flag);
    case AsLevel => LevelReads(v.level);
    case AsNumber => NumberReads(v.number);
    case AsSeconds => SecondsRead(v.number);
    case AsTimeout => TimeoutPrints(v.number, other);
  }

  lemma TimeoutPrints(n: int, other: string -> Option<int>)
    requires WholeTenths(n)
    ensures ParseTimeout(TimeoutText(n), other) == Some(Binary64.LoadedNanos(n / Binary64.TENTH)) && TimeoutText(n) != ""
  {
    TimeoutReads(n, n / Binary64.TENTH, other);
  }

  // ---------------------------------------------------------------- one key

  /** The key's value is passed on and writes its field. */
  ghost predicate Writable(c: Fields, k: Key)
    requires Typed(c) && Persisted(k)
  {
    PersistedKind(k);
    && Storable(c[FieldOf(k)], ReaderOf(k))
    && (ReaderOf(k).AsString? ==> c[FieldOf(k)].text != "" || MayBeEmpty(k))
    && (k == listen && (c[Gateway].flag || c[HostOnly].flag) ==> c[Listen].items == [])
  }

  lemma ItemsMayBeEmpty(k: Key)
    requires Persisted(k) && ReaderOf(k).AsItems?
    ensures MayBeEmpty(k)
  {}

  lemma SavedTextIs(c: Fields, k: Key)
    requires Typed(c) && Persisted(k) && Writable(c, k)
    ensures KeyFor(FieldOf(k)) == k && SavedText(c, k) == Print(c[FieldOf(k)], ReaderOf(k))
  {
    PersistedKind(k);
    if k == listen { assert Join([], ',') == ""; }
  }

  lemma SavedKeyWrites(c: Fields, k: Key, other: string -> Option<int>)
    requires Typed(c) && Persisted(k) && Writable(c, k)
    ensures KeyFor(FieldOf(k)) == k && SavedText(c, k).Some?
    ensures WritesOf(k, SavedText(c, k).value, other) == Some(map[FieldOf(k) := Restored(c[FieldOf(k)], ReaderOf(k))])
  {
    PersistedKind(k);
    SavedTextIs(c, k);
    PrintReads(c[FieldOf(k)], ReaderOf(k), other);
    if ReaderOf(k).AsItems? { ItemsMayBeEmpty(k); }
  }

  // ---------------------------------------------------------------- the configurations that are saved

  predicate CommaFree(items: seq<string>) { forall i :: 0 <= i < |items| ==> ',' !in items[i] }

  /** The conditions of validate, and numbers that fit 64 bits. */
  ghost predicate ValidNumbers(c: Fields)
    requires Typed(c)
  {
    && 1 <= c[Port].number <= 65535 && Decimals.InRange(c[Log].number)
    && 0 < c[Workers].number <= Decimals.MAX64 && 0 < c[Threads].number <= Decimals.MAX64
  }

  ghost predicate ValidTimes(c: Fields)
    requires Typed(c)
  {
    WholeSeconds(c[Idle].number) && WholeSeconds(c[ProxyReload].number) && WholeTenths(c[SockTimeout].number)
  }

  /** The timeout, in tenths of a second. */
  function TimeoutTenths(c: Fields): (k: nat)
    requires Typed(c) && ValidTimes(c)
    ensures k > 0 && k * Binary64.TENTH < Binary64.TWO61 && c[SockTimeout] == Number(k * Binary64.TENTH)
  {
    TenthsOf(c[SockTimeout].number);
    c[SockTimeout].number / Binary64.TENTH
  }

  lemma TenthsOf(n: int)
    requires WholeTenths(n)
    ensures n / Binary64.TENTH > 0 && n == n / Binary64.TENTH * Binary64.TENTH
  {}

  ghost predicate ValidTexts(c: Fields)
    requires Typed(c)
  {
    c[PACEncoding].text != "" && CommaFree(c[Server].items) && CommaFree(c[Listen].items)
  }

  ghost predicate Normal(c: Fields, paths: Paths)
    requires Typed(c)
  {
    forall f :: NormalValue(c, f, paths) == c[f]
  }

  /** A normalised valid configuration with a PAC encoding, idle and reload times in positive whole seconds and a
      timeout in positive tenths. */
  ghost predicate Savable(c: Fields, paths: Paths) {
    Typed(c) && Normal(c, paths) && ValidNumbers(c) && ValidTimes(c) && ValidTexts(c)
  }

  /** The two keys whose value may be left to the default. */
  ghost predicate LeftOut(c: Fields, k: Key)
    requires Typed(c)
  {
    (k == log && c[Log].number == 0) || (k == log_file && c[LogFile].text == "")
  }

  lemma NormalServers(c: Fields, paths: Paths)
    requires Typed(c) && Normal(c, paths)
    ensures c[Server].items == Lists.Normalized(c[Server].items)
  {
    assert NormalValue(c, Server, paths) == c[Server];
  }

  lemma NormalListen(c: Fields, paths: Paths)
    requires Typed(c) && Normal(c, paths)
    ensures c[Listen].items == if c[Gateway].flag || c[HostOnly].flag then [] else ListenOr(c[Listen].items)
  {
    assert NormalValue(c, Listen, paths) == c[Listen];
  }

  lemma LocalhostIsItem()
    ensures Lists.Item("127.0.0.1")
  {}

  lemma ListenItems(normal: seq<string>, items: seq<string>)
    requires Lists.IsNormal(normal) && items == if normal == [] then ["127.0.0.1"] else normal
    ensures forall i :: 0 <= i < |items| ==> Lists.Item(items[i])
  {
    LocalhostIsItem();
  }

  lemma ListsAreStorable(c: Fields, paths: Paths)
    requires Savable(c, paths)
    ensures Storable(c[Server], AsItems) && Storable(c[Listen], AsItems)
    ensures c[Gateway].flag || c[HostOnly].flag ==> c[Listen].items == []
  {
    NormalServers(c, paths);
    NormalListen(c, paths);
    Lists.NormalizedIsNormal(c[Server].items);
    Lists.NormalizedIsNormal(c[Listen].items);
    if !(c[Gateway].flag || c[HostOnly].flag) { ListenItems(Lists.Normalized(c[Listen].items), c[Listen].items); }
  }

  lemma StringsAreWritable(c: Fields, k: Key)
    requires Typed(c) && Persisted(k) && ReaderOf(k).AsString? && c[PACEncoding].text != "" && !LeftOut(c, k)
    ensures Writable(c, k)
  {
    PersistedKind(k);
  }

  lemma NumbersAreWritable(c: Fields, paths: Paths, k: Key)
    requires Savable(c, paths) && Persisted(k) && (ReaderOf(k).AsNumber? || ReaderOf(k).AsSeconds? || ReaderOf(k).AsTimeout?) && !LeftOut(c, k)
    ensures Writable(c, k)
  {
    PersistedKind(k);
  }

  lemma SavableIsWritable(c: Fields, paths: Paths, k: Key)
    requires Savable(c, paths) && Persisted(k) && !LeftOut(c, k)
    ensures Writable(c, k)
  {
    PersistedKind(k);
    match ReaderOf(k)
    case AsString => StringsAreWritable(c, k);
    case AsItems => ListsAreStorable(c, paths); OnlyTwoLists(k);
    case AsNumber => NumbersAreWritable(c, paths, k);
    case AsSeconds => NumbersAreWritable(c, paths, k);
    case AsTimeout => NumbersAreWritable(c, paths, k);
    case AsFlag =>
    case AsLevel =>
  }

  lemma OnlyTwoLists(k: Key)
    requires Persisted(k) && ReaderOf(k).AsItems?
    ensures (k == server && FieldOf(k) == Server) || (k == listen && FieldOf(k) == Listen)
  {}

  lemma LeftOutWritesNothing(c: Fields, k: Key, other: string -> Option<int>)
    requires Typed(c) && LeftOut(c, k)
    ensures SavedText(c, k).Some? ==> WritesOf(k, SavedText(c, k).value, other) == Some(map[])
    ensures c[FieldOf(k)] == DefaultValue(FieldOf(k))
  {
    PersistedKind(k);
  }

  /** The fields that belong to one run of the program. */
  predicate OfOneRun(f: Field) {
    match f
    case Quiet | ConfigPath | Quit | Restart | TestURL | Install | Uninstall | Save | Version | HealthCheck | Password | ClientPassword => true
    case _ => false
  }

  /** All other fields are persisted, each under the key named like it. */
  lemma PersistedIff(f: Field)
    ensures Persisted(KeyFor(f)) <==> !OfOneRun(f)
    ensures FieldOf(KeyFor(f)) == f
  {}

  // ---------------------------------------------------------------- all keys together

  lemma SavedKeys(c: Fields, k: Key)
    requires Typed(c)
    ensures k in Saved(c) <==> SavedText(c, k).Some?
    ensures k in Saved(c) ==> Saved(c)[k] == SavedText(c, k).value && Persisted(k)
  {}

  lemma SavedIsValid(c: Fields, paths: Paths, other: string -> Option<int>)
    requires Savable(c, paths)
    ensures AllValid(Saved(c), other)
  {
    forall k | k in Saved(c) ensures WritesOf(k, Saved(c)[k], other).Some? {
      SavedKeys(c, k);
      SavedKeyIsValid(c, paths, other, k);
    }
  }

  lemma SavedKeyIsValid(c: Fields, paths: Paths, other: string -> Option<int>, k: Key)
    requires Savable(c, paths) && Persisted(k) && SavedText(c, k).Some?
    ensures WritesOf(k, SavedText(c, k).value, other).Some?
  {
    if LeftOut(c, k) {
      LeftOutWritesNothing(c, k, other);
    } else {
      SavableIsWritable(c, paths, k);
      SavedKeyWrites(c, k, other);
    }
  }

  /** The field of a persisted key after loading: the value as restored. */
  lemma LoadedField(c: Fields, paths: Paths, other: string -> Option<int>, keys: seq<Key>, k: Key)
    requires Savable(c, paths) && InOrder(keys, Saved(c)) && Persisted(k) && !LeftOut(c, k)
    ensures KeyFor(FieldOf(k)) == k && Writable(c, k)
    ensures var (r, ok) := Run(Default(), keys, Effect(Saved(c), other));
            ok && FieldOf(k) in r && r[FieldOf(k)] == Restored(c[FieldOf(k)], ReaderOf(k))
  {
    PersistedKind(k);
    SavableIsWritable(c, paths, k);
    SavedKeyWrites(c, k, other);
    SavedIsValid(c, paths, other);
    SavedKeys(c, k);
    forall b | b in Saved(c) ensures !Overrides(b, k) {
      SavedKeys(c, b);
      NoneOverrides(b, k);
    }
    LaterNameWins(Default(), Saved(c), other, keys, k, FieldOf(k));
  }

  lemma NoneOverrides(a: Key, b: Key)
    requires Persisted(a) && Persisted(b)
    ensures !Overrides(a, b)
  {}

  /** The field of a key left out keeps the default, which is its value. */
  lemma DefaultField(c: Fields, paths: Paths, other: string -> Option<int>, keys: seq<Key>, k: Key)
    requires Savable(c, paths) && InOrder(keys, Saved(c)) && LeftOut(c, k)
    ensures var (r, ok) := Run(Default(), keys, Effect(Saved(c), other));
            ok && FieldOf(k) in r && r[FieldOf(k)] == c[FieldOf(k)]
  {
    SavedIsValid(c, paths, other);
    LeftOutWritesNothing(c, k, other);
    forall b | b in Saved(c) ensures FieldOf(k) !in WritesOf(b, Saved(c)[b], other).value {
      SavedKeys(c, b);
      if b != k && FieldOf(k) in WritesOf(b, Saved(c)[b], other).value {
        WritesWithin(b, Saved(c)[b], other, FieldOf(k));
        OnlyOwnKey(b, k);
      }
    }
    UnwrittenIsKept(Default(), Saved(c), other, keys, FieldOf(k));
  }

  lemma OnlyOwnKey(b: Key, k: Key)
    requires Persisted(b) && (k == log || k == log_file) && CanWrite(b, FieldOf(k))
    ensures b == k
  {
    PersistedKind(b);
  }

  /** What loading a saved configuration gives, before normalising. */
  function Loaded(c: Fields, keys: seq<Key>, other: string -> Option<int>): (Fields, bool)
    requires Typed(c)
  {
    Run(Default(), keys, Effect(Saved(c), other))
  }

  lemma LoadedIsTyped(c: Fields, paths: Paths, other: string -> Option<int>, keys: seq<Key>)
    requires Savable(c, paths) && InOrder(keys, Saved(c))
    ensures Typed(Loaded(c, keys, other).0) && Loaded(c, keys, other).1
  {
    SavedIsValid(c, paths, other);
    DefaultIsTyped();
    RunKeepsTypes(Default(), Saved(c), other, keys);
    EffectsValid(Saved(c), other, keys);
    RunOk(Default(), keys, Effect(Saved(c), other));
  }

  lemma OnlyTimeout(k: Key)
    requires Persisted(k)
    ensures ReaderOf(k).AsTimeout? <==> k == socktimeout
  {}

  lemma FieldComesBack(c: Fields, paths: Paths, other: string -> Option<int>, keys: seq<Key>, k: Key)
    requires Savable(c, paths) && InOrder(keys, Saved(c)) && Persisted(k) && k != socktimeout
    ensures var r := Loaded(c, keys, other).0; FieldOf(k) in r && r[FieldOf(k)] == c[FieldOf(k)]
  {
    if LeftOut(c, k) {
      DefaultField(c, paths, other, keys, k);
    } else {
      LoadedField(c, paths, other, keys, k);
      OnlyTimeout(k);
    }
  }

  lemma TimeoutComesBack(c: Fields, paths: Paths, other: string -> Option<int>, keys: seq<Key>)
    requires Savable(c, paths) && InOrder(keys, Saved(c))
    ensures var r := Loaded(c, keys, other).0;
            SockTimeout in r && r[SockTimeout] == Number(Binary64.LoadedNanos(TimeoutTenths(c)))
  {
    LoadedField(c, paths, other, keys, socktimeout);
  }

  /** The fields that normalize reads or writes. */
  predicate Normalised(f: Field) { f in {Server, Listen, Gateway, HostOnly, Auth, ClientAuth, PAC} }

  lemma NormalValueAgrees(c: Fields, r: Fields, paths: Paths, f: Field)
    requires Typed(c) && Typed(r) && Normal(c, paths) && forall g :: Normalised(g) ==> r[g] == c[g]
    ensures NormalValue(r, f, paths) == if Normalised(f) then c[f] else r[f]
  {
    assert r[Server] == c[Server] && r[Listen] == c[Listen] && r[Gateway] == c[Gateway] && r[HostOnly] == c[HostOnly];
    assert r[Auth] == c[Auth] && r[ClientAuth] == c[ClientAuth] && r[PAC] == c[PAC];
    assert NormalValue(c, f, paths) == c[f];
  }

  lemma KeyForNormalised(f: Field)
    requires Normalised(f)
    ensures Persisted(KeyFor(f)) && KeyFor(f) != socktimeout && FieldOf(KeyFor(f)) == f
  {}

  lemma NormalisedFieldsComeBack(c: Fields, paths: Paths, other: string -> Option<int>, keys: seq<Key>)
    requires Savable(c, paths) && InOrder(keys, Saved(c))
    ensures forall f :: Normalised(f) ==> f in Loaded(c, keys, other).0 && Loaded(c, keys, other).0[f] == c[f]
  {
    forall f | Normalised(f) ensures f in Loaded(c, keys, other).0 && Loaded(c, keys, other).0[f] == c[f] {
      KeyForNormalised(f);
      FieldComesBack(c, paths, other, keys, KeyFor(f));
    }
  }

  predicate Agrees(r: Fields, c: Fields, f: Field) { f in r && f in c && r[f] == c[f] }

  /** Saving, loading over the defaults and normalising restores every persisted field but the timeout. */
  lemma SavedFieldIsRestored(c: Fields, paths: Paths, other: string -> Option<int>, keys: seq<Key>, k: Key)
    requires Savable(c, paths) && InOrder(keys, Saved(c)) && Persisted(k) && k != socktimeout
    ensures Typed(Loaded(c, keys, other).0)
    ensures Agrees(Normalize(Loaded(c, keys, other).0, paths), c, FieldOf(k))
  {
    LoadedIsTyped(c, paths, other, keys);
    NormalisedFieldsComeBack(c, paths, other, keys);
    FieldComesBack(c, paths, other, keys, k);
    NormalValueAgrees(c, Loaded(c, keys, other).0, paths, FieldOf(k));
  }

  /** The timeout comes back as binary64 arithmetic leaves it. */
  lemma SavedTimeoutIsLoaded(c: Fields, paths: Paths, other: string -> Option<int>, keys: seq<Key>)
    requires Savable(c, paths) && InOrder(keys, Saved(c))
    ensures Typed(Loaded(c, keys, other).0)
    ensures Normalize(Loaded(c, keys, other).0, paths)[SockTimeout]
            == Number(Binary64.LoadedNanos(TimeoutTenths(c)))
  {
    LoadedIsTyped(c, paths, other, keys);
    NormalisedFieldsComeBack(c, paths, other, keys);
    TimeoutComesBack(c, paths, other, keys);
    NormalValueAgrees(c, Loaded(c, keys, other).0, paths, SockTimeout);
  }

  /** What is promised of a configuration that went through a file. */
  ghost predicate CameBack(c: Fields, r: Fields)
    requires Typed(c) && ValidTimes(c)
  {
    && Typed(r)
    && (forall k :: Persisted(k) && k != socktimeout ==> Agrees(r, c, FieldOf(k)))
    && r[SockTimeout] == Number(Binary64.LoadedNanos(TimeoutTenths(c)))
  }

  lemma ComesBack(c: Fields, paths: Paths, other: string -> Option<int>, keys: seq<Key>)
    requires Savable(c, paths) && InOrder(keys, Saved(c))
    ensures Typed(Loaded(c, keys, other).0)
    ensures CameBack(c, Normalize(Loaded(c, keys, other).0, paths))
  {
    var loaded := Loaded(c, keys, other).0;
    LoadedIsTyped(c, paths, other, keys);
    NormalizeKeepsTypes(loaded, paths);
    forall k | Persisted(k) && k != socktimeout ensures Agrees(Normalize(loaded, paths), c, FieldOf(k)) {
      SavedFieldIsRestored(c, paths, other, keys, k);
    }
    SavedTimeoutIsLoaded(c, paths, other, keys);
  }

  lemma UpdatesNormalize(c: Fields, paths: Paths, s: Value, l: Value, a: Value, ca: Value, p: Value)
    requires Typed(c) && s == NormalValue(c, Server, paths) && l == NormalValue(c, Listen, paths) && a == NormalValue(c, Auth, paths)
    requires ca == NormalValue(c, ClientAuth, paths) && p == NormalValue(c, PAC, paths)
    ensures c[Server := s][Listen := l][Auth := a][ClientAuth := ca][PAC := p] == Normalize(c, paths)
  {
    var n := c[Server := s][Listen := l][Auth := a][ClientAuth := ca][PAC := p];
    forall f ensures f in n && n[f] == NormalValue(c, f, paths) { UpdatedIsNormal(c, paths, s, l, a, ca, p, f); }
    FieldsAreNormalized(c, paths, n);
  }

  lemma FieldsAreNormalized(c: Fields, paths: Paths, n: Fields)
    requires Typed(c) && forall f :: f in n && n[f] == NormalValue(c, f, paths)
    ensures n == Normalize(c, paths)
  {}

  lemma UpdatedIsNormal(c: Fields, paths: Paths, s: Value, l: Value, a: Value, ca: Value, p: Value, f: Field)
    requires Typed(c) && s == NormalValue(c, Server, paths) && l == NormalValue(c, Listen, paths) && a == NormalValue(c, Auth, paths)
    requires ca == NormalValue(c, ClientAuth, paths) && p == NormalValue(c, PAC, paths)
    ensures c[Server := s][Listen := l][Auth := a][ClientAuth := ca][PAC := p][f] == NormalValue(c, f, paths)
  {
    UpdatedField(c, s, l, a, ca, p, f);
    OtherFieldsStay(c, f, paths);
  }

  lemma UpdatedField(c: Fields, s: Value, l: Value, a: Value, ca: Value, p: Value, f: Field)
    requires f in c
    ensures var n := c[Server := s][Listen := l][Auth := a][ClientAuth := ca][PAC := p];
            f in n && n[f] == if f == Server then s else if f == Listen then l else if f == Auth then a
                              else if f == ClientAuth then ca else if f == PAC then p else c[f]
  {}

  lemma OtherFieldsStay(c: Fields, f: Field, paths: Paths)
    requires Typed(c)
    ensures f != Server && f != Listen && f != Auth && f != ClientAuth && f != PAC ==> NormalValue(c, f, paths) == c[f]
  {}

  method NormalizeLists(c: Fields, ghost paths: Paths) returns (servers: Value, listen: Value)
    requires Typed(c)
    ensures servers == NormalValue(c, Server, paths) && listen == NormalValue(c, Listen, paths)
  {
    var s := Lists.NormalizeCSV(c[Server].items);
    var l := Lists.NormalizeCSV(c[Listen].items);
    if |l| == 0 {
      l := ["127.0.0.1"];
    }
    if c[Gateway].flag || c[HostOnly].flag {
      l := [];
    }
    return Items(s), Items(l);
  }

  method NormalizeAuth(c: Fields, ghost paths: Paths) returns (proxyAuth: Value, clientAuth: Value)
    requires Typed(c)
    ensures proxyAuth == NormalValue(c, Auth, paths) && clientAuth == NormalValue(c, ClientAuth, paths)
  {
    var a, ca := ToUpper(TrimSpace(c[Auth].text)), ToUpper(TrimSpace(c[ClientAuth].text));
    if a == "" {
      a := "ANY";
    }
    if ca == "" {
      ca := "NONE";
    }
    return String(a), String(ca);
  }

  method NormalizePAC(c: Fields, paths: Paths) returns (pac: Value)
    requires Typed(c)
    ensures pac == NormalValue(c, PAC, paths)
  {
    return String(ResolvePAC(c[PAC].text, paths));
  }

  method NormalizedFields(c: Fields, paths: Paths) returns (n: Fields)
    requires Typed(c)
    ensures n == Normalize(c, paths)
  {
    var s, l := NormalizeLists(c, paths);
    var a, ca := NormalizeAuth(c, paths);
    var p := NormalizePAC(c, paths);
    n := c[Server := s][Listen := l][Auth := a][ClientAuth := ca][PAC := p];
    UpdatesNormalize(c, paths, s, l, a, ca, p);
  }

  /** normalize. */
  method NormalizeInPlace(store: Store, paths: Paths)
    requires Typed(store.fields)
    modifies store
    ensures store.fields == Normalize(old(store.fields), paths)
  {
    var n := NormalizedFields(store.fields, paths);
    store.fields := n;
  }

  /** The whole round trip on objects. */
  method SaveThenLoad(c: Fields, paths: Paths, other: string -> Option<int>) returns (r: Fields)
    requires Savable(c, paths)
    ensures CameBack(c, r)
  {
    var store := new Store();
    var keys := SortedKeys(Saved(c));
    var ok := store.ApplyValues(Saved(c), other);
    assert store.fields == Loaded(c, keys, other).0;
    ComesBack(c, paths, other, keys);
    NormalizeInPlace(store, paths);
    r := store.fields;
  }

  lemma NormalValueHasKind(c: Fields, f: Field, paths: Paths)
    requires Typed(c)
    ensures HasKind(NormalValue(c, f, paths), ReaderOf(KeyFor(f)))
  {}

  lemma NormalizeKeepsTypes(c: Fields, paths: Paths)
    requires Typed(c)
    ensures Typed(Normalize(c, paths))
  {
    forall f ensures f in Normalize(c, paths) && HasKind(Normalize(c, paths)[f], ReaderOf(KeyFor(f))) { NormalValueHasKind(c, f, paths); }
  }

  /** Everything persisted is restored exactly when the timeout, in tenths, does not slip. */
  lemma AllRestoredIff(c: Fields, paths: Paths, other: string -> Option<int>, keys: seq<Key>)
    requires Savable(c, paths) && InOrder(keys, Saved(c))
    ensures Typed(Loaded(c, keys, other).0)
    ensures (forall k :: Persisted(k) ==> Agrees(Normalize(Loaded(c, keys, other).0, paths), c, FieldOf(k))) <==> !Binary64.Slips(TimeoutTenths(c))
  {
    var r := Loaded(c, keys, other).0;
    SavedTimeoutIsLoaded(c, paths, other, keys);
    forall k | Persisted(k) && k != socktimeout ensures Agrees(Normalize(r, paths), c, FieldOf(k)) {
      SavedFieldIsRestored(c, paths, other, keys, k);
    }
    Binary64.LoadedExactIff(TimeoutTenths(c));
    assert Persisted(socktimeout) && FieldOf(socktimeout) == SockTimeout;
  }

  /** A loaded timeout is saved again under the same text. */
  lemma TextIsStable(tenths: nat)
    requires tenths > 0 && tenths * Binary64.TENTH < Binary64.TWO61
    ensures TimeoutText(Binary64.LoadedNanos(tenths)) == TimeoutText(tenths * Binary64.TENTH) == Decimals.TenthsText(tenths)
  {
    Binary64.LoadedBound(tenths);
    NearestWithin(tenths, Binary64.LoadedNanos(tenths));
    NearestWithin(tenths, tenths * Binary64.TENTH);
  }

  lemma NearestWithin(tenths: nat, n: nat)
    requires tenths * Binary64.TENTH - 256 <= n <= tenths * Binary64.TENTH + 256
    ensures NearestTenth(n) == tenths
  {}

  // ---------------------------------------------------------------- the defaults

  lemma AuthDefaults()
    ensures AuthOr("ANY", "ANY") == "ANY" && AuthOr("NONE", "NONE") == "NONE"
  {
    TrimmedFixed("ANY");
    TrimmedFixed("NONE");
    assert ToUpper("ANY") == "ANY" && ToUpper("NONE") == "NONE";
  }

  lemma ListDefaults(localhost: seq<string>)
    requires localhost == ["127.0.0.1"]
    ensures Lists.Normalized([]) == [] && ListenOr(localhost) == localhost && CommaFree(localhost)
  {
    LocalhostIsItem();
    Lists.NormalIsFixed(localhost);
  }

  ghost predicate Defaults(c: Fields) { Typed(c) && forall f :: c[f] == DefaultValue(f) }

  lemma DefaultListsNormal(c: Fields, paths: Paths)
    requires Defaults(c)
    ensures NormalValue(c, Server, paths) == c[Server] && NormalValue(c, Listen, paths) == c[Listen]
  {
    ListDefaults(["127.0.0.1"]);
    assert c[Server] == DefaultValue(Server) && c[Listen] == DefaultValue(Listen);
  }

  lemma DefaultTextsNormal(c: Fields, paths: Paths)
    requires Defaults(c)
    ensures NormalValue(c, Auth, paths) == c[Auth] && NormalValue(c, ClientAuth, paths) == c[ClientAuth] && NormalValue(c, PAC, paths) == c[PAC]
  {
    AuthDefaults();
    TrimmedFixed("");
    assert c[Auth] == DefaultValue(Auth) && c[ClientAuth] == DefaultValue(ClientAuth) && c[PAC] == DefaultValue(PAC);
  }

  lemma DefaultIsNormal(c: Fields, paths: Paths)
    requires Defaults(c)
    ensures Normal(c, paths)
  {
    forall f ensures NormalValue(c, f, paths) == c[f] {
      DefaultListsNormal(c, paths);
      DefaultTextsNormal(c, paths);
      OtherFieldsStay(c, f, paths);
    }
  }

  lemma DefaultNumbersValid(c: Fields)
    requires Defaults(c)
    ensures ValidNumbers(c)
  {
    assert c[Port] == DefaultValue(Port) && c[Log] == DefaultValue(Log);
    assert c[Workers] == DefaultValue(Workers) && c[Threads] == DefaultValue(Threads);
  }

  lemma DefaultTimesValid(c: Fields)
    requires Defaults(c)
    ensures ValidTimes(c)
  {
    assert c[Idle] == DefaultValue(Idle) && c[ProxyReload] == DefaultValue(ProxyReload) && c[SockTimeout] == DefaultValue(SockTimeout);
  }

  lemma DefaultTextsValid(c: Fields)
    requires Defaults(c)
    ensures ValidTexts(c)
  {
    ListDefaults(["127.0.0.1"]);
    assert c[PACEncoding] == DefaultValue(PACEncoding) && c[Server] == DefaultValue(Server) && c[Listen] == DefaultValue(Listen);
  }

  /** The defaults can be saved, so the round trip applies to them. */
  lemma DefaultIsSavable(c: Fields, paths: Paths)
    requires c == Default()
    ensures Savable(c, paths)
  {
    DefaultIsTyped();
    DefaultIsNormal(c, paths);
    DefaultNumbersValid(c);
    DefaultTimesValid(c);
    DefaultTextsValid(c);
  }
}
