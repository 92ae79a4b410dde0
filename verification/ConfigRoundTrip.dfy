/** Saving a configuration and loading it again: saveTOML, applyTOML and normalize of internal/config/config.go.
    The file itself is taken to give back the typed values put into it. */
module ConfigRoundTrip {
  import opened Basics
  import opened Text
  import opened Layers
  import opened Config
  import opened ConfigLoading
  import Lists
  import Decimals
  import Binary64

  // ---------------------------------------------------------------- normalize

  /** How paths are judged and completed: filepath.IsAbs, and filepath.Join with the base directory. */
  datatype Paths = Paths(isAbs: string -> bool, join: string -> string)

  predicate IsURL(path: string) {
    var lower := ToLower(path);
    "http://" <= lower || "https://" <= lower || "file://" <= lower
  }

  function ResolvePAC(raw: string, paths: Paths): string {
    var path := TrimSpace(raw);
    if path == "" || IsURL(path) || paths.isAbs(path) then path else paths.join(path)
  }

  function AuthOr(raw: string, fallback: string): string {
    var a := ToUpper(TrimSpace(raw));
    if a == "" then fallback else a
  }

  function ListenOr(items: seq<string>): seq<string> {
    var l := Lists.Normalized(items);
    if l == [] then ["127.0.0.1"] else l
  }

  /** The value that normalize leaves in a field. */
  function NormalValue(c: Fields, f: Field, paths: Paths): Value
    requires Typed(c)
  {
    match f
    case Server => Items(Lists.Normalized(c[Server].items))
    case Listen => Items(if c[Gateway].flag || c[HostOnly].flag then [] else ListenOr(c[Listen].items))
    case Auth => String(AuthOr(c[Auth].text, "ANY"))
    case ClientAuth => String(AuthOr(c[ClientAuth].text, "NONE"))
    case PAC => String(ResolvePAC(c[PAC].text, paths))
    case _ => c[f]
  }

  predicate HasKind(v: Value, reader: Reader) {
    match reader
    case AsString => v.String?
    case AsItems => v.Items?
    case AsFlag => v.Flag?
    case AsLevel => v.AtLevel?
    case AsTest => v.String?
    case _ => v.Number?
  }

  /** Every field is there, with a value of its type. */
  ghost predicate Typed(c: Fields) { forall f :: f in c && HasKind(c[f], ReaderOf(KeyFor(f))) }

  function Normalize(c: Fields, paths: Paths): Fields
    requires Typed(c)
  {
    map f: Field | f in c :: NormalValue(c, f, paths)
  }

  // ---------------------------------------------------------------- types are kept

  lemma ReadHasKind(reader: Reader, value: string, other: string -> Option<int>)
    requires !reader.AsVerbose?
    ensures Read(reader, value, other).Some? ==> HasKind(Read(reader, value, other).value, reader)
  {}

  lemma ReaderOfField(k: Key)
    ensures !ReaderOf(k).AsVerbose? ==> ReaderOf(KeyFor(FieldOf(k))) == ReaderOf(k)
  {
    KeyForFieldOf(k);
  }

  lemma WritesHaveKind(k: Key, value: string, other: string -> Option<int>, f: Field)
    requires WritesOf(k, value, other).Some? && f in WritesOf(k, value, other).value
    ensures HasKind(WritesOf(k, value, other).value[f], ReaderOf(KeyFor(f)))
  {
    if !ReaderOf(k).AsVerbose? {
      ReadHasKind(ReaderOf(k), value, other);
      ReaderOfField(k);
    }
  }

  lemma DefaultFlagHasKind(f: Field)
    requires DefaultValue(f).Flag?
    ensures HasKind(DefaultValue(f), ReaderOf(KeyFor(f)))
  {}

  lemma DefaultStringHasKind(f: Field)
    requires DefaultValue(f).String?
    ensures HasKind(DefaultValue(f), ReaderOf(KeyFor(f)))
  {}

  lemma DefaultOtherHasKind(f: Field)
    requires !DefaultValue(f).Flag? && !DefaultValue(f).String?
    ensures HasKind(DefaultValue(f), ReaderOf(KeyFor(f)))
  {}

  lemma DefaultHasKind(f: Field)
    ensures HasKind(DefaultValue(f), ReaderOf(KeyFor(f)))
  {
    match DefaultValue(f)
    case Flag(_) => DefaultFlagHasKind(f);
    case String(_) => DefaultStringHasKind(f);
    case _ => DefaultOtherHasKind(f);
  }

  lemma DefaultIsTyped()
    ensures Typed(Default())
  {
    forall f ensures f in Default() && HasKind(Default()[f], ReaderOf(KeyFor(f))) { DefaultHasKind(f); }
  }

  lemma RunKeepsTypes(fields: Fields, values: map<Key, string>, other: string -> Option<int>, keys: seq<Key>)
    requires Typed(fields) && AllValid(values, other) && InOrder(keys, values)
    ensures Typed(Run(fields, keys, Effect(values, other)).0)
  {
    var effect := Effect(values, other);
    EffectsValid(values, other, keys);
    forall f ensures var r := Run(fields, keys, effect).0; f in r && HasKind(r[f], ReaderOf(KeyFor(f))) {
      FieldIsLastWrite(fields, keys, effect, f);
      var i := LastWriter(keys, effect, f);
      if i >= 0 {
        assert keys[i] in keys;
        WritesHaveKind(keys[i], values[keys[i]], other, f);
      }
    }
  }

  // ---------------------------------------------------------------- saving

  predicate Persisted(k: Key) {
    match k
    case server | pac | pac_encoding | listen | port | gateway | hostonly | allow | noproxy | useragent | username | auth | kerberos
      | client_username | client_auth | client_nosspi | workers | threads | idle | socktimeout | proxyreload | foreground | log
      | log_file | log_level => true
    case _ => false
  }

  /** Go's integer division, toward zero. */
  function Quotient(a: int, b: int): int
    requires b > 0
  {
    if a < 0 then -((-a) / b) else a / b
  }

  function LevelText(l: Level): string {
    match l case DEBUG => "DEBUG" case INFO => "INFO" case WARN => "WARN" case ERROR => "ERROR"
  }

  /** The tenth of a second nearest to a duration. */
  function NearestTenth(n: nat): nat { (n + Binary64.TENTH / 2) / Binary64.TENTH }

  function TimeoutText(n: int): string {
    if n < 0 then "-" + Decimals.TenthsText(NearestTenth(-n)) else Decimals.TenthsText(NearestTenth(n))
  }

  /** The text of a value on its way through the file; None when applyTOML passes nothing on. */
  function Print(v: Value, reader: Reader): Option<string>
    requires HasKind(v, reader)
  {
    match reader
    case AsString => Some(v.text)
    case AsItems => Some(Join(v.items, ','))
    case AsFlag => Some(if v.flag then "1" else "0")
    case AsNumber => if v.number == 0 then None else Some(Decimals.Itoa(v.number))
    case AsSeconds => var s := Quotient(v.number, SECOND); if s == 0 then None else Some(Decimals.Itoa(s))
    case AsTimeout => if v.number == 0 then None else Some(TimeoutText(v.number))
    case AsLevel => Some(LevelText(v.level))
    case AsTest => None
    case AsVerbose => None
  }

  function SavedText(c: Fields, k: Key): Option<string>
    requires Typed(c)
  {
    if !Persisted(k) then None
    else if k == listen && (c[Gateway].flag || c[HostOnly].flag) then Some("")
    else
      var reader := (PersistedKind(k); ReaderOf(k));
      Print(c[FieldOf(k)], reader)
  }

  lemma PersistedKind(k: Key)
    requires Persisted(k)
    ensures KeyFor(FieldOf(k)) == k && !ReaderOf(k).AsVerbose? && !ReaderOf(k).AsTest?
  {
    KeyForFieldOf(k);
  }

  function Saved(c: Fields): map<Key, string>
    requires Typed(c)
  {
    map k: Key | SavedText(c, k).Some? :: SavedText(c, k).value
  }

  // ---------------------------------------------------------------- reading what was printed

  lemma FlagReads(b: bool)
    ensures ParseBool(if b then "1" else "0") == b
  {
    TrimmedFixed("1");
    TrimmedFixed("0");
    assert ToLower("1") == "1" && ToLower("0") == "0";
    assert "0" !in ["1", "true", "yes", "y", "on"] by {
      assert "0"[0] != "1"[0] && "0"[0] != "true"[0] && "0"[0] != "yes"[0] && "0"[0] != "y"[0] && "0"[0] != "on"[0];
    }
  }

  lemma LevelReads(l: Level)
    ensures ParseLevel(LevelText(l)) == Some(l) && LevelText(l) != ""
  {
    var s := LevelText(l);
    TrimmedFixed(s);
    assert ToUpper(s) == s;
  }

  lemma NumberReads(n: int)
    requires Decimals.InRange(n)
    ensures Decimals.Atoi(Decimals.Itoa(n)) == Some(n)
  {
    Decimals.AtoiInvertsItoa(n);
  }

  /** Positive whole seconds that fit a Duration. */
  predicate WholeSeconds(n: int) { n > 0 && n % SECOND == 0 && n <= Decimals.MAX64 }

  lemma SecondsRead(n: int)
    requires WholeSeconds(n)
    ensures var s := Quotient(n, SECOND); s > 0 && Wrap64(s * SECOND) == n && Decimals.Atoi(Decimals.Itoa(s)) == Some(s)
  {
    Decimals.AtoiInvertsItoa(n / SECOND);
  }

  /** Positive whole tenths of a second, below 2^61 nanoseconds. */
  predicate WholeTenths(n: int) { 0 < n < Binary64.TWO61 && n % Binary64.TENTH == 0 }

  lemma FitsUnchanged(n: int)
    requires 0 <= n <= Decimals.MAX64
    ensures Wrap64(n) == n
  {}

  lemma TenthsRead(k: nat, text: string, loaded: nat, other: string -> Option<int>)
    requires k > 0 && text == Decimals.TenthsText(k) && loaded == Binary64.LoadedNanos(k) <= Decimals.MAX64
    ensures ParseTimeout(text, other) == Some(loaded)
  {
    Decimals.TenthsRoundTrip(k);
    FitsUnchanged(loaded);
  }

  lemma NearestTenthOf(n: nat, k: nat)
    requires n == k * Binary64.TENTH
    ensures NearestTenth(n) == k
  {}

  lemma TimeoutReads(n: int, k: nat, other: string -> Option<int>)
    requires WholeTenths(n) && n == k * Binary64.TENTH && k > 0
    ensures ParseTimeout(TimeoutText(n), other) == Some(Binary64.LoadedNanos(k))
  {
    NearestTenthOf(n, k);
    Binary64.LoadedBound(k);
    TenthsRead(k, TimeoutText(n), Binary64.LoadedNanos(k), other);
  }
}
