/** The configuration and how keyed text values change it: internal/config/config.go. */
module Config {
  import opened Basics
  import opened Text
  import opened Layers
  import Lists
  import Decimals
  import Binary64

  // ---------------------------------------------------------------- data

  /** The keys of applyValues, in the order of their names as strings. */
  datatype Key =
    | allow | auth | client_auth | client_nosspi | client_password | client_username | config | foreground | gateway
    | health_check | hostonly | idle | install | kerberos | listen | log | log_file | log_level | noproxy | pac
    | pac_encoding | password | port | proxy | proxyreload | quiet | quit | restart | save | server | silent | socktimeout
    | test | threads | uninstall | useragent | username | verbose | version | workers

  datatype Field =
    | Server | PAC | PACEncoding | Listen | Port | Gateway | HostOnly | Allow | NoProxy | UserAgent | Username | Auth | Kerberos
    | ClientUsername | ClientAuth | ClientNoSSPI
    | Workers | Threads | Idle | SockTimeout | ProxyReload | Foreground | Quiet | Log | LogFile | LogLevel
    | ConfigPath | Quit | Restart | TestURL | Install | Uninstall | Save | Version | HealthCheck | Password | ClientPassword

  datatype Level = DEBUG | INFO | WARN | ERROR

  /** Durations are numbers of nanoseconds. */
  datatype Value = String(text: string) | Items(items: seq<string>) | Number(number: int) | Flag(flag: bool) | AtLevel(level: Level)

  type Fields = map<Field, Value>

  function DefaultValue(f: Field): Value {
    match f
    case Server => Items([])
    case Listen => Items(["127.0.0.1"])
    case PACEncoding => String("utf-8")
    case Allow => String("*.*.*.*")
    case Auth => String("ANY")
    case ClientAuth => String("NONE")
    case PAC | NoProxy | UserAgent | Username | ClientUsername | LogFile | ConfigPath | TestURL => String("")
    case Port => Number(3128)
    case Workers => Number(1)
    case Threads => Number(128)
    case Idle => Number(300 * SECOND)
    case SockTimeout => Number(20 * SECOND)
    case ProxyReload => Number(60 * SECOND)
    case Log => Number(0)
    case LogLevel => AtLevel(INFO)
    case Gateway | HostOnly | Kerberos | ClientNoSSPI | Foreground | Quiet | Quit | Restart | Install | Uninstall | Save | Version
      | HealthCheck | Password | ClientPassword => Flag(false)
  }

  function Default(): Fields { map f: Field | true :: DefaultValue(f) }

  const SECOND: int := 1_000_000_000

  // ---------------------------------------------------------------- reading values

  predicate ParseBool(value: string) { ToLower(TrimSpace(value)) in ["1", "true", "yes", "y", "on"] }

  function ParseLevel(raw: string): Option<Level> {
    var s := ToUpper(TrimSpace(raw));
    if s == "DEBUG" then Some(DEBUG)
    else if s == "INFO" || s == "" then Some(INFO)
    else if s == "WARN" || s == "WARNING" then Some(WARN)
    else if s == "ERROR" then Some(ERROR)
    else None
  }

  /** Two's complement reduction to 64 bits. */
  function Wrap64(n: int): int {
    var m := n % 0x1_0000_0000_0000_0000;
    if m > Decimals.MAX64 then m - 0x1_0000_0000_0000_0000 else m
  }

  /** ParseFloat times 1e9 as a Duration: exact binary64 rounding for numbers with one decimal; what the program
      makes of any other text is a parameter. */
  function ParseTimeout(text: string, other: string -> Option<int>): Option<int> {
    match Decimals.ParseTenths(text)
    case None => other(text)
    case Some(k) => Some(if k == 0 then 0 else Wrap64(Binary64.LoadedNanos(k)))
  }

  /** The field a key is for; "verbose" stands for the log number and two more. */
  function FieldOf(k: Key): Field {
    match k
    case proxy => Server case server => Server case pac => PAC case pac_encoding => PACEncoding case listen => Listen
    case port => Port case gateway => Gateway case hostonly => HostOnly case allow => Allow case noproxy => NoProxy
    case useragent => UserAgent case username => Username case auth => Auth case kerberos => Kerberos
    case client_username => ClientUsername case client_auth => ClientAuth case client_nosspi => ClientNoSSPI
    case workers => Workers case threads => Threads case idle => Idle case socktimeout => SockTimeout
    case proxyreload => ProxyReload case foreground => Foreground case log => Log case log_file => LogFile
    case log_level => LogLevel case config => ConfigPath case quit => Quit case test => TestURL case install => Install
    case uninstall => Uninstall case save => Save case version => Version case health_check => HealthCheck
    case password => Password case client_password => ClientPassword case restart => Restart case verbose => Log
    case quiet => Quiet case silent => Quiet
  }

  /** How a key reads its value. */
  datatype Reader = AsString | AsItems | AsFlag | AsNumber | AsSeconds | AsTimeout | AsLevel | AsTest | AsVerbose

  function ReaderOf(k: Key): Reader {
    match k
    case proxy | server | listen => AsItems
    case port | workers | threads | log => AsNumber
    case idle | proxyreload => AsSeconds
    case pac | pac_encoding | allow | noproxy | useragent | username | auth | client_username | client_auth | log_file | config => AsString
    case socktimeout => AsTimeout
    case log_level => AsLevel
    case test => AsTest
    case verbose => AsVerbose
    case gateway | hostonly | kerberos | client_nosspi | foreground | quit | install | uninstall | save | version | health_check
      | password | client_password | restart | quiet | silent => AsFlag
  }

  predicate MayBeEmpty(k: Key) {
    k in {listen, server, noproxy, allow, useragent, username, client_username, auth, client_auth, pac}
  }

  /** The fields a key with a value writes; None when the value is in error. */
  function WritesOf(k: Key, value: string, other: string -> Option<int>): Option<Fields> {
    if value == "" && !MayBeEmpty(k) then Some(map[]) else Written(ReaderOf(k), FieldOf(k), value, other)
  }

  function Written(reader: Reader, f: Field, value: string, other: string -> Option<int>): Option<Fields> {
    if reader.AsVerbose? then
      if ParseBool(value) then Some(map[Log := Number(4), Foreground := Flag(true), LogLevel := AtLevel(DEBUG)]) else Some(map[])
    else
      match Read(reader, value, other)
      case None => None
      case Some(v) => Some(map[f := v])
  }

  function Read(reader: Reader, value: string, other: string -> Option<int>): Option<Value>
    requires !reader.AsVerbose?
  {
    match reader
    case AsString => Some(String(value))
    case AsItems => Some(Items(Lists.SplitList(value)))
    case AsFlag => Some(Flag(ParseBool(value)))
    case AsNumber => (match Decimals.Atoi(value) case None => None case Some(n) => Some(Number(n)))
    case AsSeconds => (match Decimals.Atoi(value) case None => None case Some(n) => Some(Number(Wrap64(n * SECOND))))
    case AsTimeout => (match ParseTimeout(value, other) case None => None case Some(n) => Some(Number(n)))
    case AsLevel => (match ParseLevel(value) case None => None case Some(l) => Some(AtLevel(l)))
    case AsTest => Some(String(if ParseBool(value) then "all" else value))
  }

  predicate CanWrite(k: Key, f: Field) { WritesAt(k, FieldOf(k), f) }

  predicate WritesAt(k: Key, own: Field, f: Field) { f == own || (k == verbose && (f == Foreground || f == LogLevel)) }

  lemma WrittenWithin(reader: Reader, own: Field, value: string, other: string -> Option<int>, f: Field)
    requires Written(reader, own, value, other).Some? && f in Written(reader, own, value, other).value
    ensures f == own || (reader.AsVerbose? && (f == Log || f == Foreground || f == LogLevel))
  {
    if reader.AsVerbose? {
      assert ParseBool(value);
    } else {
      var v := Read(reader, value, other).value;
      assert Written(reader, own, value, other) == Some(map[own := v]);
    }
  }

  lemma WritesWithin(k: Key, value: string, other: string -> Option<int>, f: Field)
    requires WritesOf(k, value, other).Some? && f in WritesOf(k, value, other).value
    ensures CanWrite(k, f)
  {
    WrittenWithin(ReaderOf(k), FieldOf(k), value, other, f);
    VerboseIsOne(k);
  }

  lemma VerboseIsOne(k: Key)
    ensures ReaderOf(k).AsVerbose? ==> k == verbose && FieldOf(k) == Log
  {}

  /** The key named like the field. */
  function KeyFor(f: Field): Key {
    match f
    case Server => server case PAC => pac case PACEncoding => pac_encoding case Listen => listen case Port => port
    case Gateway => gateway case HostOnly => hostonly case Allow => allow case NoProxy => noproxy case UserAgent => useragent
    case Username => username case Auth => auth case Kerberos => kerberos case ClientUsername => client_username
    case ClientAuth => client_auth case ClientNoSSPI => client_nosspi case Workers => workers case Threads => threads
    case Idle => idle case SockTimeout => socktimeout case ProxyReload => proxyreload case Foreground => foreground
    case Quiet => quiet case Log => log case LogFile => log_file case LogLevel => log_level case ConfigPath => config
    case Quit => quit case Restart => restart case TestURL => test case Install => install case Uninstall => uninstall
    case Save => save case Version => version case HealthCheck => health_check case Password => password
    case ClientPassword => client_password
  }

  predicate EarlyName(k: Key) {
    k.allow? || k.auth? || k.client_auth? || k.client_nosspi? || k.client_password? || k.client_username? ||
    k.config? || k.foreground? || k.gateway? || k.health_check? || k.hostonly? || k.idle? || k.install? ||
    k.kerberos? || k.listen? || k.log? || k.log_file? || k.log_level? || k.noproxy? || k.pac?
  }

  lemma KeyForEarly(k: Key)
    requires EarlyName(k)
    ensures KeyFor(FieldOf(k)) == k
  {}

  lemma KeyForLate(k: Key)
    requires !EarlyName(k)
    ensures k != proxy && k != silent && k != verbose ==> KeyFor(FieldOf(k)) == k
  {}

  lemma KeyForFieldOf(k: Key)
    ensures k != proxy && k != silent && k != verbose ==> KeyFor(FieldOf(k)) == k
  {
    if EarlyName(k) { KeyForEarly(k); } else { KeyForLate(k); }
  }

  /** The pairs of keys whose order can matter. */
  predicate Rivals(a: Key, b: Key) { Overrides(a, b) || Overrides(b, a) }

  predicate Overrides(a: Key, b: Key) {
    (a == server && b == proxy) || (a == silent && b == quiet) || (a == verbose && (b == log || b == foreground || b == log_level))
  }

  lemma OwnFieldShared(a: Key, b: Key)
    requires a != b
    ensures FieldOf(a) == FieldOf(b) ==> Rivals(a, b)
  {
    KeyForFieldOf(a);
    KeyForFieldOf(b);
  }

  lemma VerboseShares(b: Key)
    ensures FieldOf(b) == Foreground || FieldOf(b) == LogLevel ==> b == foreground || b == log_level
  {
    KeyForFieldOf(b);
  }

  ghost predicate Share(a: Key, b: Key) { exists f :: CanWrite(a, f) && CanWrite(b, f) }

  /** Two different keys can write the same field when they are one of these pairs ... */
  lemma OverridingShares(a: Key, b: Key)
    requires Overrides(a, b)
    ensures Share(a, b) && Share(b, a)
  {
    var f := OverridesShare(a, b);
  }

  /** ... and only then. */
  lemma OthersDoNotShare(a: Key, b: Key)
    requires a != b && !Rivals(a, b)
    ensures !Share(a, b)
  {
    forall f ensures !(CanWrite(a, f) && CanWrite(b, f)) { NoSharedField(a, b, f); }
  }

  lemma OverridesShare(a: Key, b: Key) returns (f: Field)
    requires Overrides(a, b)
    ensures CanWrite(a, f) && CanWrite(b, f)
  {
    if a == server {
      f := Server;
    } else if a == silent {
      f := Quiet;
    } else if b == log {
      f := Log;
    } else if b == foreground {
      f := Foreground;
    } else {
      f := LogLevel;
    }
  }

  lemma NoSharedField(a: Key, b: Key, f: Field)
    requires a != b && !Rivals(a, b)
    ensures !(CanWrite(a, f) && CanWrite(b, f))
  {
    OwnFieldShared(a, b);
    VerboseShares(a);
    VerboseShares(b);
    ApartFields(a, b, FieldOf(a), FieldOf(b), f);
  }

  lemma ApartFields(a: Key, b: Key, fa: Field, fb: Field, f: Field)
    requires a != b && !Rivals(a, b) && fa != fb
    requires fa == Foreground || fa == LogLevel ==> a == foreground || a == log_level
    requires fb == Foreground || fb == LogLevel ==> b == foreground || b == log_level
    ensures !(WritesAt(a, fa, f) && WritesAt(b, fb, f))
  {}

  // ---------------------------------------------------------------- the order of the keys

  function Rank(k: Key): (i: int)
    ensures 0 <= i < 40
  {
    match k
    case allow => 0 case auth => 1 case client_auth => 2 case client_nosspi => 3 case client_password => 4
    case client_username => 5 case config => 6 case foreground => 7 case gateway => 8 case health_check => 9
    case hostonly => 10 case idle => 11 case install => 12 case kerberos => 13 case listen => 14 case log => 15
    case log_file => 16 case log_level => 17 case noproxy => 18 case pac => 19 case pac_encoding => 20 case password => 21
    case port => 22 case proxy => 23 case proxyreload => 24 case quiet => 25 case quit => 26 case restart => 27
    case save => 28 case server => 29 case silent => 30 case socktimeout => 31 case test => 32 case threads => 33
    case uninstall => 34 case useragent => 35 case username => 36 case verbose => 37 case version => 38 case workers => 39
  }

  function KeyAt(i: int): Key {
    match i
    case 0 => allow case 1 => auth case 2 => client_auth case 3 => client_nosspi case 4 => client_password
    case 5 => client_username case 6 => config case 7 => foreground case 8 => gateway case 9 => health_check
    case 10 => hostonly case 11 => idle case 12 => install case 13 => kerberos case 14 => listen case 15 => log
    case 16 => log_file case 17 => log_level case 18 => noproxy case 19 => pac case 20 => pac_encoding case 21 => password
    case 22 => port case 23 => proxy case 24 => proxyreload case 25 => quiet case 26 => quit case 27 => restart
    case 28 => save case 29 => server case 30 => silent case 31 => socktimeout case 32 => test case 33 => threads
    case 34 => uninstall case 35 => useragent case 36 => username case 37 => verbose case 38 => version case _ => workers
  }

  lemma KeyAtEarly(k: Key)
    requires EarlyName(k)
    ensures KeyAt(Rank(k)) == k
  {}

  lemma KeyAtLate(k: Key)
    requires !EarlyName(k)
    ensures KeyAt(Rank(k)) == k
  {}

  lemma KeyAtRank(k: Key)
    ensures KeyAt(Rank(k)) == k
  {
    if EarlyName(k) { KeyAtEarly(k); } else { KeyAtLate(k); }
  }

  lemma RankInjective(a: Key, b: Key)
    ensures Rank(a) == Rank(b) ==> a == b
  {
    KeyAtRank(a);
    KeyAtRank(b);
  }

  /** Of two rivals the overriding one has the later name. */
  lemma OverridesIsLater(a: Key, b: Key)
    requires Overrides(a, b)
    ensures Rank(a) > Rank(b)
  {}
}
