/** What the values a user types mean, key by key: parseBool, parseLevel and the cases of applyValues in
    internal/config/config.go. */
module ConfigTyped {
  import opened Basics
  import opened Text
  import opened Config
  import Lists
  import Decimals

  /** The words for "true", in any mixture of letter case. */
  predicate SpellsTrue(w: string) {
    Spells(w, "1") || Spells(w, "true") || Spells(w, "yes") || Spells(w, "y") || Spells(w, "on")
  }

  lemma FoldsToWord(w: string, word: string)
    requires word in ["1", "true", "yes", "y", "on"]
    ensures ToLower(w) == word <==> Spells(w, word)
  {
    ToLowerIff(w, word);
  }

  /** A flag is set by exactly these words, with any white space around them. */
  lemma FlagIff(value: string)
    ensures ParseBool(value) <==> SpellsTrue(TrimSpace(value))
  {
    var w := TrimSpace(value);
    FoldsToWord(w, "1");
    FoldsToWord(w, "true");
    FoldsToWord(w, "yes");
    FoldsToWord(w, "y");
    FoldsToWord(w, "on");
  }

  lemma PaddedFlagIff(lead: string, word: string, trail: string)
    requires AllSpace(lead) && AllSpace(trail) && Trimmed(word)
    ensures ParseBool(lead + word + trail) <==> SpellsTrue(word)
  {
    TrimPads(lead, word, trail);
    FlagIff(lead + word + trail);
  }

  function LevelWord(l: Level): string {
    match l case DEBUG => "debug" case INFO => "info" case WARN => "warn" case ERROR => "error"
  }

  /** The texts for a level: its name in any letter case, "warning" for WARN, and nothing at all for INFO. */
  predicate SpellsLevel(w: string, l: Level) {
    Spells(w, LevelWord(l)) || (l == INFO && w == "") || (l == WARN && Spells(w, "warning"))
  }

  lemma UpperIs(w: string, t: string, u: string)
    requires IsLower(t) && ToUpper(t) == u
    ensures ToUpper(w) == u <==> Spells(w, t)
  {
    EqualFoldIff(w, t);
  }

  lemma LevelIff(raw: string, l: Level)
    ensures ParseLevel(raw) == Some(l) <==> SpellsLevel(TrimSpace(raw), l)
  {
    var w := TrimSpace(raw);
    UpperIs(w, "debug", "DEBUG");
    UpperIs(w, "info", "INFO");
    UpperIs(w, "warn", "WARN");
    UpperIs(w, "warning", "WARNING");
    UpperIs(w, "error", "ERROR");
    assert ToUpper(w) == "" <==> w == "";
    LevelWordsDiffer(w);
  }

  lemma LevelWordsDiffer(w: string)
    ensures Spells(w, "debug") ==> |w| == 5 && (w[0] == 'd' || w[0] == 'D')
    ensures Spells(w, "error") ==> |w| == 5 && (w[0] == 'e' || w[0] == 'E')
    ensures Spells(w, "info") ==> |w| == 4 && (w[0] == 'i' || w[0] == 'I')
    ensures Spells(w, "warn") ==> |w| == 4 && (w[0] == 'w' || w[0] == 'W')
    ensures Spells(w, "warning") ==> |w| == 7
  {}

  // ---------------------------------------------------------------- what each kind of key writes

  /** A true "verbose" sets the log number, the foreground flag and the level; any other value sets nothing. */
  lemma VerboseWrites(value: string, other: string -> Option<int>)
    ensures WritesOf(verbose, value, other)
            == Some(if SpellsTrue(TrimSpace(value)) then map[Log := Number(4), Foreground := Flag(true), LogLevel := AtLevel(DEBUG)] else map[])
  {
    assert ParseBool(value) == SpellsTrue(TrimSpace(value)) by { FlagIff(value); }
  }

  predicate FlagKey(k: Key) {
    k == gateway || k == hostonly || k == kerberos || k == client_nosspi || k == foreground || k == quiet || k == silent
    || k == quit || k == install || k == uninstall || k == save || k == version || k == health_check || k == password
    || k == client_password || k == restart
  }

  lemma FlagKeyField(k: Key)
    requires FlagKey(k)
    ensures ReaderOf(k).AsFlag? && if k == silent then FieldOf(k) == Quiet else KeyFor(FieldOf(k)) == k
  {
    KeyForFieldOf(k);
  }

  /** "quiet" and "silent" set one flag, the other flag keys the flag named like them. */
  lemma FlagKeyWrites(k: Key, value: string, other: string -> Option<int>)
    requires value != "" && FlagKey(k)
    ensures WritesOf(k, value, other) == Some(map[FieldOf(k) := Flag(SpellsTrue(TrimSpace(value)))])
    ensures if k == silent then FieldOf(k) == Quiet else KeyFor(FieldOf(k)) == k
  {
    FlagKeyField(k);
    assert ParseBool(value) == SpellsTrue(TrimSpace(value)) by { FlagIff(value); }
  }

  /** A number is written exactly when the text is a 64-bit number; anything else is an error. */
  lemma NumberKeyWrites(k: Key, value: string, other: string -> Option<int>)
    requires value != "" && (k == port || k == workers || k == threads || k == log)
    ensures WritesOf(k, value, other)
            == if Decimals.AllDigits(Decimals.Unsigned(value)) && Decimals.InRange(Decimals.SignedValue(value))
               then Some(map[FieldOf(k) := Number(Decimals.SignedValue(value))]) else None
  {
    Decimals.AtoiIff(value);
  }

  /** Idle and reload times are whole seconds, kept in nanoseconds. */
  lemma SecondsKeyWrites(k: Key, value: string, n: nat, other: string -> Option<int>)
    requires (k == idle || k == proxyreload) && n <= Decimals.MAX64 / SECOND && value == Decimals.Itoa(n)
    ensures WritesOf(k, value, other) == Some(map[FieldOf(k) := Number(n * SECOND)])
  {
    Decimals.AtoiInvertsItoa(n);
    assert Wrap64(n * SECOND) == n * SECOND;
  }

  lemma LevelKeyWrites(value: string, l: Level, other: string -> Option<int>)
    requires value != "" && SpellsLevel(TrimSpace(value), l)
    ensures WritesOf(log_level, value, other) == Some(map[LogLevel := AtLevel(l)])
  {
    LevelIff(value, l);
  }

  /** Servers may be given under either name; the value is split at its commas. */
  lemma ServerKeyWrites(k: Key, value: string, other: string -> Option<int>)
    requires value != "" && (k == server || k == proxy)
    ensures WritesOf(k, value, other) == Some(map[Server := Items(Lists.SplitList(value))])
  {}

  lemma TestKeyWrites(value: string, other: string -> Option<int>)
    requires value != ""
    ensures WritesOf(test, value, other) == Some(map[TestURL := String(if SpellsTrue(TrimSpace(value)) then "all" else value)])
  {
    assert ParseBool(value) == SpellsTrue(TrimSpace(value)) by { FlagIff(value); }
  }

  /** An empty value clears ten of the fields and leaves all others alone. */
  lemma EmptyValueWrites(k: Key, other: string -> Option<int>)
    ensures WritesOf(k, "", other)
            == Some(match k
                    case listen => map[Listen := Items([])]
                    case server => map[Server := Items([])]
                    case noproxy => map[NoProxy := String("")]
                    case allow => map[Allow := String("")]
                    case useragent => map[UserAgent := String("")]
                    case username => map[Username := String("")]
                    case client_username => map[ClientUsername := String("")]
                    case auth => map[Auth := String("")]
                    case client_auth => map[ClientAuth := String("")]
                    case pac => map[PAC := String("")]
                    case _ => map[])
  {
    TrimmedFixed("");
  }

  /** A text is written as it is. */
  lemma TextKeyWrites(k: Key, value: string, other: string -> Option<int>)
    requires value != ""
    requires k == pac || k == pac_encoding || k == allow || k == noproxy || k == useragent || k == username || k == auth
          || k == client_username || k == client_auth || k == log_file || k == config
    ensures WritesOf(k, value, other) == Some(map[FieldOf(k) := String(value)]) && KeyFor(FieldOf(k)) == k
  {
    KeyForFieldOf(k);
  }

  lemma ListenKeyWrites(value: string, other: string -> Option<int>)
    requires value != ""
    ensures WritesOf(listen, value, other) == Some(map[Listen := Items(Lists.SplitList(value))])
  {}
}
