/** What normalize of internal/config/config.go makes of a configuration that is not normal yet. */
module ConfigNormal {
  import opened Basics
  import opened Text
  import opened Config
  import opened ConfigRoundTrip
  import Lists

  // ---------------------------------------------------------------- authentication names

  lemma UpperOfTrimmed(raw: string)
    ensures var a := ToUpper(TrimSpace(raw)); Trimmed(a) && ToUpper(a) == a && TrimSpace(a) == a
  {
    TrimSpaceTrims(raw);
    ToUpperKeeps(TrimSpace(raw));
    TrimmedFixed(ToUpper(TrimSpace(raw)));
  }

  /** A blank name becomes the default; any other keeps its letters, in upper case and without the blanks around it. */
  lemma AuthMeans(raw: string, fallback: string)
    requires fallback != "" && Trimmed(fallback) && ToUpper(fallback) == fallback
    ensures var a := AuthOr(raw, fallback);
            && a != "" && Trimmed(a) && ToUpper(a) == a && AuthOr(a, fallback) == a
            && if TrimSpace(raw) == "" then a == fallback else EqualFold(a, TrimSpace(raw))
  {
    UpperOfTrimmed(raw);
    ToUpperKeeps(TrimSpace(raw));
    TrimmedFixed(fallback);
    assert |ToUpper(TrimSpace(raw))| == |TrimSpace(raw)|;
  }

  /** A name given in any letter case and with blanks around it is the name. */
  lemma AuthSpelt(lead: string, word: string, trail: string, name: string, fallback: string)
    requires AllSpace(lead) && AllSpace(trail) && Trimmed(word) && word != "" && IsLower(name) && Spells(word, name)
    ensures AuthOr(lead + word + trail, fallback) == ToUpper(name)
  {
    TrimPads(lead, word, trail);
    EqualFoldIff(word, name);
    assert |ToUpper(word)| == |word|;
  }

  // ---------------------------------------------------------------- lists

  /** Without a gateway the addresses to listen on are the given ones, or the local one when none is given. */
  lemma ListenMeans(items: seq<string>)
    ensures ListenOr(items) == (if forall i :: 0 <= i < |items| ==> TrimSpace(items[i]) == "" then ["127.0.0.1"] else Lists.Normalized(items))
  {
    Lists.NormalizedMeans(items);
    var l := Lists.Normalized(items);
    assert l != [] ==> l[0] in l;
    if i :| 0 <= i < |items| && TrimSpace(items[i]) != "" {
      assert Lists.Mentioned(items, TrimSpace(items[i]));
      assert TrimSpace(items[i]) in l;
    } else {
      assert forall s :: Lists.Mentioned(items, s) ==> s == "";
    }
  }

  lemma ListenFixed(items: seq<string>)
    ensures ListenOr(ListenOr(items)) == ListenOr(items)
  {
    Lists.NormalizedIsNormal(items);
    LocalhostListed(["127.0.0.1"]);
    if Lists.Normalized(items) != [] { Lists.NormalIsFixed(Lists.Normalized(items)); }
  }

  lemma LocalhostListed(l: seq<string>)
    requires l == ["127.0.0.1"]
    ensures ListenOr(l) == l
  {
    TrimmedFixed("127.0.0.1");
    Lists.NormalIsFixed(l);
  }

  // ---------------------------------------------------------------- the PAC path

  /** The prefixes of a URL, in any letter case. */
  predicate SpellsURL(path: string) {
    || (7 <= |path| && (Spells(path[..7], "http://") || Spells(path[..7], "file://")))
    || (8 <= |path| && Spells(path[..8], "https://"))
  }

  lemma PrefixIff(path: string, prefix: string)
    requires IsLower(prefix)
    ensures prefix <= ToLower(path) <==> |prefix| <= |path| && Spells(path[..|prefix|], prefix)
  {
    if |prefix| <= |path| {
      ToLowerIff(path[..|prefix|], prefix);
      assert ToLower(path)[..|prefix|] == ToLower(path[..|prefix|]);
    }
  }

  lemma URLIff(path: string)
    ensures IsURL(path) <==> SpellsURL(path)
  {
    PrefixIff(path, "http://");
    PrefixIff(path, "https://");
    PrefixIff(path, "file://");
  }

  /** A PAC location is trimmed; nothing, a URL or an absolute path is kept, a relative path is joined to the base. */
  lemma PACMeans(raw: string, paths: Paths)
    ensures var path := TrimSpace(raw);
            ResolvePAC(raw, paths) == if path == "" || SpellsURL(path) || paths.isAbs(path) then path else paths.join(path)
  {
    URLIff(TrimSpace(raw));
  }

  /** Joining gives an absolute path without blanks around it. */
  ghost predicate Joins(paths: Paths) {
    forall p: string :: paths.join(p) != "" && Trimmed(paths.join(p)) && paths.isAbs(paths.join(p))
  }

  lemma PACFixed(raw: string, paths: Paths)
    requires Joins(paths)
    ensures ResolvePAC(ResolvePAC(raw, paths), paths) == ResolvePAC(raw, paths)
  {
    TrimSpaceTrims(raw);
    TrimmedFixed(TrimSpace(raw));
    TrimmedFixed(paths.join(TrimSpace(raw)));
  }

  // ---------------------------------------------------------------- all fields

  lemma ServersTwice(c: Fields, n: Fields, paths: Paths)
    requires Typed(c) && Typed(n) && n[Server] == NormalValue(c, Server, paths)
    ensures NormalValue(n, Server, paths) == n[Server]
  {
    Lists.NormalizedIsNormal(c[Server].items);
    Lists.NormalIsFixed(Lists.Normalized(c[Server].items));
  }

  lemma ListenTwice(c: Fields, n: Fields, paths: Paths)
    requires Typed(c) && Typed(n) && n[Listen] == NormalValue(c, Listen, paths)
    requires n[Gateway] == c[Gateway] && n[HostOnly] == c[HostOnly]
    ensures NormalValue(n, Listen, paths) == n[Listen]
  {
    ListenFixed(c[Listen].items);
  }

  lemma AuthTwice(c: Fields, n: Fields, paths: Paths)
    requires Typed(c) && Typed(n) && n[Auth] == NormalValue(c, Auth, paths) && n[ClientAuth] == NormalValue(c, ClientAuth, paths)
    ensures NormalValue(n, Auth, paths) == n[Auth] && NormalValue(n, ClientAuth, paths) == n[ClientAuth]
  {
    DefaultNames();
    AuthMeans(c[Auth].text, "ANY");
    AuthMeans(c[ClientAuth].text, "NONE");
  }

  lemma PACTwice(c: Fields, n: Fields, paths: Paths)
    requires Typed(c) && Typed(n) && n[PAC] == NormalValue(c, PAC, paths) && Joins(paths)
    ensures NormalValue(n, PAC, paths) == n[PAC]
  {
    PACFixed(c[PAC].text, paths);
  }

  lemma OthersTwice(n: Fields, f: Field, paths: Paths)
    requires Typed(n) && f != Server && f != Listen && f != Auth && f != ClientAuth && f != PAC
    ensures NormalValue(n, f, paths) == n[f]
  {}

  lemma NormalTwice(c: Fields, n: Fields, paths: Paths, f: Field)
    requires Typed(c) && Typed(n) && Joins(paths) && forall g :: n[g] == NormalValue(c, g, paths)
    ensures NormalValue(n, f, paths) == n[f]
  {
    if f == Server { ServersTwice(c, n, paths); }
    else if f == Listen { ListenTwice(c, n, paths); }
    else if f == Auth || f == ClientAuth { AuthTwice(c, n, paths); }
    else if f == PAC { PACTwice(c, n, paths); }
    else { OthersTwice(n, f, paths); }
  }

  lemma DefaultNames()
    ensures Trimmed("ANY") && ToUpper("ANY") == "ANY" && Trimmed("NONE") && ToUpper("NONE") == "NONE"
  {}

  /** Normalising a second time changes nothing. */
  lemma NormalizeIdempotent(c: Fields, n: Fields, paths: Paths)
    requires Typed(c) && Typed(n) && n == Normalize(c, paths) && Joins(paths)
    ensures Normalize(n, paths) == n
  {
    assert forall g :: n[g] == NormalValue(c, g, paths);
    forall f ensures NormalValue(n, f, paths) == n[f] { NormalTwice(c, n, paths, f); }
  }
}
