/** shExpMatch of internal/pac/pacutils.go: a shell glob is rewritten into a regular expression by three
    textual replacements and matched against the whole URL. */
module ShellGlob {
  import opened Basics

  // ---------------------------------------------------------------- the program

  /** pattern.replace(/c/g, with) for a single character. */
  function ReplaceChar(s: string, c: char, with: string): string {
    if s == "" then "" else (if s[0] == c then with else [s[0]]) + ReplaceChar(s[1..], c, with)
  }

  function Translate(pattern: string): string {
    ReplaceChar(ReplaceChar(ReplaceChar(pattern, '.', "\\."), '*', ".*"), '?', ".")
  }

  /** None when the expression is outside the part of the syntax modelled by `Parse`. */
  function ShExpMatch(url: string, pattern: string): Option<bool> {
    match Parse(Translate(pattern))
    case None => None
    case Some(pieces) => Some(Match(pieces, url))
  }

  // ---------------------------------------------------------------- regular expressions

  datatype Item = Lit(c: char) | Any

  datatype Quantifier = One | Star | Plus | Opt

  datatype Piece = Piece(item: Item, quant: Quantifier)

  predicate IsMeta(c: char) { c in "^$\\.*+?()[]{}|" }

  predicate IsLineTerminator(c: char) { c in "\n\r\U{2028}\U{2029}" }

  /** The item a regular expression starts with, and the rest of the expression. */
  function ParseItem(re: string): (r: Option<(Item, string)>)
    ensures r.Some? ==> |r.value.1| < |re|
  {
    if re == "" then None
    else if re[0] == '.' then Some((Any, re[1..]))
    else if re[0] == '\\' then (if |re| >= 2 && IsMeta(re[1]) then Some((Lit(re[1]), re[2..])) else None)
    else if IsMeta(re[0]) then None
    else Some((Lit(re[0]), re[1..]))
  }

  function ParseQuantifier(re: string): (r: (Quantifier, string))
    ensures |r.1| <= |re|
  {
    if re == "" then (One, re)
    else match re[0]
      case '*' => (Star, re[1..])
      case '+' => (Plus, re[1..])
      case '?' => (Opt, re[1..])
      case _ => (One, re)
  }

  /** Sequences of characters, escaped metacharacters and dots, each with an optional quantifier. */
  function Parse(re: string): Option<seq<Piece>>
    decreases |re|
  {
    if re == "" then Some([])
    else
      match ParseItem(re)
      case None => None
      case Some((item, rest)) =>
        var (quant, rest') := ParseQuantifier(rest);
        match Parse(rest')
        case None => None
        case Some(pieces) => Some([Piece(item, quant)] + pieces)
  }

  predicate Accepts(item: Item, c: char) {
    match item
    case Lit(l) => c == l
    case Any => !IsLineTerminator(c)
  }

  /** Whether the whole of `s` matches, as "^" + re + "$" demands. */
  predicate Match(pieces: seq<Piece>, s: string)
    decreases |s|, |pieces|
  {
    if pieces == [] then s == ""
    else
      var Piece(item, quant) := pieces[0];
      var rest := pieces[1..];
      var first := s != "" && Accepts(item, s[0]);
      match quant
      case One => first && Match(rest, s[1..])
      case Opt => Match(rest, s) || (first && Match(rest, s[1..]))
      case Star => Match(rest, s) || (first && Match(pieces, s[1..]))
      case Plus => first && (Match(rest, s[1..]) || Match(pieces, s[1..]))
  }

  // ---------------------------------------------------------------- the meaning of a glob

  /** `*` stands for any run of characters and `?` for any one, among those that `wild` admits. */
  predicate Glob(pattern: string, s: string, wild: char -> bool)
    decreases |s|, |pattern|
  {
    if pattern == "" then s == ""
    else if pattern[0] == '*' then
      Glob(pattern[1..], s, wild) || (s != "" && wild(s[0]) && Glob(pattern, s[1..], wild))
    else
      && s != ""
      && (if pattern[0] == '?' then wild(s[0]) else s[0] == pattern[0])
      && Glob(pattern[1..], s[1..], wild)
  }

  predicate GlobMatch(pattern: string, s: string) { Glob(pattern, s, (c: char) => true) }

  /** The only regular-expression metacharacters of the pattern are '.', '*' and '?'. */
  predicate Plain(pattern: string) {
    forall c :: c in pattern ==> IsMeta(c) ==> c == '.' || c == '*' || c == '?'
  }

  // ---------------------------------------------------------------- three passes are one

  function Token(c: char): string {
    if c == '.' then "\\." else if c == '*' then ".*" else if c == '?' then "." else [c]
  }

  function OnePass(pattern: string): string {
    if pattern == "" then "" else Token(pattern[0]) + OnePass(pattern[1..])
  }

  lemma {:induction false} ReplaceConcat(a: string, b: string, c: char, with: string)
    ensures ReplaceChar(a + b, c, with) == ReplaceChar(a, c, with) + ReplaceChar(b, c, with)
  {
    if a == "" {
      assert a + b == b;
    } else {
      assert (a + b)[1..] == a[1..] + b;
      ReplaceConcat(a[1..], b, c, with);
    }
  }

  lemma ReplaceOne(d: char, c: char, with: string)
    ensures ReplaceChar([d], c, with) == if d == c then with else [d]
  {
    assert ReplaceChar([d], c, with) == (if d == c then with else [d]) + ReplaceChar("", c, with);
  }

  lemma ReplaceTwo(d: char, e: char, c: char, with: string)
    requires d != c && e != c
    ensures ReplaceChar([d, e], c, with) == [d, e]
  {
    assert [d, e] == [d] + [e];
    ReplaceConcat([d], [e], c, with);
    ReplaceOne(d, c, with);
    ReplaceOne(e, c, with);
  }

  /** The three sequential rewrites act on each character of the pattern on its own. */
  lemma {:induction false} ThreePassesAreOne(pattern: string)
    ensures Translate(pattern) == OnePass(pattern)
  {
    if pattern != "" {
      var c, rest := pattern[0], pattern[1..];
      assert pattern == [c] + rest;
      ReplaceConcat([c], rest, '.', "\\.");
      ReplaceOne(c, '.', "\\.");
      var head1 := if c == '.' then "\\." else [c];
      ReplaceConcat(head1, ReplaceChar(rest, '.', "\\."), '*', ".*");
      ReplaceOne(c, '*', ".*");
      ReplaceTwo('\\', '.', '*', ".*");
      var head2 := if c == '.' then "\\." else if c == '*' then ".*" else [c];
      ReplaceConcat(head2, ReplaceChar(ReplaceChar(rest, '.', "\\."), '*', ".*"), '?', ".");
      ReplaceOne(c, '?', ".");
      ReplaceTwo('\\', '.', '?', ".");
      ReplaceTwo('.', '*', '?', ".");
      ThreePassesAreOne(rest);
    }
  }

  // ---------------------------------------------------------------- what the translation parses to

  function PieceOf(c: char): Piece {
    if c == '*' then Piece(Any, Star) else if c == '?' then Piece(Any, One) else Piece(Lit(c), One)
  }

  function Pieces(pattern: string): seq<Piece> {
    if pattern == "" then [] else [PieceOf(pattern[0])] + Pieces(pattern[1..])
  }

  lemma NoLeadingQuantifier(pattern: string)
    requires Plain(pattern)
    ensures ParseQuantifier(OnePass(pattern)) == (One, OnePass(pattern))
  {
    if pattern != "" { assert pattern[0] in pattern; }
  }

  lemma {:induction false} TranslationParses(pattern: string)
    requires Plain(pattern)
    ensures Parse(OnePass(pattern)) == Some(Pieces(pattern))
  {
    if pattern != "" {
      var c, rest := pattern[0], pattern[1..];
      assert c in pattern;
      assert Plain(rest);
      TranslationParses(rest);
      NoLeadingQuantifier(rest);
      var re, tail := OnePass(pattern), OnePass(rest);
      assert re == Token(c) + tail;
      if c == '.' {
        assert re[2..] == tail;
      } else if c == '*' {
        assert re[1..] == ['*'] + tail && re[1..][1..] == tail;
      } else {
        assert re[1..] == tail;
      }
    }
  }

  // ---------------------------------------------------------------- meaning

  lemma {:induction false} PiecesMeanGlob(pattern: string, s: string)
    ensures Match(Pieces(pattern), s) == Glob(pattern, s, (c: char) => !IsLineTerminator(c))
    decreases |s|, |pattern|
  {
    if pattern != "" {
      assert Pieces(pattern)[1..] == Pieces(pattern[1..]);
      if pattern[0] == '*' { PiecesMeanGlob(pattern[1..], s); }
      if s != "" {
        if pattern[0] == '*' { PiecesMeanGlob(pattern, s[1..]); } else { PiecesMeanGlob(pattern[1..], s[1..]); }
      }
    }
  }

  /** For every pattern whose only metacharacters are '.', '*' and '?', and every URL, the expression
      accepts exactly what the glob matches with wildcards that stop at line terminators. */
  lemma TranslationPreservesMeaning(url: string, pattern: string)
    requires Plain(pattern)
    ensures ShExpMatch(url, pattern) == Some(Glob(pattern, url, (c: char) => !IsLineTerminator(c)))
  {
    ThreePassesAreOne(pattern);
    TranslationParses(pattern);
    PiecesMeanGlob(pattern, url);
  }

  lemma {:induction false} WildAgrees(pattern: string, s: string, w: char -> bool, v: char -> bool)
    requires forall c :: c in s ==> w(c) == v(c)
    ensures Glob(pattern, s, w) == Glob(pattern, s, v)
    decreases |s|, |pattern|
  {
    if pattern != "" {
      if pattern[0] == '*' { WildAgrees(pattern[1..], s, w, v); }
      if s != "" {
        assert s[0] in s;
        if pattern[0] == '*' { WildAgrees(pattern, s[1..], w, v); } else { WildAgrees(pattern[1..], s[1..], w, v); }
      }
    }
  }

  /** So on URLs without line terminators it is the glob itself. */
  lemma TranslationIsGlobMatch(url: string, pattern: string)
    requires Plain(pattern) && forall c :: c in url ==> !IsLineTerminator(c)
    ensures ShExpMatch(url, pattern) == Some(GlobMatch(pattern, url))
  {
    TranslationPreservesMeaning(url, pattern);
    WildAgrees(pattern, url, (c: char) => !IsLineTerminator(c), (c: char) => true);
  }

  /** Both conditions matter. */
  lemma LineTerminatorBreaksGlob()
    ensures ShExpMatch("\n", "*") == Some(false) && GlobMatch("*", "\n")
  {
    TranslationPreservesMeaning("\n", "*");
    var w, v := (c: char) => !IsLineTerminator(c), (c: char) => true;
    assert "*"[1..] == "" && "\n"[1..] == "";
    assert !Glob("", "\n", w);
    assert !Glob("*", "\n", w);
    assert Glob("", "", v) && Glob("*", "", v);
    assert Glob("*", "\n", v);
  }

  lemma MetacharacterBreaksGlob()
    ensures ShExpMatch("a+", "a+") == Some(false) && GlobMatch("a+", "a+")
  {
    ThreePassesAreOne("a+");
    assert "a+"[1..] == "+" && "+"[1..] == "";
    assert OnePass("+") == "+" && OnePass("a+") == "a+";
    assert ParseItem("a+") == Some((Lit('a'), "+")) && ParseQuantifier("+") == (Plus, "");
    var ps := [Piece(Lit('a'), Plus)];
    assert Parse("") == Some([]) && ps + [] == ps;
    assert Parse("a+") == Some(ps);
    assert ps[1..] == [] && !Match([], "+") && !Match(ps, "+");
    assert !Match(ps, "a+");
    assert Glob("+", "+", (c: char) => true) && Glob("", "", (c: char) => true);
  }
}
