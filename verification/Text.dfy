/** The string operations of the Go standard library that the program uses. Letter case is folded for
    ASCII letters only. */
module Text {

  predicate IsSpace(c: char) {
    c in "\t\n\U{B}\U{C}\r \U{85}\U{A0}\U{1680}\U{2028}\U{2029}\U{202F}\U{205F}\U{3000}" || '\U{2000}' <= c <= '\U{200A}'
  }

  function TrimLeft(s: string): (t: string)
    ensures |t| <= |s|
  {
    if s != "" && IsSpace(s[0]) then TrimLeft(s[1..]) else s
  }

  function TrimRight(s: string): (t: string)
    ensures |t| <= |s|
  {
    if s != "" && IsSpace(s[|s| - 1]) then TrimRight(s[..|s| - 1]) else s
  }

  /** strings.TrimSpace */
  function TrimSpace(s: string): string { TrimRight(TrimLeft(s)) }

  function UpperChar(c: char): char {
    if 'a' <= c <= 'z' then (c as int - 32) as char else c
  }

  /** strings.ToUpper */
  function ToUpper(s: string): (u: string)
    ensures |u| == |s|
  {
    seq(|s|, i requires 0 <= i < |s| => UpperChar(s[i]))
  }

  function LowerChar(c: char): char { if 'A' <= c <= 'Z' then (c as int + 32) as char else c }

  /** strings.ToLower */
  function ToLower(s: string): (l: string)
    ensures |l| == |s|
  {
    seq(|s|, i requires 0 <= i < |s| => LowerChar(s[i]))
  }

  /** strings.EqualFold */
  predicate EqualFold(a: string, b: string) { ToUpper(a) == ToUpper(b) }

  /** The position of the first `c`, or the length of the string. */
  function Find(s: string, c: char): (i: nat)
    ensures i <= |s| && (i < |s| ==> s[i] == c) && forall j :: 0 <= j < i ==> s[j] != c
  {
    if s == "" || s[0] == c then 0 else 1 + Find(s[1..], c)
  }

  /** strings.Split on one character. */
  function Split(s: string, sep: char): (parts: seq<string>)
    ensures parts != []
    decreases |s|
  {
    var i := Find(s, sep);
    if i == |s| then [s] else [s[..i]] + Split(s[i + 1..], sep)
  }

  /** strings.Join with one character. */
  function Join(parts: seq<string>, sep: char): string {
    if parts == [] then ""
    else if |parts| == 1 then parts[0]
    else parts[0] + [sep] + Join(parts[1..], sep)
  }

  /** Neither end is white space, so trimming changes nothing. */
  predicate Trimmed(s: string) {
    s != "" ==> !IsSpace(s[0]) && !IsSpace(s[|s| - 1])
  }

  lemma TrimmedFixed(s: string)
    requires Trimmed(s)
    ensures TrimSpace(s) == s
  {}

  lemma {:induction false} TrimLeftSuffix(s: string)
    ensures TrimLeft(s) == s[|s| - |TrimLeft(s)|..] && (TrimLeft(s) != "" ==> !IsSpace(TrimLeft(s)[0]))
  {
    if s != "" && IsSpace(s[0]) { TrimLeftSuffix(s[1..]); }
  }

  lemma {:induction false} TrimRightPrefix(s: string)
    ensures TrimRight(s) == s[..|TrimRight(s)|] && (TrimRight(s) != "" ==> !IsSpace(TrimRight(s)[|TrimRight(s)| - 1]))
  {
    if s != "" && IsSpace(s[|s| - 1]) {
      TrimRightPrefix(s[..|s| - 1]);
      assert s[..|s| - 1][..|TrimRight(s)|] == s[..|TrimRight(s)|];
    }
  }

  /** What is left after trimming is trimmed and made of characters of the original. */
  lemma TrimSpaceTrims(s: string)
    ensures Trimmed(TrimSpace(s))
    ensures forall c :: c in TrimSpace(s) ==> c in s
  {
    TrimLeftSuffix(s);
    TrimRightPrefix(TrimLeft(s));
    var t, u := TrimLeft(s), TrimSpace(s);
    assert u == t[..|u|] && t == s[|s| - |t|..];
    forall c | c in u ensures c in s {
      var i :| 0 <= i < |u| && u[i] == c;
      assert u[i] == t[i] && t[i] == s[|s| - |t| + i];
    }
  }

  lemma TrimTrailingSpace(word: string, c: char)
    requires word != "" && Trimmed(word) && IsSpace(c)
    ensures TrimSpace(word + [c]) == word
  {
    var s := word + [c];
    assert s[..|s| - 1] == word;
    assert !IsSpace(s[0]) && TrimLeft(s) == s;
    assert TrimRight(s) == TrimRight(word) == word;
  }

  lemma {:induction false} TrimLeadingSpaces(pad: string, s: string)
    requires forall c :: c in pad ==> IsSpace(c)
    ensures TrimLeft(pad + s) == TrimLeft(s)
  {
    if pad == "" {
      assert pad + s == s;
    } else {
      assert pad[0] in pad;
      assert (pad + s)[1..] == pad[1..] + s;
      TrimLeadingSpaces(pad[1..], s);
    }
  }

  // ---------------------------------------------------------------- splitting and joining

  lemma FindIn(a: string, b: string, c: char)
    requires c !in a
    ensures Find(a + [c] + b, c) == |a|
    ensures Find(a, c) == |a|
  {
    assert (a + [c] + b)[|a|] == c;
    assert forall j :: 0 <= j < |a| ==> (a + [c] + b)[j] == a[j];
  }

  lemma SplitHead(a: string, b: string, sep: char)
    requires sep !in a
    ensures Split(a + [sep] + b, sep) == [a] + Split(b, sep)
    ensures Split(a, sep) == [a]
  {
    FindIn(a, b, sep);
    var s := a + [sep] + b;
    assert s[..|a|] == a && s[|a| + 1..] == b;
  }

  /** Splitting undoes joining when no part contains the separator. */
  lemma {:induction false} SplitJoin(parts: seq<string>, sep: char)
    requires parts != [] && forall p :: p in parts ==> sep !in p
    ensures Split(Join(parts, sep), sep) == parts
  {
    assert parts[0] in parts;
    if |parts| == 1 {
      SplitHead(parts[0], "", sep);
    } else {
      SplitJoin(parts[1..], sep);
      SplitHead(parts[0], Join(parts[1..], sep), sep);
    }
  }

  // ---------------------------------------------------------------- lists of words

  function WithNonEmpty(out: seq<string>, part: string): seq<string> {
    if part == "" then out else out + [part]
  }

  /** The parts, trimmed, without the empty ones. */
  function Clean(parts: seq<string>): seq<string> {
    if parts == [] then []
    else WithNonEmpty([], TrimSpace(parts[0])) + Clean(parts[1..])
  }

  lemma {:induction false} CleanSnoc(parts: seq<string>, p: string)
    ensures Clean(parts + [p]) == WithNonEmpty(Clean(parts), TrimSpace(p))
  {
    if parts == [] {
      assert [p][1..] == [] && parts + [p] == [p];
    } else {
      assert (parts + [p])[1..] == parts[1..] + [p];
      CleanSnoc(parts[1..], p);
    }
  }

  lemma CleanStep(parts: seq<string>, i: nat)
    requires i < |parts|
    ensures Clean(parts[..i + 1]) == WithNonEmpty(Clean(parts[..i]), TrimSpace(parts[i]))
  {
    assert parts[..i + 1] == parts[..i] + [parts[i]];
    CleanSnoc(parts[..i], parts[i]);
  }

  lemma CleanCons(p: string, rest: seq<string>, t: string)
    requires TrimSpace(p) == t != ""
    ensures Clean([p] + rest) == [t] + Clean(rest)
  {}

  /** Splitting leaves no separator in the parts. */
  lemma {:induction false} SplitHasNoSeparator(s: string, sep: char, i: nat)
    requires i < |Split(s, sep)|
    ensures sep !in Split(s, sep)[i]
    decreases |s|
  {
    var n := Find(s, sep);
    if n < |s| && i > 0 { SplitHasNoSeparator(s[n + 1..], sep, i - 1); }
  }

  lemma {:induction false} CleanItems(parts: seq<string>, sep: char)
    requires forall i :: 0 <= i < |parts| ==> sep !in parts[i]
    ensures forall i :: 0 <= i < |Clean(parts)| ==> Clean(parts)[i] != "" && Trimmed(Clean(parts)[i]) && sep !in Clean(parts)[i]
  {
    if parts != [] {
      TrimSpaceTrims(parts[0]);
      CleanItems(parts[1..], sep);
    }
  }

  lemma {:induction false} CleanFixed(parts: seq<string>)
    requires forall i :: 0 <= i < |parts| ==> parts[i] != "" && Trimmed(parts[i])
    ensures Clean(parts) == parts
  {
    if parts != [] {
      TrimmedFixed(parts[0]);
      CleanFixed(parts[1..]);
      assert parts == [parts[0]] + parts[1..];
    }
  }

  // ---------------------------------------------------------------- letter case and padding

  /** `s` is the lower-case text `t` in any mixture of letter case. */
  predicate Spells(s: string, t: string) {
    |s| == |t| && forall i :: 0 <= i < |s| ==> s[i] == t[i] || ('a' <= t[i] <= 'z' && s[i] as int == t[i] as int - 32)
  }

  predicate IsLower(t: string) { forall i :: 0 <= i < |t| ==> !('A' <= t[i] <= 'Z') }

  /** Folding to lower case recognises exactly the spellings of a lower-case text. */
  lemma ToLowerIff(s: string, t: string)
    requires IsLower(t)
    ensures ToLower(s) == t <==> Spells(s, t)
  {
    if Spells(s, t) {
      assert forall i :: 0 <= i < |s| ==> ToLower(s)[i] == t[i];
    }
    if ToLower(s) == t {
      forall i | 0 <= i < |s| ensures s[i] == t[i] || ('a' <= t[i] <= 'z' && s[i] as int == t[i] as int - 32) {
        assert ToLower(s)[i] == LowerChar(s[i]);
      }
    }
  }

  /** So does folding to upper case, and comparing without regard to case. */
  lemma EqualFoldIff(s: string, t: string)
    requires IsLower(t)
    ensures EqualFold(s, t) <==> Spells(s, t)
  {
    if Spells(s, t) {
      assert forall i :: 0 <= i < |s| ==> ToUpper(s)[i] == ToUpper(t)[i];
    }
    if EqualFold(s, t) {
      assert |ToUpper(s)| == |s| == |t|;
      forall i | 0 <= i < |s| ensures s[i] == t[i] || ('a' <= t[i] <= 'z' && s[i] as int == t[i] as int - 32) {
        assert ToUpper(s)[i] == UpperChar(s[i]) == ToUpper(t)[i] == UpperChar(t[i]);
      }
    }
  }

  /** Folding to upper case keeps what kind of white space a character is, and folding again changes nothing. */
  lemma ToUpperKeeps(s: string)
    ensures ToUpper(ToUpper(s)) == ToUpper(s)
    ensures Trimmed(s) ==> Trimmed(ToUpper(s))
  {
    forall i | 0 <= i < |s| ensures UpperChar(UpperChar(s[i])) == UpperChar(s[i]) && (IsSpace(UpperChar(s[i])) ==> IsSpace(s[i])) {
      UpperIsNoSpace(s[i]);
    }
  }

  lemma UpperIsNoSpace(c: char)
    ensures IsSpace(UpperChar(c)) ==> IsSpace(c)
  {
    if 'a' <= c <= 'z' { LetterIsNoSpace(UpperChar(c)); }
  }

  lemma LetterIsNoSpace(c: char)
    requires 'A' <= c <= 'Z'
    ensures !IsSpace(c)
  {}

  predicate AllSpace(s: string) { forall i :: 0 <= i < |s| ==> IsSpace(s[i]) }

  lemma TrimRightSnoc(s: string, c: char)
    requires IsSpace(c)
    ensures TrimRight(s + [c]) == TrimRight(s)
  {
    var x := s + [c];
    assert x[|x| - 1] == c && x[..|x| - 1] == s;
  }

  lemma {:induction false} TrimRightPad(s: string, trail: string)
    requires AllSpace(trail) && Trimmed(s)
    ensures TrimRight(s + trail) == s
  {
    if trail == "" {
      assert s + trail == s;
    } else {
      var n := |trail| - 1;
      assert s + trail == (s + trail[..n]) + [trail[n]];
      TrimRightSnoc(s + trail[..n], trail[n]);
      TrimRightPad(s, trail[..n]);
    }
  }

  /** Trimming takes away exactly the white space around a word. */
  lemma TrimPads(lead: string, word: string, trail: string)
    requires AllSpace(lead) && AllSpace(trail) && Trimmed(word)
    ensures TrimSpace(lead + word + trail) == word
  {
    assert lead + word + trail == lead + (word + trail);
    TrimLeadingSpaces(lead, word + trail);
    if word != "" {
      assert (word + trail)[0] == word[0];
      assert TrimLeft(word + trail) == word + trail;
      TrimRightPad(word, trail);
    } else {
      assert word + trail == trail + "";
      TrimLeadingSpaces(trail, "");
    }
  }
}
