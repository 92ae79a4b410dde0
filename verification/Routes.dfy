/** From a PAC script's answer to a route: normalizeProxyResult of internal/pac/pac.go, parsePACResult and
    resolveRoute of internal/proxy/handler.go. */
module Routes {
  import opened Text

  // ---------------------------------------------------------------- replacing

  /** strings.ReplaceAll */
  function ReplaceAll(s: string, old_: string, new_: string): string
    requires old_ != ""
    decreases |s|
  {
    if |s| < |old_| then s
    else if old_ <= s then new_ + ReplaceAll(s[|old_|..], old_, new_)
    else [s[0]] + ReplaceAll(s[1..], old_, new_)
  }

  /** The replacements of normalizeProxyResult, in its order. */
  const REWRITES: seq<(string, string)> := [
    ("PROXY ", ""), ("HTTP ", ""), ("HTTPS ", "https://"), ("SOCKS4 ", "socks4://"), ("SOCKS5 ", "socks5://"),
    ("SOCKS ", "socks5://"), (";", ",")
  ]

  /** The first `n` replacements, one after the other. */
  function Rewrite(s: string, n: nat): string
    requires n <= |REWRITES|
  {
    if n == 0 then s else ReplaceAll(Rewrite(s, n - 1), REWRITES[n - 1].0, REWRITES[n - 1].1)
  }

  function Normalized(raw: string): string {
    var result := TrimSpace(raw);
    if result == "" then "DIRECT"
    else
      var out := Clean(Split(Rewrite(result, |REWRITES|), ','));
      if out == [] then "DIRECT" else Join(out, ',')
  }

  method NormalizeProxyResult(raw: string) returns (r: string)
    ensures r == Normalized(raw)
  {
    var result := TrimSpace(raw);
    if result == "" {
      return "DIRECT";
    }
    for i := 0 to |REWRITES|
      invariant result == Rewrite(TrimSpace(raw), i)
    {
      result := ReplaceAll(result, REWRITES[i].0, REWRITES[i].1);
    }
    var parts := Split(result, ',');
    var out: seq<string> := [];
    for i := 0 to |parts|
      invariant out == Clean(parts[..i])
    {
      CleanStep(parts, i);
      var part := TrimSpace(parts[i]);
      if part != "" {
        out := out + [part];
      }
    }
    assert parts[..|parts|] == parts;
    if |out| == 0 {
      return "DIRECT";
    }
    return Join(out, ',');
  }

  // ---------------------------------------------------------------- parsing

  predicate IsSeparator(c: char) { c == ';' || c == ',' }

  /** The length of the longest start of `s` without separators. */
  function FieldLength(s: string): (n: nat)
    ensures n <= |s| && (n < |s| ==> IsSeparator(s[n])) && forall i :: 0 <= i < n ==> !IsSeparator(s[i])
  {
    if s == "" || IsSeparator(s[0]) then 0 else 1 + FieldLength(s[1..])
  }

  /** strings.FieldsFunc: the maximal runs without separators. */
  function Fields(s: string): seq<string>
    decreases |s|
  {
    var n := FieldLength(s);
    (if n > 0 then [s[..n]] else []) + if n < |s| then Fields(s[n + 1..]) else []
  }

  predicate IsDirect(part: string) { EqualFold(part, "DIRECT") }

  /** The address in one field, or "" when there is none. */
  function Address(field: string): string {
    var part := TrimSpace(field);
    if part == "" || IsDirect(part) then ""
    else
      var i := Find(part, ' ');
      if i < |part| then TrimSpace(part[i + 1..]) else part
  }

  function Addresses(fields: seq<string>): seq<string> {
    if fields == [] then []
    else WithNonEmpty([], Address(fields[0])) + Addresses(fields[1..])
  }

  function Parsed(raw: string): seq<string> { Addresses(Fields(raw)) }

  lemma {:induction false} AddressesSnoc(fields: seq<string>, f: string)
    ensures Addresses(fields + [f]) == WithNonEmpty(Addresses(fields), Address(f))
  {
    if fields == [] {
      assert [f][1..] == [] && fields + [f] == [f];
    } else {
      assert (fields + [f])[1..] == fields[1..] + [f];
      AddressesSnoc(fields[1..], f);
    }
  }

  lemma AddressesStep(fields: seq<string>, i: nat)
    requires i < |fields|
    ensures Addresses(fields[..i + 1]) == WithNonEmpty(Addresses(fields[..i]), Address(fields[i]))
  {
    assert fields[..i + 1] == fields[..i] + [fields[i]];
    AddressesSnoc(fields[..i], fields[i]);
  }

  method ParsePACResult(raw: string) returns (out: seq<string>)
    ensures out == Parsed(raw)
  {
    var parts := Fields(raw);
    out := [];
    for i := 0 to |parts|
      invariant out == Addresses(parts[..i])
    {
      AddressesStep(parts, i);
      var part := AddressIn(parts[i]);
      if part != "" {
        out := out + [part];
      }
    }
    assert parts[..|parts|] == parts;
  }

  /** The body of the loop: the part without its kind, "" for a part to skip. */
  method AddressIn(field: string) returns (part: string)
    ensures part == Address(field)
  {
    part := TrimSpace(field);
    if part == "" || IsDirect(part) {
      return "";
    }
    var idx := Find(part, ' ');
    if idx < |part| {
      part := TrimSpace(part[idx + 1..]);
    }
  }

  // ---------------------------------------------------------------- entries of a PAC answer

  datatype Kind = PROXY | HTTP | HTTPS | SOCKS | SOCKS4 | SOCKS5

  datatype Entry = Direct | Via(kind: Kind, host: string)

  function KindText(k: Kind): string {
    match k
    case PROXY => "PROXY" case HTTP => "HTTP" case HTTPS => "HTTPS" case SOCKS => "SOCKS" case SOCKS4 => "SOCKS4" case SOCKS5 => "SOCKS5"
  }

  function SchemePrefix(k: Kind): string {
    match k
    case PROXY => "" case HTTP => "" case HTTPS => "https://" case SOCKS4 => "socks4://" case _ => "socks5://"
  }

  /** How a script writes an entry. */
  function Print(e: Entry): string {
    match e
    case Direct => "DIRECT"
    case Via(k, h) => KindText(k) + " " + h
  }

  /** What normalising makes of it. */
  function Target(e: Entry): string {
    match e
    case Direct => "DIRECT"
    case Via(k, h) => SchemePrefix(k) + h
  }

  predicate HostOk(h: string) {
    h != "" && forall c :: c in h ==> !IsSpace(c) && !IsSeparator(c)
  }

  predicate EntryOk(e: Entry) { e.Via? ==> HostOk(e.host) }

  function PrintAll(es: seq<Entry>): string {
    if es == [] then ""
    else if |es| == 1 then Print(es[0])
    else Print(es[0]) + "; " + PrintAll(es[1..])
  }

  /** The addresses to try, in order. An entry such as "PROXY direct" reads like "DIRECT" once its kind is gone. */
  function Targets(es: seq<Entry>): seq<string> {
    if es == [] then []
    else (if IsDirect(Target(es[0])) then [] else [Target(es[0])]) + Targets(es[1..])
  }

  // ---------------------------------------------------------------- a replacement on one entry

  lemma ReplaceHere(s: string, old_: string, new_: string)
    requires old_ != "" && old_ <= s
    ensures ReplaceAll(s, old_, new_) == new_ + ReplaceAll(s[|old_|..], old_, new_)
  {}

  lemma ReplaceLater(s: string, old_: string, new_: string)
    requires old_ != "" && s != "" && !(old_ <= s)
    ensures ReplaceAll(s, old_, new_) == [s[0]] + ReplaceAll(s[1..], old_, new_)
  {
    assert [s[0]] + s[1..] == s;
  }

  lemma {:induction false} ReplaceNothing(s: string, old_: string, new_: string)
    requires old_ != "" && forall i :: 0 <= i <= |s| - |old_| ==> !(old_ <= s[i..])
    ensures ReplaceAll(s, old_, new_) == s
  {
    if |s| >= |old_| {
      assert s[0..] == s;
      forall i | 0 <= i <= |s[1..]| - |old_| ensures !(old_ <= s[1..][i..]) {
        assert s[1..][i..] == s[i + 1..];
      }
      ReplaceNothing(s[1..], old_, new_);
    }
  }

  predicate PadOk(pad: string) { pad == "" || pad == " " }

  predicate NoBlank(t: string) { forall i :: 0 <= i < |t| ==> t[i] != ' ' }

  /** A word followed by a blank does not occur where the only inner blank follows a word with a different end. */
  lemma OtherWordUnchanged(pad: string, word: string, h: string, other: string, new_: string)
    requires PadOk(pad) && NoBlank(word) && NoBlank(h) && |word| >= 2 && |other| >= 2
    requires word[|word| - 1] != other[|other| - 1] || word[|word| - 2] != other[|other| - 2]
    ensures ReplaceAll(pad + word + " " + h, other + " ", new_) == pad + word + " " + h
  {
    var s, old_ := pad + word + " " + h, other + " ";
    var m, n := |pad| + |word|, |other|;
    forall i | 0 <= i <= |s| - |old_| ensures !(old_ <= s[i..]) {
      assert s[i..][n] == s[i + n] && s[i..][n - 1] == s[i + n - 1] && s[i..][n - 2] == s[i + n - 2];
      assert old_[n] == ' ' && old_[n - 1] == other[n - 1] && old_[n - 2] == other[n - 2];
      assert i + n < m ==> s[i + n] == word[i + n - |pad|];
      assert i + n > m ==> s[i + n] == h[i + n - m - 1];
      assert s[m - 1] == word[|word| - 1] && s[m - 2] == word[|word| - 2];
    }
    ReplaceNothing(s, old_, new_);
  }

  /** Without blanks beyond the first character no replacement applies. */
  lemma NoBlankUnchanged(pad: string, t: string, other: string, new_: string)
    requires PadOk(pad) && NoBlank(t) && other != ""
    ensures ReplaceAll(pad + t, other + " ", new_) == pad + t
  {
    var s, old_, n := pad + t, other + " ", |other|;
    forall i | 0 <= i <= |s| - |old_| ensures !(old_ <= s[i..]) {
      assert s[i..][n] == s[i + n] == t[i + n - |pad|] && old_[n] == ' ';
    }
    ReplaceNothing(s, old_, new_);
  }

  lemma LeadingWordReplaced(word: string, h: string, new_: string)
    requires NoBlank(h) && word != ""
    ensures ReplaceAll(word + " " + h, word + " ", new_) == new_ + h
  {
    var old_ := word + " ";
    ReplaceHere(old_ + h, old_, new_);
    assert (old_ + h)[|old_|..] == h;
    NoBlankUnchanged("", h, word, new_);
    assert "" + h == h;
  }

  lemma OwnWordReplaced(pad: string, word: string, h: string, new_: string)
    requires PadOk(pad) && NoBlank(word) && NoBlank(h) && word != ""
    ensures ReplaceAll(pad + word + " " + h, word + " ", new_) == pad + new_ + h
  {
    LeadingWordReplaced(word, h, new_);
    var s, t := pad + word + " " + h, word + " " + h;
    if pad == "" {
      assert s == t && pad + new_ + h == new_ + h;
    } else {
      assert s[0] == ' ' && s[1..] == t;
      assert (word + " ")[0] == word[0] != ' ';
      ReplaceLater(s, word + " ", new_);
      assert pad + new_ + h == [' '] + (new_ + h);
    }
  }

  // ---------------------------------------------------------------- a replacement on the whole answer

  /** The order in which the kinds are replaced. */
  function Rank(k: Kind): (i: nat)
    ensures i < 6
  {
    match k
    case PROXY => 0 case HTTP => 1 case HTTPS => 2 case SOCKS4 => 3 case SOCKS5 => 4 case SOCKS => 5
  }

  function Ranked(i: nat): (k: Kind)
    requires i < 6
    ensures Rank(k) == i
  {
    match i
    case 0 => PROXY case 1 => HTTP case 2 => HTTPS case 3 => SOCKS4 case 4 => SOCKS5 case _ => SOCKS
  }

  lemma RewriteAt(i: nat)
    requires i < 6
    ensures REWRITES[i].0 == KindText(Ranked(i)) + " " && REWRITES[i].1 == SchemePrefix(Ranked(i))
  {}

  lemma KindsDiffer(k: Kind, l: Kind)
    requires k != l
    ensures var a, b := KindText(k), KindText(l);
            |a| >= 2 && |b| >= 2 && (a[|a| - 1] != b[|b| - 1] || a[|a| - 2] != b[|b| - 2])
  {}

  lemma WordsHaveNoBlank(k: Kind)
    ensures NoBlank(KindText(k)) && NoBlank(SchemePrefix(k)) && NoBlank("DIRECT")
  {}

  lemma HostHasNoBlank(h: string)
    requires HostOk(h)
    ensures NoBlank(h)
  {
    forall i | 0 <= i < |h| ensures h[i] != ' ' { assert h[i] in h; }
  }

  /** An entry after the first `i` replacements. */
  function Stage(e: Entry, i: nat): string {
    if e.Via? && Rank(e.kind) < i then Target(e) else Print(e)
  }

  lemma EntryStep(pad: string, e: Entry, i: nat)
    requires PadOk(pad) && EntryOk(e) && i < 6
    ensures ReplaceAll(pad + Stage(e, i), KindText(Ranked(i)) + " ", SchemePrefix(Ranked(i))) == pad + Stage(e, i + 1)
  {
    var l := Ranked(i);
    match e
    case Direct =>
      WordsHaveNoBlank(l);
      NoBlankUnchanged(pad, "DIRECT", KindText(l), SchemePrefix(l));
    case Via(k, h) =>
      HostHasNoBlank(h);
      WordsHaveNoBlank(k);
      assert pad + (KindText(k) + " " + h) == pad + KindText(k) + " " + h;
      assert pad + (SchemePrefix(k) + h) == pad + SchemePrefix(k) + h;
      if Rank(k) < i {
        assert NoBlank(SchemePrefix(k) + h);
        NoBlankUnchanged(pad, SchemePrefix(k) + h, KindText(l), SchemePrefix(l));
      } else if k == l {
        OwnWordReplaced(pad, KindText(k), h, SchemePrefix(k));
      } else {
        KindsDiffer(k, l);
        OtherWordUnchanged(pad, KindText(k), h, KindText(l), SchemePrefix(l));
      }
  }

  lemma PrefixOfFirst(a: string, sep: char, b: string, old_: string)
    requires sep !in old_
    ensures old_ <= a + [sep] + b <==> old_ <= a
  {
    var s := a + [sep] + b;
    if |old_| <= |a| {
      assert s[..|old_|] == a[..|old_|];
    } else {
      assert s[|a|] == sep && old_[|a|] in old_;
    }
  }

  /** One step of a replacement: the text put first, and how far it moves. */
  function Chunk(s: string, old_: string, new_: string): (r: (string, nat))
    requires old_ != "" && s != ""
    ensures 1 <= r.1 <= |s|
  {
    if old_ <= s then (new_, |old_|) else ([s[0]], 1)
  }

  lemma ReplaceChunk(s: string, old_: string, new_: string)
    requires old_ != "" && s != ""
    ensures var (t, n) := Chunk(s, old_, new_); ReplaceAll(s, old_, new_) == t + ReplaceAll(s[n..], old_, new_)
  {
    if old_ <= s { ReplaceHere(s, old_, new_); } else { ReplaceLater(s, old_, new_); }
  }

  lemma ChunkOfFirst(a: string, sep: char, b: string, old_: string, new_: string)
    requires old_ != "" && sep !in old_
    ensures a != "" ==> Chunk(a + [sep] + b, old_, new_) == Chunk(a, old_, new_)
    ensures a == "" ==> Chunk(a + [sep] + b, old_, new_) == ([sep], 1)
  {
    PrefixOfFirst(a, sep, b, old_);
  }

  lemma DropFromFirst(a: string, c: string, b: string, n: nat)
    requires n <= |a|
    ensures (a + c + b)[n..] == a[n..] + c + b
  {}

  lemma Regroup(a: string, b: string, c: string, d: string)
    ensures a + (b + c + d) == (a + b) + c + d
  {}

  /** A replacement whose text has no `sep` works on each part by itself. */
  lemma {:induction false} ReplaceAcross(a: string, sep: char, b: string, old_: string, new_: string)
    requires old_ != "" && sep !in old_
    ensures ReplaceAll(a + [sep] + b, old_, new_) == ReplaceAll(a, old_, new_) + [sep] + ReplaceAll(b, old_, new_)
    decreases |a|
  {
    var s := a + [sep] + b;
    ReplaceChunk(s, old_, new_);
    ChunkOfFirst(a, sep, b, old_, new_);
    if a == "" {
      assert s[1..] == b && ReplaceAll(a, old_, new_) == "";
    } else {
      ReplaceChunk(a, old_, new_);
      var (t, n) := Chunk(a, old_, new_);
      DropFromFirst(a, [sep], b, n);
      ReplaceAcross(a[n..], sep, b, old_, new_);
      Regroup(t, ReplaceAll(a[n..], old_, new_), [sep], ReplaceAll(b, old_, new_));
    }
  }

  /** The text of the parts from `j` on, each but the first of the answer with a blank before it. */
  function Segments(es: seq<Entry>, first: bool, i: nat): (r: seq<string>)
    ensures |r| == |es|
  {
    if es == [] then [] else [(if first then "" else " ") + Stage(es[0], i)] + Segments(es[1..], false, i)
  }

  lemma MoveBlank(pad: string, p: string, q: string)
    ensures pad + (p + "; " + q) == (pad + p) + [';'] + (" " + q)
  {
    assert "; " == [';'] + " ";
  }

  /** The printed entries are the segments joined with semicolons. */
  lemma {:induction false} PrintAllJoins(es: seq<Entry>, first: bool)
    requires es != []
    ensures (if first then "" else " ") + PrintAll(es) == Join(Segments(es, first, 0), ';')
  {
    var pad := if first then "" else " ";
    if |es| == 1 {
      assert Segments(es[1..], false, 0) == [];
      assert Segments(es, first, 0) == [pad + Print(es[0])];
    } else {
      PrintAllJoins(es[1..], false);
      var rest := Segments(es[1..], false, 0);
      assert Segments(es, first, 0)[1..] == rest;
      MoveBlank(pad, Print(es[0]), PrintAll(es[1..]));
    }
  }

  /** One replacement takes every segment one stage further. */
  lemma {:induction false} ReplaceSegments(es: seq<Entry>, first: bool, i: nat)
    requires es != [] && i < 6 && forall j :: 0 <= j < |es| ==> EntryOk(es[j])
    ensures ReplaceAll(Join(Segments(es, first, i), ';'), KindText(Ranked(i)) + " ", SchemePrefix(Ranked(i)))
            == Join(Segments(es, first, i + 1), ';')
  {
    var pad := if first then "" else " ";
    var old_, new_ := KindText(Ranked(i)) + " ", SchemePrefix(Ranked(i));
    EntryStep(pad, es[0], i);
    if |es| == 1 {
      assert Segments(es, first, i) == [pad + Stage(es[0], i)];
      assert Segments(es, first, i + 1) == [pad + Stage(es[0], i + 1)];
    } else {
      ReplaceSegments(es[1..], false, i);
      var a, b := Segments(es[1..], false, i), Segments(es[1..], false, i + 1);
      assert Segments(es, first, i)[1..] == a && Segments(es, first, i + 1)[1..] == b;
      KindHasNoSemicolon(Ranked(i));
      ReplaceAcross(pad + Stage(es[0], i), ';', Join(a, ';'), old_, new_);
    }
  }

  lemma KindHasNoSemicolon(k: Kind)
    ensures ';' !in KindText(k) + " "
  {}

  lemma {:induction false} RewriteSegments(es: seq<Entry>, i: nat)
    requires es != [] && i <= 6 && forall j :: 0 <= j < |es| ==> EntryOk(es[j])
    ensures Rewrite(Join(Segments(es, true, 0), ';'), i) == Join(Segments(es, true, i), ';')
  {
    if i > 0 {
      RewriteSegments(es, i - 1);
      RewriteAt(i - 1);
      ReplaceSegments(es, true, i - 1);
    }
  }

  // ---------------------------------------------------------------- separators, trimming, fields

  lemma {:induction false} ReplaceSeparator(s: string, sep: char, with: char)
    requires sep !in s
    ensures ReplaceAll(s, [sep], [with]) == s
  {
    if s != "" { ReplaceSeparator(s[1..], sep, with); }
  }

  /** Replacing the separator of a joined list joins it with the other one. */
  lemma {:induction false} SeparatorReplaced(parts: seq<string>, sep: char, with: char)
    requires parts != [] && forall j :: 0 <= j < |parts| ==> sep !in parts[j]
    ensures ReplaceAll(Join(parts, sep), [sep], [with]) == Join(parts, with)
  {
    if |parts| == 1 {
      ReplaceSeparator(parts[0], sep, with);
    } else {
      SeparatorReplaced(parts[1..], sep, with);
      SeparatorBetween(parts[0], sep, Join(parts[1..], sep), with);
    }
  }

  lemma {:induction false} SeparatorBetween(a: string, sep: char, b: string, with: char)
    requires sep !in a
    ensures ReplaceAll(a + [sep] + b, [sep], [with]) == a + [with] + ReplaceAll(b, [sep], [with])
  {
    var s := a + [sep] + b;
    if a == "" {
      assert s[1..] == b && [sep] <= s;
    } else {
      assert s[1..] == a[1..] + [sep] + b && s[0] == a[0];
      assert !([sep] <= s);
      SeparatorBetween(a[1..], sep, b, with);
    }
  }

  predicate Word(t: string) { t != "" && forall j :: 0 <= j < |t| ==> !IsSpace(t[j]) && !IsSeparator(t[j]) }

  lemma PrintableIsWord(t: string)
    requires t != "" && forall j :: 0 <= j < |t| ==> '-' <= t[j] <= ':' || 'A' <= t[j] <= 'z'
    ensures Word(t)
  {}

  lemma LiteralsAreClean(k: Kind)
    ensures Word("DIRECT") && (SchemePrefix(k) != "" ==> Word(SchemePrefix(k)))
  {
    PrintableIsWord("DIRECT");
    if SchemePrefix(k) != "" { PrintableIsWord(SchemePrefix(k)); }
  }

  lemma TargetIsWord(e: Entry)
    requires EntryOk(e)
    ensures Word(Target(e))
  {
    match e
    case Direct => LiteralsAreClean(PROXY);
    case Via(k, h) =>
      LiteralsAreClean(k);
      var p := SchemePrefix(k);
      forall j | 0 <= j < |p + h| ensures !IsSpace((p + h)[j]) && !IsSeparator((p + h)[j]) {
        if j < |p| { assert (p + h)[j] == p[j]; } else { assert (p + h)[j] == h[j - |p|]; }
      }
  }

  lemma TrimPadded(pad: string, t: string)
    requires PadOk(pad) && Word(t)
    ensures TrimSpace(pad + t) == t
  {
    TrimLeadingSpaces(pad, t);
    assert Trimmed(t);
  }

  function Words(es: seq<Entry>): (r: seq<string>)
    ensures |r| == |es| && forall i :: 0 <= i < |r| ==> r[i] == Target(es[i])
  {
    if es == [] then [] else [Target(es[0])] + Words(es[1..])
  }

  lemma {:induction false} CleanSegments(es: seq<Entry>, first: bool)
    requires forall j :: 0 <= j < |es| ==> EntryOk(es[j])
    ensures Clean(Segments(es, first, 6)) == Words(es)
  {
    if es != [] {
      TargetIsWord(es[0]);
      TrimPadded(if first then "" else " ", Target(es[0]));
      CleanSegments(es[1..], false);
      CleanCons((if first then "" else " ") + Target(es[0]), Segments(es[1..], false, 6), Target(es[0]));
    }
  }

  lemma {:induction false} SegmentsHaveNoSeparator(es: seq<Entry>, first: bool, c: char, j: nat)
    requires IsSeparator(c) && j < |es| && forall i :: 0 <= i < |es| ==> EntryOk(es[i])
    ensures c !in Segments(es, first, 6)[j]
  {
    if j == 0 {
      TargetIsWord(es[0]);
    } else {
      SegmentsHaveNoSeparator(es[1..], false, c, j - 1);
    }
  }

  lemma FieldsHead(w: string, rest: string)
    requires Word(w)
    ensures Fields(w) == [w] && Fields(w + [','] + rest) == [w] + Fields(rest)
  {
    assert FieldLength(w) == |w| && w[..|w|] == w;
    var s := w + [','] + rest;
    assert FieldLength(s) == |w| by {
      assert s[|w|] == ',' && forall i :: 0 <= i < |w| ==> s[i] == w[i];
    }
    assert s[..|w|] == w && s[|w| + 1..] == rest;
  }

  /** Splitting into fields undoes joining words with a separator. */
  lemma {:induction false} FieldsOfJoin(ws: seq<string>)
    requires ws != [] && forall j :: 0 <= j < |ws| ==> Word(ws[j])
    ensures Fields(Join(ws, ',')) == ws
  {
    var w, rest := ws[0], Join(ws[1..], ',');
    FieldsHead(w, rest);
    if |ws| > 1 {
      FieldsOfJoin(ws[1..]);
      assert Join(ws, ',') == w + [','] + rest;
    }
  }

  lemma WordIsItsAddress(t: string)
    requires Word(t)
    ensures Address(t) == if IsDirect(t) then "" else t
  {
    TrimPadded("", t);
    assert "" + t == t;
    assert Find(t, ' ') == |t|;
  }

  lemma {:induction false} AddressesOfWords(es: seq<Entry>)
    requires forall j :: 0 <= j < |es| ==> EntryOk(es[j])
    ensures Addresses(Words(es)) == Targets(es)
  {
    if es != [] {
      TargetIsWord(es[0]);
      WordIsItsAddress(Target(es[0]));
      assert Words(es)[1..] == Words(es[1..]);
      AddressesOfWords(es[1..]);
    }
  }

  // ---------------------------------------------------------------- the pipeline

  lemma PrintedIsTrimmed(es: seq<Entry>)
    requires es != [] && forall j :: 0 <= j < |es| ==> EntryOk(es[j])
    ensures TrimSpace(PrintAll(es)) == PrintAll(es) && PrintAll(es) != ""
  {
    PrintedEnds(es);
    TrimmedFixed(PrintAll(es));
  }

  lemma {:induction false} PrintedEnds(es: seq<Entry>)
    requires es != [] && forall j :: 0 <= j < |es| ==> EntryOk(es[j])
    ensures var s := PrintAll(es); s != "" && !IsSpace(s[0]) && !IsSpace(s[|s| - 1])
  {
    PrintEnds(es[0]);
    if |es| > 1 {
      PrintedEnds(es[1..]);
      var p, q := Print(es[0]), PrintAll(es[1..]);
      var s := p + "; " + q;
      assert s[0] == p[0] && s[|s| - 1] == q[|q| - 1];
    }
  }

  lemma PrintEnds(e: Entry)
    requires EntryOk(e)
    ensures var s := Print(e); s != "" && !IsSpace(s[0]) && !IsSpace(s[|s| - 1])
  {
    match e
    case Direct =>
    case Via(k, h) =>
      assert Print(e)[0] == KindText(k)[0];
      assert Print(e)[|Print(e)| - 1] == h[|h| - 1] && h[|h| - 1] in h;
  }

  /** The rewriting of a printed answer: the targets, joined with commas. */
  lemma RewrittenAnswer(es: seq<Entry>, n: nat)
    requires es != [] && (forall j :: 0 <= j < |es| ==> EntryOk(es[j])) && n == |REWRITES| - 1
    ensures Rewrite(PrintAll(es), n + 1) == Join(Segments(es, true, n), ',')
  {
    var segments := Segments(es, true, n);
    PrintAllJoins(es, true);
    assert "" + PrintAll(es) == PrintAll(es);
    RewriteSegments(es, n);
    forall j | 0 <= j < |segments| ensures ';' !in segments[j] { SegmentsHaveNoSeparator(es, true, ';', j); }
    SeparatorReplaced(segments, ';', ',');
  }

  lemma NormalizedBy(raw: string, n: nat, parts: seq<string>, words: seq<string>)
    requires TrimSpace(raw) == raw && raw != "" && n == |REWRITES| && parts != [] && Clean(parts) == words != []
    requires Rewrite(raw, n) == Join(parts, ',') && forall j :: 0 <= j < |parts| ==> ',' !in parts[j]
    ensures Normalized(raw) == Join(words, ',')
  {
    SplitJoin(parts, ',');
  }

  lemma NormalizedAnswer(es: seq<Entry>, raw: string, n: nat)
    requires es != [] && (forall j :: 0 <= j < |es| ==> EntryOk(es[j])) && raw == PrintAll(es) && n == |REWRITES| - 1
    ensures Normalized(raw) == Join(Words(es), ',')
  {
    var segments := Segments(es, true, n);
    assert forall j :: 0 <= j < |segments| ==> ',' !in segments[j] by {
      forall j | 0 <= j < |segments| ensures ',' !in segments[j] { SegmentsHaveNoSeparator(es, true, ',', j); }
    }
    NormalizedBy(raw, n + 1, segments, Words(es)) by {
      PrintedIsTrimmed(es);
      RewrittenAnswer(es, n);
      CleanSegments(es, true);
    }
  }

  lemma ParsedWords(es: seq<Entry>)
    requires es != [] && forall j :: 0 <= j < |es| ==> EntryOk(es[j])
    ensures Parsed(Join(Words(es), ',')) == Targets(es)
  {
    var words := Words(es);
    forall j | 0 <= j < |es| ensures Word(words[j]) { TargetIsWord(es[j]); }
    FieldsOfJoin(words);
    AddressesOfWords(es);
  }

  lemma EmptyAnswer()
    ensures Normalized("") == "DIRECT" && Parsed("DIRECT") == []
  {
    LiteralsAreClean(PROXY);
    FieldsHead("DIRECT", "");
    WordIsItsAddress("DIRECT");
  }

  /** Normalising and then parsing a printed answer gives the targets of its entries, in order. */
  lemma PipelineYieldsTargets(es: seq<Entry>, raw: string)
    requires (forall j :: 0 <= j < |es| ==> EntryOk(es[j])) && raw == PrintAll(es)
    ensures Parsed(Normalized(raw)) == Targets(es)
  {
    if es == [] {
      EmptyAnswer();
    } else {
      NormalizedAnswer(es, raw, |REWRITES| - 1);
      ParsedWords(es);
    }
  }

  /** The targets of the entries that are not "DIRECT". */
  function ProxyTargets(es: seq<Entry>): seq<string> {
    if es == [] then [] else (if es[0].Via? then [Target(es[0])] else []) + ProxyTargets(es[1..])
  }

  /** A host that reads "DIRECT" behind a kind that leaves no scheme. */
  predicate Mistaken(e: Entry) { e.Via? && (e.kind.PROXY? || e.kind.HTTP?) && IsDirect(e.host) }

  lemma ReadsDirect(e: Entry)
    ensures IsDirect(Target(e)) <==> e.Direct? || Mistaken(e)
  {
    match e
    case Direct =>
    case Via(k, h) =>
      assert k.PROXY? || k.HTTP? ==> Target(e) == h;
      assert !(k.PROXY? || k.HTTP?) ==> |Target(e)| > 6;
      assert |ToUpper("DIRECT")| == 6 && |ToUpper(Target(e))| == |Target(e)|;
  }

  lemma {:induction false} TargetsCount(es: seq<Entry>)
    ensures |Targets(es)| <= |ProxyTargets(es)|
    ensures (forall j :: 0 <= j < |es| ==> !Mistaken(es[j])) ==> Targets(es) == ProxyTargets(es)
    ensures (exists j :: 0 <= j < |es| && Mistaken(es[j])) ==> |Targets(es)| < |ProxyTargets(es)|
  {
    if es != [] {
      ReadsDirect(es[0]);
      TargetsCount(es[1..]);
      assert forall j :: 1 <= j < |es| ==> es[j] == es[1..][j - 1];
      assert forall j :: 0 <= j < |es| - 1 ==> es[1..][j] == es[j + 1];
    }
  }

  /** Every proxy entry survives, in order and with the right scheme, exactly when no host reads "DIRECT"
      behind PROXY or HTTP. */
  lemma PipelineKeepsProxiesIff(es: seq<Entry>, raw: string)
    requires (forall j :: 0 <= j < |es| ==> EntryOk(es[j])) && raw == PrintAll(es)
    ensures Parsed(Normalized(raw)) == ProxyTargets(es) <==> forall j :: 0 <= j < |es| ==> !Mistaken(es[j])
  {
    PipelineYieldsTargets(es, raw);
    TargetsCount(es);
  }

  // ---------------------------------------------------------------- parsing an answer as the script wrote it

  /** The hosts of the entries that are not "DIRECT". */
  function Hosts(es: seq<Entry>): seq<string> {
    if es == [] then [] else (if es[0].Via? then [es[0].host] else []) + Hosts(es[1..])
  }

  predicate NoSeparator(t: string) { t != "" && forall j :: 0 <= j < |t| ==> !IsSeparator(t[j]) }

  lemma FieldOfFirst(w: string, rest: string)
    requires NoSeparator(w)
    ensures Fields(w) == [w] && Fields(w + [';'] + rest) == [w] + Fields(rest)
  {
    assert FieldLength(w) == |w| && w[..|w|] == w;
    var s := w + [';'] + rest;
    assert FieldLength(s) == |w| by {
      assert s[|w|] == ';' && forall i :: 0 <= i < |w| ==> s[i] == w[i];
    }
    assert s[..|w|] == w && s[|w| + 1..] == rest;
  }

  lemma PrintHasNoSeparator(pad: string, e: Entry)
    requires PadOk(pad) && EntryOk(e)
    ensures NoSeparator(pad + Print(e))
  {
    match e
    case Direct =>
    case Via(k, h) =>
      var w := KindText(k);
      forall j | 0 <= j < |pad + Print(e)| ensures !IsSeparator((pad + Print(e))[j]) {
        var n := |pad|;
        if j >= n + |w| + 1 { assert (pad + Print(e))[j] == h[j - n - |w| - 1]; }
        else if n <= j < n + |w| { KindIsClean(k, j - n); assert (pad + Print(e))[j] == w[j - n]; }
      }
  }

  lemma KindIsClean(k: Kind, j: nat)
    requires j < |KindText(k)|
    ensures !IsSeparator(KindText(k)[j]) && !IsSpace(KindText(k)[j])
  {}

  /** Parsing strips the kind of an entry, whatever blank precedes it. */
  lemma AddressOfPrint(pad: string, e: Entry)
    requires PadOk(pad) && EntryOk(e)
    ensures Address(pad + Print(e)) == if e.Via? then e.host else ""
  {
    PrintEnds(e);
    TrimLeadingSpaces(pad, Print(e));
    TrimmedFixed(Print(e));
    match e
    case Direct =>
    case Via(k, h) =>
      HostHasNoBlank(h);
      WordsHaveNoBlank(k);
      FindIn(KindText(k), h, ' ');
      assert Print(e) == KindText(k) + [' '] + h;
      assert Print(e)[|KindText(k)| + 1..] == h;
      ViaIsNotDirect(k, h);
      TrimmedFixed(h) by { assert h[0] in h && h[|h| - 1] in h; }
  }

  /** A blank inside keeps an entry from reading "DIRECT". */
  lemma ViaIsNotDirect(k: Kind, h: string)
    requires HostOk(h)
    ensures !IsDirect(KindText(k) + " " + h)
  {
    var s, w := KindText(k) + " " + h, |KindText(k)|;
    var d := "DIRECT";
    assert s[w] == ' ';
    assert UpperChar(' ') == ' ' && ToUpper(s)[w] == ' ';
    assert forall j :: 0 <= j < 6 ==> ToUpper(d)[j] != ' ';
    assert h != "" && (|s| == 6 ==> w < 6);
    assert |ToUpper(s)| == |s| && |ToUpper(d)| == 6;
  }

  /** Parsing an answer that was not normalised gives the hosts without their kinds, in order. */
  lemma {:induction false} ParsedAsWritten(es: seq<Entry>, first: bool, text: string)
    requires es != [] && (forall j :: 0 <= j < |es| ==> EntryOk(es[j])) && text == (if first then "" else " ") + PrintAll(es)
    ensures Parsed(text) == Hosts(es)
  {
    var pad := if first then "" else " ";
    var head := pad + Print(es[0]);
    PrintHasNoSeparator(pad, es[0]);
    AddressOfPrint(pad, es[0]);
    if |es| == 1 {
      FieldOfFirst(head, "");
      assert text == head;
      OneAddress(head);
      assert Hosts(es[1..]) == [];
    } else {
      var rest := " " + PrintAll(es[1..]);
      MoveBlank(pad, Print(es[0]), PrintAll(es[1..]));
      assert text == head + [';'] + rest;
      FieldOfFirst(head, rest);
      AddressesCons(head, Fields(rest));
      ParsedAsWritten(es[1..], false, rest);
    }
  }

  lemma OneAddress(f: string)
    ensures Addresses([f]) == if Address(f) != "" then [Address(f)] else []
  {
    assert [f][1..] == [];
  }

  lemma AddressesCons(f: string, rest: seq<string>)
    ensures Addresses([f] + rest) == (if Address(f) != "" then [Address(f)] else []) + Addresses(rest)
  {
    assert ([f] + rest)[1..] == rest;
  }

  // ---------------------------------------------------------------- what every normalised answer looks like

  lemma NormalizedCases(raw: string, out: seq<string>)
    requires out == Clean(Split(Rewrite(TrimSpace(raw), |REWRITES|), ','))
    ensures Normalized(raw) == if TrimSpace(raw) == "" || out == [] then "DIRECT" else Join(out, ',')
  {}

  predicate Shaped(text: string) {
    text != "" && forall i :: 0 <= i < |Split(text, ',')| ==> Split(text, ',')[i] != "" && Trimmed(Split(text, ',')[i])
  }

  lemma DirectIsShaped(direct: string)
    requires direct == "DIRECT"
    ensures Shaped(direct)
  {
    SplitHead(direct, "", ',') by { assert direct[0] != ','; }
    TrimmedDirect(direct);
  }

  /** A normalised answer is never empty: it is a list of trimmed non-empty parts, "DIRECT" when there is none. */
  lemma NormalizedShape(raw: string)
    ensures Shaped(Normalized(raw))
  {
    var text := Rewrite(TrimSpace(raw), |REWRITES|);
    var out := Clean(Split(text, ','));
    NormalizedCases(raw, out);
    DirectIsShaped("DIRECT");
    if out != [] { CleanedShape(text, out, Join(out, ',')); }
  }

  lemma TrimmedDirect(direct: string)
    requires direct == "DIRECT"
    ensures Trimmed(direct)
  {}

  lemma CleanedShape(text: string, out: seq<string>, joined: string)
    requires out == Clean(Split(text, ',')) != [] && joined == Join(out, ',')
    ensures Split(joined, ',') == out && joined != ""
    ensures forall i :: 0 <= i < |out| ==> out[i] != "" && Trimmed(out[i])
  {
    forall i | 0 <= i < |Split(text, ',')| ensures ',' !in Split(text, ',')[i] { SplitHasNoSeparator(text, ',', i); }
    CleanItems(Split(text, ','), ',');
    SplitJoin(out, ',');
    assert joined == "" ==> Split(joined, ',') == [""];
  }
}
