/** Choosing an authentication scheme from Proxy-Authenticate values: internal/auth/auth.go, and
    challengeForScheme of internal/proxy/handler.go. */
module Challenges {
  import opened Basics
  import opened Text

  // ---------------------------------------------------------------- the last offer of each scheme

  /** The position of the last offer of `key`, or -1. */
  function LastAt<K(==), V>(offers: seq<Option<(K, V)>>, key: K): (i: int)
    ensures -1 <= i < |offers|
    ensures i >= 0 ==> offers[i].Some? && offers[i].value.0 == key
    ensures forall j :: i < j < |offers| && offers[j].Some? ==> offers[j].value.0 != key
  {
    if offers == [] then -1
    else
      var n := |offers| - 1;
      if offers[n].Some? && offers[n].value.0 == key then n else LastAt(offers[..n], key)
  }

  /** The map that parseChallenges builds: later offers overwrite earlier ones. */
  function Collect<K, V>(offers: seq<Option<(K, V)>>): map<K, V> {
    if offers == [] then map[]
    else
      var n := |offers| - 1;
      if offers[n].Some? then Collect(offers[..n])[offers[n].value.0 := offers[n].value.1] else Collect(offers[..n])
  }

  lemma {:induction false} CollectHoldsLast<K, V>(offers: seq<Option<(K, V)>>, key: K)
    ensures key in Collect(offers) <==> LastAt(offers, key) >= 0
    ensures key in Collect(offers) ==> Collect(offers)[key] == offers[LastAt(offers, key)].value.1
  {
    if offers != [] {
      CollectHoldsLast(offers[..|offers| - 1], key);
    }
  }

  /** The most preferred key that is offered, with its last offer. */
  function Select<K(==), V>(order: seq<K>, offers: seq<Option<(K, V)>>): (r: Option<(K, V)>)
    ensures r.None? <==> forall j :: 0 <= j < |order| ==> LastAt(offers, order[j]) < 0
    ensures r.Some? ==> exists k :: 0 <= k < |order| && Selected(order, offers, k, r.value)
  {
    if order == [] then None
    else if LastAt(offers, order[0]) >= 0 then
      var r := (order[0], offers[LastAt(offers, order[0])].value.1);
      assert Selected(order, offers, 0, r);
      Some(r)
    else
      assert forall j :: 1 <= j < |order| ==> order[j] == order[1..][j - 1];
      var r := Select(order[1..], offers);
      assert r.Some? ==> forall k :: 0 <= k < |order| - 1 && Selected(order[1..], offers, k, r.value) ==> Selected(order, offers, k + 1, r.value);
      r
  }

  /** The key at position `k` is offered, none before it is, and `pick` is its last offer. */
  ghost predicate Selected<K, V>(order: seq<K>, offers: seq<Option<(K, V)>>, k: nat, pick: (K, V)) {
    && k < |order| && LastAt(offers, order[k]) >= 0
    && offers[LastAt(offers, order[k])].value == pick
    && forall j :: 0 <= j < k ==> LastAt(offers, order[j]) < 0
  }

  // ---------------------------------------------------------------- the values

  /** The two pieces of strings.SplitN(s, " ", 2), the second empty when there is none. */
  function Head(s: string): string { s[..Find(s, ' ')] }

  function Tail(s: string): string { if Find(s, ' ') < |s| then s[Find(s, ' ') + 1..] else "" }

  function OfferIn(value: string): Option<(string, string)> {
    var trimmed := TrimSpace(value);
    if trimmed == "" then None else Some((ToUpper(TrimSpace(Head(trimmed))), TrimSpace(Tail(trimmed))))
  }

  function OffersIn(values: seq<string>): seq<Option<(string, string)>> {
    seq(|values|, i requires 0 <= i < |values| => OfferIn(values[i]))
  }

  method ParseChallenges(values: seq<string>) returns (out: map<string, string>)
    ensures out == Collect(OffersIn(values))
  {
    out := map[];
    ghost var offers := OffersIn(values);
    for i := 0 to |values|
      invariant out == Collect(offers[..i])
    {
      assert offers[..i + 1][..i] == offers[..i] && offers[i] == OfferIn(values[i]);
      var trimmed := TrimSpace(values[i]);
      if trimmed != "" {
        var scheme, rest := ToUpper(TrimSpace(Head(trimmed))), TrimSpace(Tail(trimmed));
        out := out[scheme := rest];
      }
    }
    assert offers[..|values|] == offers;
  }

  // ---------------------------------------------------------------- the preference

  /** excludeScheme */
  function Exclude<K(==, !new)>(list: seq<K>, exclude: K): (out: seq<K>)
    ensures forall s :: s in out <==> s in list && s != exclude
  {
    if list == [] then []
    else (if list[0] != exclude then [list[0]] else []) + Exclude(list[1..], exclude)
  }

  const SAFE: seq<string> := ["NEGOTIATE", "NTLM", "DIGEST"]
  const ALL: seq<string> := ["NEGOTIATE", "NTLM", "DIGEST", "BASIC"]

  function PreferenceOrder(raw: string): seq<string> {
    var preference := ToUpper(TrimSpace(raw));
    if preference == "" || preference == "ANY" then ALL
    else if preference == "ANYSAFE" then SAFE
    else if preference == "NONE" then []
    else if "ONLY" <= preference then [preference[4..]]
    else if "SAFENO" <= preference then Exclude(SAFE, preference[6..])
    else if "NO" <= preference then Exclude(ALL, preference[2..])
    else [preference]
  }

  function Choose(preference: string, challenges: seq<string>): Option<(string, string)> {
    Select(PreferenceOrder(preference), OffersIn(challenges))
  }

  method ChooseScheme(preference: string, challenges: seq<string>) returns (choice: Option<(string, string)>)
    ensures choice == Choose(preference, challenges)
  {
    var offered := ParseChallenges(challenges);
    choice := FirstOffered(PreferenceOrder(preference), offered, OffersIn(challenges));
  }

  /** The loop of ChooseScheme, over any keys. */
  method FirstOffered<K(==), V>(order: seq<K>, offered: map<K, V>, ghost offers: seq<Option<(K, V)>>)
    returns (choice: Option<(K, V)>)
    requires offered == Collect(offers)
    ensures choice == Select(order, offers)
  {
    for i := 0 to |order|
      invariant Select(order, offers) == Select(order[i..], offers)
    {
      CollectHoldsLast(offers, order[i]);
      assert order[i..][1..] == order[i + 1..];
      if order[i] in offered {
        return Some((order[i], offered[order[i]]));
      }
    }
    return None;
  }

  /** What a preference rules out is never chosen, whatever the upstream offers. */
  lemma ChoiceRespectsPreference(preference: string, challenges: seq<string>)
    requires Choose(preference, challenges).Some?
    ensures var p, scheme := ToUpper(TrimSpace(preference)), Choose(preference, challenges).value.0;
            && p != "NONE"
            && (p == "ANYSAFE" || "SAFENO" <= p ==> scheme in SAFE)
            && ("ONLY" <= p ==> scheme == p[4..])
            && ("SAFENO" <= p ==> scheme != p[6..])
            && ("NO" <= p ==> scheme in ALL && scheme != p[2..])
  {
    var p := ToUpper(TrimSpace(preference));
    var order, offers := PreferenceOrder(preference), OffersIn(challenges);
    var scheme := Choose(preference, challenges).value.0;
    assert scheme in order;
    assert "ONLY" <= p ==> p[0] == 'O';
    assert "NO" <= p ==> p[0] == 'N';
    assert "SAFENO" <= p ==> p[0] == 'S';
  }

  // ---------------------------------------------------------------- which scheme is chosen

  predicate IsOffered(challenges: seq<string>, scheme: string) { LastAt(OffersIn(challenges), scheme) >= 0 }

  function ChosenName(preference: string, challenges: seq<string>): Option<string> {
    var choice := Choose(preference, challenges);
    if choice.None? then None else Some(choice.value.0)
  }

  /** The first offered key of a, b, c and, when `four`, d, leaving out `ex`. */
  function Best<K(==), V>(offers: seq<Option<(K, V)>>, a: K, b: K, c: K, d: K, four: bool, ex: Option<K>): Option<K> {
    if LastAt(offers, a) >= 0 && ex != Some(a) then Some(a)
    else if LastAt(offers, b) >= 0 && ex != Some(b) then Some(b)
    else if LastAt(offers, c) >= 0 && ex != Some(c) then Some(c)
    else if four && LastAt(offers, d) >= 0 && ex != Some(d) then Some(d)
    else None
  }

  function KeyOf<K, V>(choice: Option<(K, V)>): Option<K> { if choice.None? then None else Some(choice.value.0) }

  lemma SelectOne<K, V>(offers: seq<Option<(K, V)>>, x: K)
    ensures KeyOf(Select([x], offers)) == if LastAt(offers, x) >= 0 then Some(x) else None
  {
    assert [x][1..] == [];
  }

  lemma SelectCons<K, V>(offers: seq<Option<(K, V)>>, x: K, rest: seq<K>)
    ensures KeyOf(Select([x] + rest, offers)) == if LastAt(offers, x) >= 0 then Some(x) else KeyOf(Select(rest, offers))
  {
    assert ([x] + rest)[1..] == rest;
  }

  lemma ExcludeCons<K(!new)>(x: K, rest: seq<K>, ex: K)
    ensures Exclude([x] + rest, ex) == (if x != ex then [x] else []) + Exclude(rest, ex)
  {
    assert ([x] + rest)[1..] == rest;
  }

  lemma SelectExcluding<K(!new), V>(offers: seq<Option<(K, V)>>, x: K, rest: seq<K>, ex: K)
    ensures KeyOf(Select(Exclude([x] + rest, ex), offers))
            == if LastAt(offers, x) >= 0 && x != ex then Some(x) else KeyOf(Select(Exclude(rest, ex), offers))
  {
    ExcludeCons(x, rest, ex);
    if x != ex { SelectCons(offers, x, Exclude(rest, ex)); } else { assert [] + Exclude(rest, ex) == Exclude(rest, ex); }
  }

  lemma BestOfThree<K(!new), V>(offers: seq<Option<(K, V)>>, a: K, b: K, c: K, d: K, ex: K)
    ensures KeyOf(Select(Exclude([a, b, c], ex), offers)) == Best(offers, a, b, c, d, false, Some(ex))
    ensures KeyOf(Select([a, b, c], offers)) == Best(offers, a, b, c, d, false, None)
  {
    assert [a, b, c] == [a] + [b, c] && [b, c] == [b] + [c] && [c] == [c] + [];
    SelectExcluding(offers, a, [b, c], ex);
    SelectExcluding(offers, b, [c], ex);
    SelectExcluding(offers, c, [], ex);
    SelectCons(offers, a, [b, c]);
    SelectCons(offers, b, [c]);
    SelectCons(offers, c, []);
  }

  lemma BestOfFour<K(!new), V>(offers: seq<Option<(K, V)>>, a: K, b: K, c: K, d: K, ex: K)
    ensures KeyOf(Select(Exclude([a, b, c, d], ex), offers)) == Best(offers, a, b, c, d, true, Some(ex))
    ensures KeyOf(Select([a, b, c, d], offers)) == Best(offers, a, b, c, d, true, None)
  {
    assert [a, b, c, d] == [a] + [b, c, d] && [b, c, d] == [b] + [c, d] && [c, d] == [c] + [d] && [d] == [d] + [];
    SelectExcluding(offers, a, [b, c, d], ex);
    SelectExcluding(offers, b, [c, d], ex);
    SelectExcluding(offers, c, [d], ex);
    SelectExcluding(offers, d, [], ex);
    SelectCons(offers, a, [b, c, d]);
    SelectCons(offers, b, [c, d]);
    SelectCons(offers, c, [d]);
    SelectCons(offers, d, []);
  }

  /** The first offered one of NEGOTIATE, NTLM, DIGEST and, when `basic`, BASIC, leaving out `ex`. */
  function Preferred(challenges: seq<string>, basic: bool, ex: Option<string>): Option<string> {
    Best(OffersIn(challenges), "NEGOTIATE", "NTLM", "DIGEST", "BASIC", basic, ex)
  }

  /** The default and ANY take the first of the four that is offered: BASIC only when no safe scheme is. */
  lemma AnyPrefersSafe(preference: string, challenges: seq<string>)
    requires var p := ToUpper(TrimSpace(preference)); p == "" || p == "ANY"
    ensures ChosenName(preference, challenges) == Preferred(challenges, true, None)
  {
    BestOfFour(OffersIn(challenges), "NEGOTIATE", "NTLM", "DIGEST", "BASIC", "");
  }

  /** ANYSAFE takes the first of the three safe ones. */
  lemma AnySafePrefers(preference: string, challenges: seq<string>)
    requires ToUpper(TrimSpace(preference)) == "ANYSAFE"
    ensures ChosenName(preference, challenges) == Preferred(challenges, false, None)
  {
    BestOfThree(OffersIn(challenges), "NEGOTIATE", "NTLM", "DIGEST", "BASIC", "");
  }

  lemma SafeNoOrder(preference: string, x: string)
    requires ToUpper(TrimSpace(preference)) == "SAFENO" + x
    ensures PreferenceOrder(preference) == Exclude(SAFE, x)
  {
    var p := ToUpper(TrimSpace(preference));
    assert p[0] == 'S' && p[6..] == x;
  }

  /** SAFENOx takes the first of the three but x. */
  lemma SafeNoPrefers(preference: string, challenges: seq<string>, x: string)
    requires ToUpper(TrimSpace(preference)) == "SAFENO" + x
    ensures ChosenName(preference, challenges) == Preferred(challenges, false, Some(x))
  {
    SafeNoOrder(preference, x);
    BestOfThree(OffersIn(challenges), "NEGOTIATE", "NTLM", "DIGEST", "BASIC", x);
  }

  lemma NoOrder(preference: string, x: string)
    requires ToUpper(TrimSpace(preference)) == "NO" + x && x != "NE"
    ensures PreferenceOrder(preference) == Exclude(ALL, x)
  {
    var p := ToUpper(TrimSpace(preference));
    assert p[0] == 'N' && p[1] == 'O' && p[2..] == x;
    var none := "NONE";
    assert none[2..] == "NE";
  }

  /** NOx takes the first of the four but x. */
  lemma NoPrefers(preference: string, challenges: seq<string>, x: string)
    requires ToUpper(TrimSpace(preference)) == "NO" + x && x != "NE"
    ensures ChosenName(preference, challenges) == Preferred(challenges, true, Some(x))
  {
    NoOrder(preference, x);
    BestOfFour(OffersIn(challenges), "NEGOTIATE", "NTLM", "DIGEST", "BASIC", x);
  }

  /** ONLYx takes x exactly when it is offered. */
  lemma OnlyTakesNamed(preference: string, challenges: seq<string>, x: string)
    requires ToUpper(TrimSpace(preference)) == "ONLY" + x
    ensures ChosenName(preference, challenges) == if IsOffered(challenges, x) then Some(x) else None
  {
    var p := ToUpper(TrimSpace(preference));
    assert p[0] == 'O' && p[4..] == x;
    SelectOne(OffersIn(challenges), x);
  }

  /** So does a bare name, and NONE takes nothing. */
  lemma NameTakesItself(preference: string, challenges: seq<string>)
    requires var p := ToUpper(TrimSpace(preference));
             p != "" && p != "ANY" && p != "ANYSAFE" && !("ONLY" <= p) && !("SAFENO" <= p) && (p == "NONE" || !("NO" <= p))
    ensures var p := ToUpper(TrimSpace(preference));
            ChosenName(preference, challenges) == if p != "NONE" && IsOffered(challenges, p) then Some(p) else None
  {
    SelectOne(OffersIn(challenges), ToUpper(TrimSpace(preference)));
  }

  /** Basic credentials are a last resort: under the default preference they are chosen exactly when BASIC is offered
      and no safe scheme is. */
  lemma BasicIsLastResort(preference: string, challenges: seq<string>)
    requires var p := ToUpper(TrimSpace(preference)); p == "" || p == "ANY"
    ensures ChosenName(preference, challenges) == Some("BASIC") <==>
              IsOffered(challenges, "BASIC")
              && !IsOffered(challenges, "NEGOTIATE") && !IsOffered(challenges, "NTLM") && !IsOffered(challenges, "DIGEST")
  {
    AnyPrefersSafe(preference, challenges);
    assert "NEGOTIATE"[0] != "BASIC"[0] && "NTLM"[0] != "BASIC"[0] && "DIGEST"[0] != "BASIC"[0];
  }

  // ---------------------------------------------------------------- later challenges

  /** The text of the first value whose first word is the scheme. */
  function ChallengeFor(challenges: seq<string>, scheme: string): string {
    if challenges == [] then ""
    else
      var trimmed := TrimSpace(challenges[0]);
      if EqualFold(Head(trimmed), scheme) then Tail(trimmed) else ChallengeFor(challenges[1..], scheme)
  }

  method ChallengeForScheme(challenges: seq<string>, scheme: string) returns (text: string)
    ensures text == ChallengeFor(challenges, scheme)
  {
    for i := 0 to |challenges|
      invariant ChallengeFor(challenges, scheme) == ChallengeFor(challenges[i..], scheme)
    {
      var trimmed := TrimSpace(challenges[i]);
      if EqualFold(Head(trimmed), scheme) {
        return Tail(trimmed);
      }
    }
    return "";
  }

  predicate Mentions(value: string, scheme: string) { EqualFold(Head(TrimSpace(value)), scheme) }

  /** The position of the first value from `i` on that mentions the scheme, or the number of values. */
  function FirstMention(challenges: seq<string>, scheme: string, i: nat): (r: nat)
    requires i <= |challenges|
    ensures i <= r <= |challenges| && (r < |challenges| ==> Mentions(challenges[r], scheme))
    ensures forall j :: i <= j < r ==> !Mentions(challenges[j], scheme)
    decreases |challenges| - i
  {
    if i == |challenges| || Mentions(challenges[i], scheme) then i else FirstMention(challenges, scheme, i + 1)
  }

  function MentionText(challenges: seq<string>, i: nat): string {
    if i < |challenges| then Tail(TrimSpace(challenges[i])) else ""
  }

  lemma {:induction false} ChallengeForIsFirstMention(challenges: seq<string>, scheme: string, i: nat)
    requires i <= |challenges|
    ensures ChallengeFor(challenges[i..], scheme) == MentionText(challenges, FirstMention(challenges, scheme, i))
    decreases |challenges| - i
  {
    if i < |challenges| {
      assert challenges[i..][1..] == challenges[i + 1..];
      ChallengeForIsFirstMention(challenges, scheme, i + 1);
    }
  }

  /** The first reply is read by the last value that offers the chosen scheme, later replies by the first one that
      mentions it ("" when none does): the two rules give the same text exactly when these two values carry it. */
  lemma FirstAndLastOffer(challenges: seq<string>, scheme: string, last: nat)
    requires LastAt(OffersIn(challenges), scheme) == last
    ensures scheme in Collect(OffersIn(challenges))
    ensures Collect(OffersIn(challenges))[scheme] == TrimSpace(ChallengeFor(challenges, scheme))
            <==> TrimSpace(Tail(TrimSpace(challenges[last]))) == TrimSpace(MentionText(challenges, FirstMention(challenges, scheme, 0)))
  {
    CollectHoldsLast(OffersIn(challenges), scheme);
    ChallengeForIsFirstMention(challenges, scheme, 0);
    assert challenges[0..] == challenges;
  }

  /** A value whose first word ends in no white space offers a scheme exactly when it mentions it. */
  lemma MentionIsOffer(value: string, scheme: string)
    requires scheme != "" && ToUpper(scheme) == scheme && Trimmed(Head(TrimSpace(value)))
    ensures Mentions(value, scheme) <==> OfferIn(value).Some? && OfferIn(value).value.0 == scheme
  {
    TrimmedFixed(Head(TrimSpace(value)));
  }

  // ---------------------------------------------------------------- lists on which the rules differ

  /** A word in upper case without white space. */
  predicate Name(s: string) { s != "" && ToUpper(s) == s && forall i :: 0 <= i < |s| ==> !IsSpace(s[i]) }

  predicate Chunk(s: string) { s != "" && Trimmed(s) }

  lemma ValueParts(value: string, word: string, rest: string)
    requires (forall i :: 0 <= i < |word| ==> word[i] != ' ') && word != "" && !IsSpace(word[0])
    requires value == word + [' '] + rest && Chunk(rest)
    ensures Head(TrimSpace(value)) == word && Tail(TrimSpace(value)) == rest
    ensures OfferIn(value) == Some((ToUpper(TrimSpace(word)), rest))
  {
    assert value[0] == word[0] && value[|value| - 1] == rest[|rest| - 1];
    TrimmedFixed(value);
    FindIn(word, rest, ' ');
    TrimmedFixed(rest);
  }

  lemma LastOfTwo<K, V>(offers: seq<Option<(K, V)>>, key: K, a: V, b: V)
    requires offers == [Some((key, a)), Some((key, b))]
    ensures LastAt(offers, key) == 1
  {}

  /** Two offers of one scheme: the last is taken first, the first later. */
  lemma RepeatedOfferDiffers(challenges: seq<string>, scheme: string, a: string, b: string)
    requires Name(scheme) && Chunk(a) && Chunk(b)
    requires |challenges| == 2 && challenges[0] == scheme + [' '] + a && challenges[1] == scheme + [' '] + b
    ensures scheme in Collect(OffersIn(challenges)) && Collect(OffersIn(challenges))[scheme] == b
    ensures ChallengeFor(challenges, scheme) == a
  {
    ValueParts(challenges[0], scheme, a);
    ValueParts(challenges[1], scheme, b);
    TrimmedFixed(scheme);
    LastOfTwo(OffersIn(challenges), scheme, a, b);
    CollectHoldsLast(OffersIn(challenges), scheme);
  }

  /** A single offer with a tab behind its scheme: it is offered but never mentioned. */
  lemma TabbedOfferDiffers(value: string, scheme: string, a: string)
    requires Name(scheme) && Chunk(a) && value == scheme + ['\t'] + [' '] + a
    ensures scheme in Collect(OffersIn([value])) && Collect(OffersIn([value]))[scheme] == a
    ensures ChallengeFor([value], scheme) == ""
  {
    var word := scheme + ['\t'];
    ValueParts(value, word, a);
    TrimTrailingSpace(scheme, '\t');
    assert |ToUpper(word)| != |ToUpper(scheme)|;
    assert !Mentions(value, scheme);
    var offers := OffersIn([value]);
    assert offers[0] == Some((scheme, a));
    assert LastAt(offers, scheme) == 0;
    CollectHoldsLast(offers, scheme);
    assert ChallengeFor([value], scheme) == ChallengeFor([value][1..], scheme);
  }

  /** The values "DIGEST a" and "DIGEST b". */
  lemma RepeatedDigest(scheme: string, challenges: seq<string>)
    requires scheme == "DIGEST" && challenges == ["DIGEST a", "DIGEST b"]
    ensures scheme in Collect(OffersIn(challenges)) && Collect(OffersIn(challenges))[scheme] == "b"
    ensures ChallengeFor(challenges, scheme) == "a"
  {
    DigestIsName(scheme);
    var a, b := "a", "b";
    assert challenges[0] == scheme + [' '] + a && challenges[1] == scheme + [' '] + b;
    RepeatedOfferDiffers(challenges, scheme, a, b);
  }

  /** The value "DIGEST", tab, blank, "x". */
  lemma TabbedDigest(scheme: string, value: string)
    requires scheme == "DIGEST" && value == "DIGEST\t x"
    ensures scheme in Collect(OffersIn([value])) && Collect(OffersIn([value]))[scheme] == "x"
    ensures ChallengeFor([value], scheme) == ""
  {
    DigestIsName(scheme);
    var x := "x";
    assert value == scheme + ['\t'] + [' '] + x;
    TabbedOfferDiffers(value, scheme, x);
  }

  lemma LettersAreName(scheme: string)
    requires scheme != "" && forall i :: 0 <= i < |scheme| ==> 'A' <= scheme[i] <= 'Z'
    ensures Name(scheme)
  {
    assert forall i :: 0 <= i < |scheme| ==> UpperChar(scheme[i]) == scheme[i];
  }

  lemma DigestIsName(scheme: string)
    requires scheme == "DIGEST"
    ensures Name(scheme) && Chunk("a") && Chunk("b") && Chunk("x")
  {
    forall i | 0 <= i < |scheme| ensures 'A' <= scheme[i] <= 'Z' {}
    LettersAreName(scheme);
  }
}
