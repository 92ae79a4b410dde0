/** The program's own rules for choosing a scheme, as the configuration of an exchange with an upstream proxy. */
module UpstreamPolicy {
  import opened Basics
  import Text
  import C = Challenges
  import opened AuthSessions
  import opened Upstream
  import UpstreamConnect

  function NameOf(scheme: Scheme): string {
    match scheme
    case BASIC => "BASIC" case DIGEST => "DIGEST" case NTLM => "NTLM" case NEGOTIATE => "NEGOTIATE"
  }

  /** The scheme that Factory.NewSession makes of a name, if it knows it. */
  function SchemeNamed(name: string): Option<Scheme> {
    var n := Text.ToUpper(Text.TrimSpace(name));
    if n == NameOf(BASIC) then Some(BASIC)
    else if n == NameOf(DIGEST) then Some(DIGEST)
    else if n == NameOf(NTLM) then Some(NTLM)
    else if n == NameOf(NEGOTIATE) then Some(NEGOTIATE)
    else None
  }

  function ChoiceOf(auth: string, challenges: seq<string>): Choice {
    var choice := C.Choose(auth, challenges);
    if choice.None? then NoScheme
    else
      var scheme := SchemeNamed(choice.value.0);
      if scheme.None? then UnknownScheme else Chosen(scheme.value, choice.value.1)
  }

  function ConfigFor(auth: string, username: string, sspi: bool): Config {
    Config(Text.EqualFold(auth, "NONE"), cs => ChoiceOf(auth, cs), (cs, s) => C.ChallengeFor(cs, NameOf(s)), username, sspi)
  }

  lemma NamesAreUpper(s: Scheme)
    ensures Text.ToUpper(NameOf(s)) == NameOf(s) && Text.TrimSpace(NameOf(s)) == NameOf(s)
  {
    Text.TrimmedFixed(NameOf(s));
  }

  lemma NamesDiffer(s: Scheme, t: Scheme)
    requires s != t
    ensures NameOf(s) != NameOf(t)
  {
    assert NameOf(s)[0] != NameOf(t)[0] || NameOf(s)[1] != NameOf(t)[1];
  }

  lemma NamedBack(s: Scheme)
    ensures SchemeNamed(NameOf(s)) == Some(s)
  {
    NamesAreUpper(s);
    forall t | t != s ensures NameOf(t) != NameOf(s) { NamesDiffer(s, t); }
  }

  lemma ListedIsNamed(name: string) returns (s: Scheme)
    requires name in C.ALL
    ensures name == NameOf(s) && (name in C.SAFE ==> s != BASIC)
  {
    if name == C.ALL[0] {
      s := NEGOTIATE;
    } else if name == C.ALL[1] {
      s := NTLM;
    } else if name == C.ALL[2] {
      s := DIGEST;
    } else {
      s := BASIC;
      assert forall i :: 0 <= i < 3 ==> C.SAFE[i] == C.ALL[i];
    }
  }

  /** The preferences that name a list of schemes to pick from. */
  predicate Lists(auth: string) {
    forall j :: 0 <= j < |C.PreferenceOrder(auth)| ==> C.PreferenceOrder(auth)[j] in C.ALL
  }

  /** A session can always be opened for a scheme picked from a list. */
  lemma ListedChoiceIsSupported(auth: string, challenges: seq<string>)
    requires Lists(auth)
    ensures !ChoiceOf(auth, challenges).UnknownScheme?
  {
    var choice := C.Choose(auth, challenges);
    if choice.Some? {
      var s := ListedIsNamed(choice.value.0);
      NamedBack(s);
    }
  }

  predicate Safe(auth: string) {
    var p := Text.ToUpper(Text.TrimSpace(auth));
    p == "ANYSAFE" || "SAFENO" <= p
  }

  /** Under a safe preference the Basic scheme is never chosen. */
  lemma SafeChoiceIsNotBasic(auth: string, challenges: seq<string>)
    requires Safe(auth)
    ensures ChoiceOf(auth, challenges).Chosen? ==> ChoiceOf(auth, challenges).scheme != BASIC
  {
    var choice := C.Choose(auth, challenges);
    if choice.Some? {
      C.ChoiceRespectsPreference(auth, challenges);
      SafeIsListed(choice.value.0);
      var s := ListedIsNamed(choice.value.0);
      NamedBack(s);
    }
  }

  lemma SafeIsListed(name: string)
    requires name in C.SAFE
    ensures name in C.ALL
  {
    assert forall i :: 0 <= i < 3 ==> C.SAFE[i] == C.ALL[i];
  }

  lemma HeaderIsNotBasic(cfg: Config, r: Request, env: nat -> Attempt, i: nat)
    requires !FirstChoice(cfg, env).Chosen? || FirstChoice(cfg, env).scheme != BASIC
    ensures !ExpectedHeader(cfg, r, env, i).Basic?
  {}

  /** Whatever the upstream answers, no exchange under a safe preference writes the Basic credentials. */
  lemma SafeNeverSendsBasic(auth: string, username: string, sspi: bool, cfg: Config, r: Request, env: nat -> Attempt,
                            outcome: Outcome, log: seq<Event>)
    requires Safe(auth) && cfg == ConfigFor(auth, username, sspi) && Exchanged(cfg, r, env, outcome, log)
    ensures forall i :: 0 <= i < |Headers(log)| ==> !Headers(log)[i].Basic?
  {
    assert FirstChoice(cfg, env) == ChoiceOf(auth, env(0).reply.challenges);
    SafeChoiceIsNotBasic(auth, env(0).reply.challenges);
    HeadersAreNotBasic(cfg, r, env, Headers(log));
  }

  lemma HeadersAreNotBasic(cfg: Config, r: Request, env: nat -> Attempt, headers: seq<Header>)
    requires Expected(headers, cfg, r, env) && (FirstChoice(cfg, env).Chosen? ==> FirstChoice(cfg, env).scheme != BASIC)
    ensures forall i :: 0 <= i < |headers| ==> !headers[i].Basic?
  {
    forall i | 0 <= i < |headers| ensures !headers[i].Basic? { HeaderIsNotBasic(cfg, r, env, i); }
  }

  /** A peer that answers CONNECT with a 407 and no challenge at all makes the program abandon an open connection. */
  lemma BareChallengeAbandons(username: string, sspi: bool, cfg: Config, env: nat -> Attempt)
    requires cfg == ConfigFor("ANY", username, sspi)
    requires forall i: nat :: env(i) == Attempt(true, true, true, Reply(407, [], false), Library(true, true))
    ensures UpstreamConnect.Abandons(cfg, env)
  {
    var auth := "ANY";
    assert cfg.none == (Text.ToUpper(auth) == Text.ToUpper("NONE"));
    assert |Text.ToUpper(auth)| == 3 && |Text.ToUpper("NONE")| == 4;
    NothingOffered(auth);
    UpstreamConnect.UnacceptableChallengeAbandons(cfg, env);
  }

  lemma NothingOffered(auth: string)
    ensures ChoiceOf(auth, []) == NoScheme
  {
    assert C.OffersIn([]) == [];
  }

  // ---------------------------------------------------------------- the texts of the challenges

  lemma OfferedNameIsFolded(challenges: seq<string>, name: string)
    requires C.LastAt(C.OffersIn(challenges), name) >= 0
    ensures Text.ToUpper(Text.TrimSpace(name)) == name
  {
    var i := C.LastAt(C.OffersIn(challenges), name);
    var word := Text.TrimSpace(C.Head(Text.TrimSpace(challenges[i])));
    assert C.OffersIn(challenges)[i] == C.OfferIn(challenges[i]) && name == Text.ToUpper(word);
    Text.TrimSpaceTrims(C.Head(Text.TrimSpace(challenges[i])));
    Text.ToUpperKeeps(word);
    Text.TrimmedFixed(name);
  }

  /** The challenge text handed to a new session is that of the last value that offers the chosen scheme. */
  lemma FirstTextIsLastOffer(auth: string, challenges: seq<string>)
    requires ChoiceOf(auth, challenges).Chosen?
    ensures var choice := ChoiceOf(auth, challenges); var i := C.LastAt(C.OffersIn(challenges), NameOf(choice.scheme));
            0 <= i < |challenges| && choice.challenge == Text.TrimSpace(C.Tail(Text.TrimSpace(challenges[i])))
  {
    var choice := C.Choose(auth, challenges).value;
    ChosenIsLastOffer(auth, challenges);
    ChosenNameOf(auth, challenges, choice.0);
    var i := C.LastAt(C.OffersIn(challenges), choice.0);
    assert C.OffersIn(challenges)[i] == C.OfferIn(challenges[i]);
  }

  lemma ChosenIsLastOffer(auth: string, challenges: seq<string>)
    requires C.Choose(auth, challenges).Some?
    ensures var choice := C.Choose(auth, challenges).value; var i := C.LastAt(C.OffersIn(challenges), choice.0);
            i >= 0 && C.OffersIn(challenges)[i].value == choice
  {
    var order, offers, choice := C.PreferenceOrder(auth), C.OffersIn(challenges), C.Select(C.PreferenceOrder(auth), C.OffersIn(challenges)).value;
    SelectedIsLast(order, offers, choice);
  }

  lemma SelectedIsLast<K, V>(order: seq<K>, offers: seq<Option<(K, V)>>, choice: (K, V))
    requires C.Select(order, offers) == Some(choice)
    ensures C.LastAt(offers, choice.0) >= 0 && offers[C.LastAt(offers, choice.0)].value == choice
  {
    var k :| 0 <= k < |order| && C.Selected(order, offers, k, choice);
    assert choice.0 == order[k];
  }

  lemma ChosenNameOf(auth: string, challenges: seq<string>, name: string)
    requires ChoiceOf(auth, challenges).Chosen? && name == C.Choose(auth, challenges).value.0
    ensures name == NameOf(ChoiceOf(auth, challenges).scheme)
  {
    ChosenIsLastOffer(auth, challenges);
    OfferedNameIsFolded(challenges, name);
    NamedIs(name);
  }

  lemma NamedIs(name: string)
    requires Text.ToUpper(Text.TrimSpace(name)) == name && SchemeNamed(name).Some?
    ensures name == NameOf(SchemeNamed(name).value)
  {}

  /** The text handed to it later is that of the first value that mentions the scheme, "" when none does. */
  lemma LaterTextIsFirstMention(auth: string, username: string, sspi: bool, challenges: seq<string>, s: Scheme)
    ensures ConfigFor(auth, username, sspi).later(challenges, s) == C.MentionText(challenges, C.FirstMention(challenges, NameOf(s), 0))
  {
    C.ChallengeForIsFirstMention(challenges, NameOf(s), 0);
    assert challenges[0..] == challenges;
  }

  /** Under the default preference the strongest offered scheme is used. */
  lemma DefaultUsesStrongest(auth: string, challenges: seq<string>)
    requires var p := Text.ToUpper(Text.TrimSpace(auth)); p == "" || p == "ANY"
    ensures var choice := ChoiceOf(auth, challenges);
            if C.IsOffered(challenges, NameOf(NEGOTIATE)) then choice.Chosen? && choice.scheme == NEGOTIATE
            else if C.IsOffered(challenges, NameOf(NTLM)) then choice.Chosen? && choice.scheme == NTLM
            else if C.IsOffered(challenges, NameOf(DIGEST)) then choice.Chosen? && choice.scheme == DIGEST
            else if C.IsOffered(challenges, NameOf(BASIC)) then choice.Chosen? && choice.scheme == BASIC
            else choice == NoScheme
  {
    C.AnyPrefersSafe(auth, challenges);
    NamedBack(NEGOTIATE);
    NamedBack(NTLM);
    NamedBack(DIGEST);
    NamedBack(BASIC);
  }

  /** In every exchange with NTLM the Type3 message is made from the first value of the second reply that mentions NTLM. */
  lemma NTLMUsesMention(auth: string, username: string, sspi: bool, cfg: Config, r: Request, env: nat -> Attempt, headers: seq<Header>)
    requires cfg == ConfigFor(auth, username, sspi) && Expected(headers, cfg, r, env) && |headers| > 2
    requires FirstChoice(cfg, env).Chosen? && FirstChoice(cfg, env).scheme == NTLM
    ensures var cs := env(1).reply.challenges; headers[2] == Type3(C.MentionText(cs, C.FirstMention(cs, NameOf(NTLM), 0)))
  {
    SecondAnswer(cfg, r, env, headers, cfg.later(env(1).reply.challenges, NTLM));
    LaterTextIsFirstMention(auth, username, sspi, env(1).reply.challenges, NTLM);
  }

  lemma SecondAnswer(cfg: Config, r: Request, env: nat -> Attempt, headers: seq<Header>, text: string)
    requires Expected(headers, cfg, r, env) && |headers| > 2 && text == cfg.later(env(1).reply.challenges, NTLM)
    requires FirstChoice(cfg, env).Chosen? && FirstChoice(cfg, env).scheme == NTLM
    ensures headers[2] == Type3(text)
  {
    assert headers[2] == ExpectedHeader(cfg, r, env, 2);
  }

  lemma FirstAnswer(cfg: Config, r: Request, env: nat -> Attempt, headers: seq<Header>, choice: Choice)
    requires Expected(headers, cfg, r, env) && |headers| > 1 && choice == FirstChoice(cfg, env) && choice.Chosen? && choice.scheme == DIGEST
    ensures headers[1] == Digest(1, choice.challenge)
  {
    assert headers[1] == ExpectedHeader(cfg, r, env, 1);
  }

  /** With Digest the first answer is made from the last value of the first reply that offers Digest. */
  lemma DigestUsesOffer(auth: string, username: string, sspi: bool, cfg: Config, r: Request, env: nat -> Attempt, headers: seq<Header>)
    requires cfg == ConfigFor(auth, username, sspi) && Expected(headers, cfg, r, env) && |headers| > 1
    requires FirstChoice(cfg, env).Chosen? && FirstChoice(cfg, env).scheme == DIGEST
    ensures var cs := env(0).reply.challenges; var i := C.LastAt(C.OffersIn(cs), NameOf(DIGEST));
            0 <= i < |cs| && headers[1] == Digest(1, Text.TrimSpace(C.Tail(Text.TrimSpace(cs[i]))))
  {
    var choice := ChoiceOf(auth, env(0).reply.challenges);
    FirstAnswer(cfg, r, env, headers, choice);
    FirstTextIsLastOffer(auth, env(0).reply.challenges);
  }
}
