/** The upstream authentication sessions of internal/auth. Message contents, the digest hash and the security
    libraries are abstract: a header says which message it carries and what it was made from. */
module AuthSessions {
  import Text

  datatype Scheme = BASIC | DIGEST | NTLM | NEGOTIATE

  datatype Header =
    | Absent
    | Client(text: string)
    | Basic(username: string)
    | Digest(nc: nat, challenge: string)
    | Type1
    | Type3(challenge: string)
    | Negotiate(challenge: string)

  datatype Token = Failed | Made(header: Header)

  /** What the libraries do during one call: whether they succeed, and whether SSPI reports completion. */
  datatype Library = Library(ok: bool, complete: bool)

  predicate Blank(challenge: string) { Text.TrimSpace(challenge) == "" }

  /** The value of a session: its scheme and the field its Token method updates. */
  datatype State =
    | BasicState(username: string)
    | DigestState(nc: nat)
    | NTLMState(stage: nat)
    | NegotiateState(sspi: bool, done: bool)
  {
    function Scheme(): Scheme {
      match this
      case BasicState(_) => BASIC case DigestState(_) => DIGEST case NTLMState(_) => NTLM case NegotiateState(_, _) => NEGOTIATE
    }
  }

  function Initial(scheme: Scheme, username: string, sspi: bool): State {
    match scheme
    case BASIC => BasicState(username) case DIGEST => DigestState(0) case NTLM => NTLMState(0) case NEGOTIATE => NegotiateState(sspi, false)
  }

  /** One call of Token on values: the token and the new state. */
  function TokenFrom(s: State, challenge: string, lib: Library): (Token, State) {
    match s
    case BasicState(username) => (if username == "" then Failed else Made(Basic(username)), s)
    case DigestState(nc) => (Made(Digest(nc + 1, challenge)), DigestState(nc + 1))
    case NTLMState(stage) =>
      if stage == 0 then (if lib.ok then (Made(Type1), NTLMState(1)) else (Failed, s))
      else if stage == 1 then
        if lib.ok && !Blank(challenge) then (Made(Type3(challenge)), NTLMState(2)) else (Failed, s)
      else (Made(Absent), s)
    case NegotiateState(sspi, done) =>
      if done then (Made(Absent), s)
      else if !lib.ok then (Failed, s)
      else (Made(Negotiate(challenge)), NegotiateState(sspi, sspi && lib.complete))
  }

  class DigestSession {
    var nc: nat

    constructor ()
      ensures nc == 0
    {
      nc := 0;
    }

    method Token(challenge: string) returns (t: Token)
      modifies this
      ensures (t, DigestState(nc)) == TokenFrom(DigestState(old(nc)), challenge, Library(true, true))
    {
      nc := nc + 1;
      return Made(Digest(nc, challenge));
    }
  }

  class NTLMSession {
    var stage: nat

    constructor ()
      ensures stage == 0
    {
      stage := 0;
    }

    method Token(challenge: string, lib: Library) returns (t: Token)
      modifies this
      ensures (t, NTLMState(stage)) == TokenFrom(NTLMState(old(stage)), challenge, lib)
    {
      match stage {
        case 0 =>
          if !lib.ok {
            return Failed;
          }
          stage := 1;
          return Made(Type1);
        case 1 =>
          if Blank(challenge) || !lib.ok {
            return Failed;
          }
          stage := 2;
          return Made(Type3(challenge));
        case _ =>
          return Made(Absent);
      }
    }
  }

  class NegotiateSession {
    const sspi: bool
    var done: bool

    constructor (sspi: bool)
      ensures this.sspi == sspi && !done
    {
      this.sspi, done := sspi, false;
    }

    method Token(challenge: string, lib: Library) returns (t: Token)
      modifies this
      ensures (t, NegotiateState(sspi, done)) == TokenFrom(NegotiateState(sspi, old(done)), challenge, lib)
    {
      if done {
        return Made(Absent);
      }
      if !lib.ok {
        return Failed;
      }
      if sspi {
        done := lib.complete;
      }
      return Made(Negotiate(challenge));
    }
  }

  datatype Session =
    | BasicSession(username: string)
    | OfDigest(digest: DigestSession)
    | OfNTLM(ntlm: NTLMSession)
    | OfNegotiate(negotiate: NegotiateSession)
  {
    function Scheme(): Scheme {
      match this
      case BasicSession(_) => BASIC case OfDigest(_) => DIGEST case OfNTLM(_) => NTLM case OfNegotiate(_) => NEGOTIATE
    }

    function State(): (s: State)
      reads Objects()
      ensures s.Scheme() == Scheme()
    {
      match this
      case BasicSession(username) => BasicState(username)
      case OfDigest(d) => DigestState(d.nc)
      case OfNTLM(n) => NTLMState(n.stage)
      case OfNegotiate(g) => NegotiateState(g.sspi, g.done)
    }

    ghost function Objects(): set<object> {
      match this
      case BasicSession(_) => {}
      case OfDigest(d) => {d}
      case OfNTLM(n) => {n}
      case OfNegotiate(g) => {g}
    }

    method Token(challenge: string, lib: Library) returns (t: Token)
      modifies Objects()
      ensures (t, State()) == TokenFrom(old(State()), challenge, lib)
    {
      match this {
        case BasicSession(username) => t := if username == "" then Failed else Made(Basic(username));
        case OfDigest(d) => t := d.Token(challenge);
        case OfNTLM(n) => t := n.Token(challenge, lib);
        case OfNegotiate(g) => t := g.Token(challenge, lib);
      }
    }
  }

  method NewSession(scheme: Scheme, username: string, sspi: bool) returns (s: Session)
    ensures fresh(s.Objects()) && s.State() == Initial(scheme, username, sspi)
  {
    match scheme {
      case BASIC => s := BasicSession(username);
      case DIGEST => var d := new DigestSession(); s := OfDigest(d);
      case NTLM => var n := new NTLMSession(); s := OfNTLM(n);
      case NEGOTIATE => var g := new NegotiateSession(sspi); s := OfNegotiate(g);
    }
  }

  // ---------------------------------------------------------------- runs of a session

  /** The state after the first `n` calls, all successful; call `i` gets `challenge(i)` and `lib(i)`. */
  function StateAfter(s: State, challenge: nat -> string, lib: nat -> Library, n: nat): State {
    if n == 0 then s else TokenFrom(StateAfter(s, challenge, lib, n - 1), challenge(n - 1), lib(n - 1)).1
  }

  predicate AllSucceed(s: State, challenge: nat -> string, lib: nat -> Library, n: nat) {
    n == 0 || (AllSucceed(s, challenge, lib, n - 1) && TokenFrom(StateAfter(s, challenge, lib, n - 1), challenge(n - 1), lib(n - 1)).0.Made?)
  }

  /** The header of call `i`, said without a session. */
  ghost function HeaderOf(scheme: Scheme, username: string, sspi: bool, challenge: nat -> string, lib: nat -> Library, i: nat): Header {
    match scheme
    case BASIC => Basic(username)
    case DIGEST => Digest(i + 1, challenge(i))
    case NTLM => if i == 0 then Type1 else if i == 1 then Type3(challenge(1)) else Absent
    case NEGOTIATE => if sspi && (exists j: nat :: j < i && lib(j).complete) then Absent else Negotiate(challenge(i))
  }

  lemma {:induction false} StateInClosedForm(scheme: Scheme, username: string, sspi: bool, challenge: nat -> string, lib: nat -> Library, n: nat)
    requires AllSucceed(Initial(scheme, username, sspi), challenge, lib, n)
    ensures var s := StateAfter(Initial(scheme, username, sspi), challenge, lib, n);
            match scheme
            case BASIC => s == BasicState(username)
            case DIGEST => s == DigestState(n)
            case NTLM => s == NTLMState(if n < 2 then n else 2)
            case NEGOTIATE => s == NegotiateState(sspi, sspi && exists j: nat :: j < n && lib(j).complete)
  {
    if n > 0 {
      StateInClosedForm(scheme, username, sspi, challenge, lib, n - 1);
    }
  }

  /** Every successful call of a session makes the header the scheme prescribes at that point. */
  lemma TokensInClosedForm(scheme: Scheme, username: string, sspi: bool, challenge: nat -> string, lib: nat -> Library, n: nat)
    requires AllSucceed(Initial(scheme, username, sspi), challenge, lib, n + 1)
    ensures TokenFrom(StateAfter(Initial(scheme, username, sspi), challenge, lib, n), challenge(n), lib(n)).0
            == Made(HeaderOf(scheme, username, sspi, challenge, lib, n))
  {
    StateInClosedForm(scheme, username, sspi, challenge, lib, n);
  }

  /** The calls that fail: Basic without a user name, a blank NTLM challenge, and library errors, which a Negotiate
      session meets only until SSPI has reported completion. */
  ghost predicate Fails(scheme: Scheme, username: string, sspi: bool, challenge: nat -> string, lib: nat -> Library, i: nat) {
    match scheme
    case BASIC => username == ""
    case DIGEST => false
    case NTLM => (i < 2 && !lib(i).ok) || (i == 1 && Blank(challenge(1)))
    case NEGOTIATE => !lib(i).ok && !(sspi && exists j: nat :: j < i && lib(j).complete)
  }

  /** A call after successful ones fails exactly as Fails says. */
  lemma FailureInClosedForm(scheme: Scheme, username: string, sspi: bool, challenge: nat -> string, lib: nat -> Library, n: nat)
    requires AllSucceed(Initial(scheme, username, sspi), challenge, lib, n)
    ensures TokenFrom(StateAfter(Initial(scheme, username, sspi), challenge, lib, n), challenge(n), lib(n)).0.Failed?
            <==> Fails(scheme, username, sspi, challenge, lib, n)
  {
    StateInClosedForm(scheme, username, sspi, challenge, lib, n);
  }
}
