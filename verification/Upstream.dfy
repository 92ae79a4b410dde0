/** The exchange with an upstream proxy: roundTripProxy of internal/proxy/handler.go, against an arbitrary peer.
    How a scheme is chosen is a parameter here; module UpstreamPolicy supplies the program's rules. */
module Upstream {
  import opened Basics
  import opened AuthSessions

  datatype Choice = NoScheme | UnknownScheme | Chosen(scheme: Scheme, challenge: string)

  /** Whether authentication is off, the choice made from the first challenges, the text taken from later ones,
      and what sessions are made from. */
  datatype Config = Config(none: bool, choose: seq<string> -> Choice, later: (seq<string>, Scheme) -> string,
                           username: string, sspi: bool)

  /** The request: the client's own Proxy-Authorization value ("" when it sent none) and the buffered body. */
  datatype Request = Request(clientAuth: string, body: string)

  datatype Reply = Reply(status: nat, challenges: seq<string>, close: bool)

  /** What an attempt meets: whether dialling, writing and reading succeed, the reply, and the libraries. */
  datatype Attempt = Attempt(dialOk: bool, writeOk: bool, readOk: bool, reply: Reply, lib: Library)

  datatype Outcome = Returned(reply: Reply) | DialError | WriteError | ReadError | Unsupported | TokenError | AuthFailed

  datatype Event =
    | Dialled(conn: nat)
    | Wrote(conn: nat, header: Header, body: string)
    | Received(conn: nat, reply: Reply)
    | Closed(conn: nat)
    | SessionOpened(scheme: Scheme)
    | SessionClosed

  /** The header of cloneForWrite: the session's, else the client's own when authentication is off. */
  function WrittenHeader(cfg: Config, r: Request, auth: Header): Header {
    if auth.Absent? && cfg.none && r.clientAuth != "" then Client(r.clientAuth) else auth
  }

  // ---------------------------------------------------------------- the monitor

  /** What a log leaves behind: connections dialled so far, the open one, whether the last reply announced a
      close, and the session. */
  datatype Monitor = Monitor(dialled: nat, open: Option<nat>, closing: bool, began: bool, ended: bool)

  /** None when the event breaks the rules: a connection is dialled only when none is open, and again only after
      a reply that announced a close; only the open connection is written, read and closed; one session is
      opened at most, and closed once. */
  function Observe(m: Monitor, e: Event): Option<Monitor> {
    match e
    case Dialled(c) =>
      if m.open.None? && c == m.dialled && (c == 0 || m.closing) then Some(m.(dialled := c + 1, open := Some(c), closing := false)) else None
    case Wrote(c, _, _) => if m.open == Some(c) then Some(m) else None
    case Received(c, reply) => if m.open == Some(c) then Some(m.(closing := reply.close)) else None
    case Closed(c) => if m.open == Some(c) then Some(m.(open := None)) else None
    case SessionOpened(_) => if m.began then None else Some(m.(began := true))
    case SessionClosed => if m.began && !m.ended then Some(m.(ended := true)) else None
  }

  function Track(log: seq<Event>): Option<Monitor> {
    if log == [] then Some(Monitor(0, None, false, false, false))
    else
      var m := Track(log[..|log| - 1]);
      if m.None? then None else Observe(m.value, log[|log| - 1])
  }

  lemma TrackSnoc(log: seq<Event>, e: Event)
    ensures Track(log + [e]) == if Track(log).None? then None else Observe(Track(log).value, e)
  {
    assert (log + [e])[..|log|] == log;
  }

  // ---------------------------------------------------------------- projections

  function Headers(log: seq<Event>): seq<Header> {
    if log == [] then []
    else Headers(log[..|log| - 1]) + if log[|log| - 1].Wrote? then [log[|log| - 1].header] else []
  }

  lemma HeadersSnoc(log: seq<Event>, e: Event)
    ensures Headers(log + [e]) == if e.Wrote? then Headers(log) + [e.header] else Headers(log)
  {
    assert (log + [e])[..|log|] == log;
  }

  ghost predicate SameBody(log: seq<Event>, body: string) {
    forall i :: 0 <= i < |log| && log[i].Wrote? ==> log[i].body == body
  }

  // ---------------------------------------------------------------- the expected headers

  /** The choice made from the reply to the first request. */
  function FirstChoice(cfg: Config, env: nat -> Attempt): Choice { cfg.choose(env(0).reply.challenges) }

  /** The challenge text handed to call `i` of the session. */
  function ChallengeText(cfg: Config, env: nat -> Attempt, scheme: Scheme): nat -> string {
    (i: nat) => if i == 0 then (if FirstChoice(cfg, env).Chosen? then FirstChoice(cfg, env).challenge else "")
                else cfg.later(env(i).reply.challenges, scheme)
  }

  function Libraries(env: nat -> Attempt): nat -> Library { (i: nat) => env(i).lib }

  ghost function ExpectedHeader(cfg: Config, r: Request, env: nat -> Attempt, i: nat): Header {
    if i == 0 then WrittenHeader(cfg, r, Absent)
    else match FirstChoice(cfg, env)
      case NoScheme => Absent
      case UnknownScheme => Absent
      case Chosen(s, _) => HeaderOf(s, cfg.username, cfg.sspi, ChallengeText(cfg, env, s), Libraries(env), i - 1)
  }

  // ---------------------------------------------------------------- what the peer decides

  ghost predicate Answered(env: nat -> Attempt, i: nat) { env(i).writeOk && env(i).readOk }

  /** Attempt `i` meets a 407 that the program tries to answer. */
  ghost predicate IsChallenged(cfg: Config, env: nat -> Attempt, i: nat) {
    Answered(env, i) && env(i).reply.status == 407 && !cfg.none
  }

  /** Call `n` of the session cannot make a token. */
  ghost predicate CallFails(cfg: Config, env: nat -> Attempt, scheme: Scheme, n: nat) {
    Fails(scheme, cfg.username, cfg.sspi, ChallengeText(cfg, env, scheme), Libraries(env), n)
  }

  /** The challenge at attempt `i` can be answered: a scheme was chosen and its session makes a token. */
  ghost predicate CanAnswer(cfg: Config, env: nat -> Attempt, i: nat) {
    FirstChoice(cfg, env).Chosen? && !CallFails(cfg, env, FirstChoice(cfg, env).scheme, i)
  }

  ghost predicate GoesOn(cfg: Config, env: nat -> Attempt, i: nat) { IsChallenged(cfg, env, i) && CanAnswer(cfg, env, i) }

  /** Attempt `i` needs a new connection: it is the first, or the reply before it announced a close. */
  ghost predicate MustDial(env: nat -> Attempt, i: nat) { i == 0 || env(i - 1).reply.close }

  ghost predicate HasConn(env: nat -> Attempt, i: nat) { MustDial(env, i) ==> env(i).dialOk }

  /** Each of the first `n` attempts had a connection, met a challenge and answered it. */
  ghost predicate Continued(cfg: Config, env: nat -> Attempt, n: nat) {
    forall i: nat :: i < n ==> HasConn(env, i) && GoesOn(cfg, env, i)
  }

  lemma ContinuedAt(cfg: Config, env: nat -> Attempt, n: nat, i: nat)
    ensures Continued(cfg, env, n) && i < n ==> HasConn(env, i) && GoesOn(cfg, env, i)
  {}

  /** Attempt `i` gives the outcome. */
  ghost predicate EndsAs(cfg: Config, env: nat -> Attempt, outcome: Outcome, i: nat) {
    match outcome
    case Returned(reply) =>
      Answered(env, i) && reply == env(i).reply && (reply.status != 407 || cfg.none || FirstChoice(cfg, env).NoScheme?)
    case WriteError => !env(i).writeOk
    case ReadError => env(i).writeOk && !env(i).readOk
    case Unsupported => IsChallenged(cfg, env, i) && FirstChoice(cfg, env).UnknownScheme?
    case TokenError => IsChallenged(cfg, env, i) && FirstChoice(cfg, env).Chosen? && !CanAnswer(cfg, env, i)
    case _ => false
  }

  /** The outcome after `n` requests, with its reason. */
  ghost predicate Explained(cfg: Config, env: nat -> Attempt, outcome: Outcome, n: nat) {
    if outcome.DialError? then n < 4 && Continued(cfg, env, n) && !HasConn(env, n)
    else if outcome.AuthFailed? then n == 4 && Continued(cfg, env, 4)
    else 1 <= n <= 4 && Continued(cfg, env, n - 1) && HasConn(env, n - 1) && EndsAs(cfg, env, outcome, n - 1)
  }

  /** An attempt that ends the exchange is not one that it continues from. */
  lemma EndsOnce(cfg: Config, env: nat -> Attempt, outcome: Outcome, n: nat, k: nat)
    requires Explained(cfg, env, outcome, n) && !outcome.AuthFailed?
    requires Continued(cfg, env, k)
    ensures k <= n && (k == n ==> outcome.DialError?)
  {
    var i := if outcome.DialError? then n else n - 1;
    ContinuedAt(cfg, env, k, i);
  }

  /** Configuration and peer determine the outcome and the number of requests. */
  lemma OneOutcome(cfg: Config, env: nat -> Attempt, a: Outcome, m: nat, b: Outcome, n: nat)
    requires Explained(cfg, env, a, m) && Explained(cfg, env, b, n)
    ensures a == b && m == n
  {
    var k, l := if a.DialError? || a.AuthFailed? then m else m - 1, if b.DialError? || b.AuthFailed? then n else n - 1;
    if !a.AuthFailed? { EndsOnce(cfg, env, a, m, l); }
    if !b.AuthFailed? { EndsOnce(cfg, env, b, n, k); }
  }

  // ---------------------------------------------------------------- the loop

  /** The log obeys the rules, leaves the monitor at `m`, and every request in it has the same body. */
  ghost predicate Logged(log: seq<Event>, body: string, m: Monitor, headers: seq<Header>) {
    Track(log) == Some(m) && SameBody(log, body) && Headers(log) == headers
  }

  lemma LoggedSnoc(log: seq<Event>, body: string, m: Monitor, headers: seq<Header>, e: Event, m': Monitor)
    requires Logged(log, body, m, headers) && Observe(m, e) == Some(m') && (e.Wrote? ==> e.body == body)
    ensures Logged(log + [e], body, m', if e.Wrote? then headers + [e.header] else headers)
  {
    TrackSnoc(log, e);
    HeadersSnoc(log, e);
  }

  method CloseConn(conn: Option<nat>, log0: seq<Event>, ghost body: string, ghost m: Monitor, ghost headers: seq<Header>)
    returns (log: seq<Event>)
    requires Logged(log0, body, m, headers) && m.open == conn
    ensures Logged(log, body, m.(open := None), headers)
  {
    log := log0;
    if conn.Some? {
      LoggedSnoc(log, body, m, headers, Closed(conn.value), m.(open := None));
      log := log + [Closed(conn.value)];
    }
  }

  /** Dial when no connection is open. */
  method Connect(dialOk: bool, conn0: Option<nat>, dialled0: nat, log0: seq<Event>,
                 ghost body: string, ghost m0: Monitor, ghost headers: seq<Header>)
    returns (conn: Option<nat>, dialled: nat, log: seq<Event>, ghost m: Monitor)
    requires Logged(log0, body, m0, headers) && m0.open == conn0 && m0.dialled == dialled0
    requires conn0.None? ==> dialled0 == 0 || m0.closing
    ensures Logged(log, body, m, headers) && m == m0.(dialled := dialled, open := conn, closing := m.closing)
    ensures conn.Some? <==> conn0.Some? || dialOk
  {
    conn, dialled, log, m := conn0, dialled0, log0, m0;
    if conn.None? && dialOk {
      m := m0.(dialled := dialled + 1, open := Some(dialled), closing := false);
      LoggedSnoc(log, body, m0, headers, Dialled(dialled), m);
      log := log + [Dialled(dialled)];
      conn, dialled := Some(dialled), dialled + 1;
    }
  }

  /** Write the request and read the reply; a failure closes the connection. */
  method Send(a: Attempt, header: Header, body: string, c: nat, log0: seq<Event>, ghost m0: Monitor, ghost headers0: seq<Header>)
    returns (conn: Option<nat>, log: seq<Event>, failure: Option<Outcome>, ghost m: Monitor)
    requires Logged(log0, body, m0, headers0) && m0.open == Some(c)
    ensures Logged(log, body, m, headers0 + [header]) && m == m0.(open := conn, closing := m.closing)
    ensures failure == if !a.writeOk then Some(WriteError) else if !a.readOk then Some(ReadError) else None
    ensures if failure.None? then conn == Some(c) && m.closing == a.reply.close else conn.None?
  {
    conn, m := Some(c), m0;
    ghost var headers := headers0 + [header];
    LoggedSnoc(log0, body, m, headers0, Wrote(c, header, body), m);
    log := log0 + [Wrote(c, header, body)];
    if !a.writeOk || !a.readOk {
      log := CloseConn(conn, log, body, m, headers);
      return None, log, Some(if !a.writeOk then WriteError else ReadError), m.(open := None);
    }
    m := m0.(closing := a.reply.close);
    LoggedSnoc(log, body, m0, headers, Received(c, a.reply), m);
    log := log + [Received(c, a.reply)];
    failure := None;
  }

  /** The state that call `n` of a session finds after `n` successful calls. */
  ghost predicate ReadyAt(cfg: Config, env: nat -> Attempt, scheme: Scheme, state: State, n: nat) {
    && FirstChoice(cfg, env).Chosen? && FirstChoice(cfg, env).scheme == scheme && state.Scheme() == scheme
    && AllSucceed(Initial(scheme, cfg.username, cfg.sspi), ChallengeText(cfg, env, scheme), Libraries(env), n)
    && state == StateAfter(Initial(scheme, cfg.username, cfg.sspi), ChallengeText(cfg, env, scheme), Libraries(env), n)
  }

  /** There is no session before the first call. */
  ghost predicate SessionAt(cfg: Config, env: nat -> Attempt, session: Option<Session>, n: nat)
    reads if session.Some? then session.value.Objects() else {}
  {
    if n == 0 then session.None?
    else session.Some? && ReadyAt(cfg, env, session.value.Scheme(), session.value.State(), n)
  }

  lemma CallKeepsSession(cfg: Config, r: Request, env: nat -> Attempt, scheme: Scheme, state: State, n: nat)
    requires ReadyAt(cfg, env, scheme, state, n)
    ensures var (t, state') := TokenFrom(state, ChallengeText(cfg, env, scheme)(n), env(n).lib);
            && (t.Made? ==> t.header == ExpectedHeader(cfg, r, env, n + 1) && ReadyAt(cfg, env, scheme, state', n + 1))
            && (t.Failed? <==> CallFails(cfg, env, scheme, n))
  {
    var challenge, lib := ChallengeText(cfg, env, scheme), Libraries(env);
    FailureInClosedForm(scheme, cfg.username, cfg.sspi, challenge, lib, n);
    if TokenFrom(state, challenge(n), lib(n)).0.Made? {
      TokensInClosedForm(scheme, cfg.username, cfg.sspi, challenge, lib, n);
      KeepsScheme(state, challenge(n), lib(n));
    }
  }

  lemma KeepsScheme(s: State, challenge: string, lib: Library)
    ensures TokenFrom(s, challenge, lib).1.Scheme() == s.Scheme()
  {}

  method CallToken(cfg: Config, r: Request, env: nat -> Attempt, session: Session, challenge: string, attempt: nat)
    returns (t: Token)
    requires ReadyAt(cfg, env, session.Scheme(), session.State(), attempt)
    requires challenge == ChallengeText(cfg, env, session.Scheme())(attempt)
    modifies session.Objects()
    ensures t.Made? ==> t.header == ExpectedHeader(cfg, r, env, attempt + 1) && ReadyAt(cfg, env, session.Scheme(), session.State(), attempt + 1)
    ensures t.Failed? <==> CallFails(cfg, env, session.Scheme(), attempt)
  {
    CallKeepsSession(cfg, r, env, session.Scheme(), session.State(), attempt);
    t := session.Token(challenge, env(attempt).lib);
  }

  /** Why the challenge at attempt `i` is not answered. */
  ghost predicate Refuses(cfg: Config, env: nat -> Attempt, failure: Outcome, i: nat) {
    match failure
    case Returned(reply) => reply == env(i).reply && FirstChoice(cfg, env).NoScheme?
    case Unsupported => FirstChoice(cfg, env).UnknownScheme?
    case TokenError => FirstChoice(cfg, env).Chosen? && !CanAnswer(cfg, env, i)
    case _ => false
  }

  /** The session for the first 407, if one can be opened. */
  method OpenSession(cfg: Config, env: nat -> Attempt) returns (session: Option<Session>, challenge: string, failure: Option<Outcome>)
    ensures failure.None? <==> session.Some?
    ensures session.Some? ==> fresh(session.value.Objects()) && ReadyAt(cfg, env, session.value.Scheme(), session.value.State(), 0)
    ensures session.Some? ==> challenge == ChallengeText(cfg, env, session.value.Scheme())(0)
    ensures session.None? ==> Refuses(cfg, env, failure.value, 0)
  {
    match cfg.choose(env(0).reply.challenges) {
      case NoScheme => return None, "", Some(Returned(env(0).reply));
      case UnknownScheme => return None, "", Some(Unsupported);
      case Chosen(scheme, text) =>
        var s := NewSession(scheme, cfg.username, cfg.sspi);
        return Some(s), text, None;
    }
  }

  /** What a 407 leads to: a session at the first one, its next token at every one. */
  method Authenticate(cfg: Config, r: Request, env: nat -> Attempt, attempt: nat, session0: Option<Session>)
    returns (session: Option<Session>, auth: Header, failure: Option<Outcome>)
    requires SessionAt(cfg, env, session0, attempt)
    modifies if session0.Some? then session0.value.Objects() else {}
    ensures session0.Some? ==> session == session0
    ensures session0.None? && session.Some? ==> fresh(session.value.Objects())
    ensures failure.None? ==> auth == ExpectedHeader(cfg, r, env, attempt + 1) && SessionAt(cfg, env, session, attempt + 1)
    ensures failure.None? ==> CanAnswer(cfg, env, attempt)
    ensures failure.Some? ==> Refuses(cfg, env, failure.value, attempt)
  {
    session, auth, failure := session0, Absent, None;
    var challenge;
    if session.None? {
      session, challenge, failure := OpenSession(cfg, env);
      if failure.Some? {
        return;
      }
    } else {
      challenge := cfg.later(env(attempt).reply.challenges, session.value.Scheme());
    }
    var t := CallToken(cfg, r, env, session.value, challenge, attempt);
    match t {
      case Failed => failure := Some(TokenError);
      case Made(header) => auth := header;
    }
  }

  ghost predicate Expected(headers: seq<Header>, cfg: Config, r: Request, env: nat -> Attempt) {
    forall i :: 0 <= i < |headers| ==> headers[i] == ExpectedHeader(cfg, r, env, i)
  }

  lemma ExpectedSnoc(headers: seq<Header>, cfg: Config, r: Request, env: nat -> Attempt, auth: Header)
    requires Expected(headers, cfg, r, env) && (headers != [] ==> !cfg.none)
    requires auth == if headers == [] then Absent else ExpectedHeader(cfg, r, env, |headers|)
    ensures Expected(headers + [WrittenHeader(cfg, r, auth)], cfg, r, env)
  {}

  /** The part of an attempt that follows a 407. */
  method HandleChallenge(cfg: Config, r: Request, env: nat -> Attempt, attempt: nat, conn0: Option<nat>, session0: Option<Session>,
                         log0: seq<Event>, ghost m0: Monitor, ghost headers: seq<Header>)
    returns (conn: Option<nat>, session: Option<Session>, auth: Header, log: seq<Event>, failure: Option<Outcome>, ghost m: Monitor)
    requires Logged(log0, r.body, m0, headers) && m0.open == conn0 && m0.began == session0.Some?
    requires SessionAt(cfg, env, session0, attempt) && IsChallenged(cfg, env, attempt)
    modifies if session0.Some? then session0.value.Objects() else {}
    ensures Logged(log, r.body, m, headers) && m == m0.(open := conn, began := session.Some?)
    ensures session0.Some? ==> session == session0
    ensures session0.None? && session.Some? ==> fresh(session.value.Objects())
    ensures conn == if (if failure.None? then env(attempt).reply.close else !failure.value.Returned?) then None else conn0
    ensures failure.None? ==> auth == ExpectedHeader(cfg, r, env, attempt + 1) && SessionAt(cfg, env, session, attempt + 1)
    ensures failure.None? ==> CanAnswer(cfg, env, attempt)
    ensures failure.Some? ==> EndsAs(cfg, env, failure.value, attempt)
  {
    conn, log, m := conn0, log0, m0;
    session, auth, failure := Authenticate(cfg, r, env, attempt, session0);
    if session0.None? && session.Some? {
      m := m0.(began := true);
      LoggedSnoc(log, r.body, m0, headers, SessionOpened(session.value.Scheme()), m);
      log := log + [SessionOpened(session.value.Scheme())];
    }
    if (failure.Some? && !failure.value.Returned?) || (failure.None? && env(attempt).reply.close) {
      log := CloseConn(conn, log, r.body, m, headers);
      conn, m := None, m.(open := None);
    }
  }

  /** What the loop keeps before attempt `n`. */
  ghost predicate Going(cfg: Config, r: Request, env: nat -> Attempt, n: nat, conn: Option<nat>, dialled: nat, auth: Header,
                        session: Option<Session>, log: seq<Event>, m: Monitor, headers: seq<Header>)
    reads if session.Some? then session.value.Objects() else {}
  {
    && Logged(log, r.body, m, headers) && m == Monitor(dialled, conn, m.closing, session.Some?, false)
    && (conn.None? <==> MustDial(env, n)) && (conn.None? ==> dialled == 0 || m.closing)
    && |headers| == n && Expected(headers, cfg, r, env) && Continued(cfg, env, n)
    && SessionAt(cfg, env, session, n)
    && auth == if n == 0 then Absent else ExpectedHeader(cfg, r, env, n)
  }

  /** What holds when an outcome is reached. */
  ghost predicate Done(cfg: Config, r: Request, env: nat -> Attempt, outcome: Outcome, conn: Option<nat>, session: bool,
                       log: seq<Event>, m: Monitor, headers: seq<Header>) {
    && Logged(log, r.body, m, headers) && m.open == conn && m.began == session && !m.ended && (session ==> !cfg.none)
    && Expected(headers, cfg, r, env) && Explained(cfg, env, outcome, |headers|)
  }

  lemma ContinuedMeansOn(cfg: Config, env: nat -> Attempt, n: nat)
    requires Continued(cfg, env, n)
    ensures n > 0 ==> !cfg.none
  {
    if n > 0 { assert GoesOn(cfg, env, 0); }
  }

  lemma ContinuedSnoc(cfg: Config, env: nat -> Attempt, n: nat)
    requires Continued(cfg, env, n) && HasConn(env, n) && GoesOn(cfg, env, n)
    ensures Continued(cfg, env, n + 1)
  {}

  lemma EndsExplained(cfg: Config, env: nat -> Attempt, outcome: Outcome, n: nat)
    requires n < 4 && Continued(cfg, env, n) && HasConn(env, n) && EndsAs(cfg, env, outcome, n)
    ensures Explained(cfg, env, outcome, n + 1)
  {}

  /** The part of an attempt up to the reply: an outcome, or a challenge to answer. */
  method Ask(cfg: Config, r: Request, env: nat -> Attempt, n: nat, conn0: Option<nat>, dialled0: nat, auth: Header,
             log0: seq<Event>, ghost m0: Monitor, ghost headers0: seq<Header>)
    returns (outcome: Option<Outcome>, conn: Option<nat>, dialled: nat, log: seq<Event>, ghost m: Monitor, ghost headers: seq<Header>)
    requires n < 4 && |headers0| == n && Expected(headers0, cfg, r, env) && Continued(cfg, env, n)
    requires Logged(log0, r.body, m0, headers0) && m0.open == conn0 && m0.dialled == dialled0
    requires (conn0.None? <==> MustDial(env, n)) && (conn0.None? ==> dialled0 == 0 || m0.closing)
    requires auth == if n == 0 then Absent else ExpectedHeader(cfg, r, env, n)
    ensures Logged(log, r.body, m, headers) && m == m0.(dialled := dialled, open := conn, closing := m.closing)
    ensures Expected(headers, cfg, r, env)
    ensures outcome.Some? ==> Explained(cfg, env, outcome.value, |headers|)
    ensures outcome.None? ==> |headers| == n + 1 && HasConn(env, n) && IsChallenged(cfg, env, n)
    ensures outcome.None? ==> conn.Some? && m.closing == env(n).reply.close
  {
    headers := headers0;
    conn, dialled, log, m := Connect(env(n).dialOk, conn0, dialled0, log0, r.body, m0, headers);
    if conn.None? {
      outcome := Some(DialError);
      return;
    }
    var header := WrittenHeader(cfg, r, auth);
    ExpectedSnoc(headers, cfg, r, env, auth) by { ContinuedMeansOn(cfg, env, n); }
    conn, log, outcome, m := Send(env(n), header, r.body, conn.value, log, m, headers);
    headers := headers + [header];
    if outcome.None? && (env(n).reply.status != 407 || cfg.none) {
      outcome := Some(Returned(env(n).reply));
    }
  }

  /** The body of the loop. */
  method OneAttempt(cfg: Config, r: Request, env: nat -> Attempt, n: nat, conn0: Option<nat>, dialled0: nat, auth0: Header,
                    session0: Option<Session>, log0: seq<Event>, ghost m0: Monitor, ghost headers0: seq<Header>)
    returns (outcome: Option<Outcome>, conn: Option<nat>, dialled: nat, auth: Header, session: Option<Session>, log: seq<Event>,
             ghost m: Monitor, ghost headers: seq<Header>)
    requires n < 4 && Going(cfg, r, env, n, conn0, dialled0, auth0, session0, log0, m0, headers0)
    modifies if session0.Some? then session0.value.Objects() else {}
    ensures session0.Some? ==> session == session0
    ensures session0.None? && session.Some? ==> fresh(session.value.Objects())
    ensures outcome.None? ==> Going(cfg, r, env, n + 1, conn, dialled, auth, session, log, m, headers)
    ensures outcome.Some? ==> Done(cfg, r, env, outcome.value, conn, session.Some?, log, m, headers)
  {
    session, auth := session0, auth0;
    ContinuedMeansOn(cfg, env, n);
    outcome, conn, dialled, log, m, headers := Ask(cfg, r, env, n, conn0, dialled0, auth, log0, m0, headers0);
    if outcome.None? {
      conn, session, auth, log, outcome, m := HandleChallenge(cfg, r, env, n, conn, session, log, m, headers);
      if outcome.None? { ContinuedSnoc(cfg, env, n); } else { EndsExplained(cfg, env, outcome.value, n); }
    }
  }

  /** The function up to its deferred calls; `conn` and `session` are what these find. */
  method Attempts(cfg: Config, r: Request, env: nat -> Attempt)
    returns (outcome: Outcome, conn: Option<nat>, session: Option<Session>, log: seq<Event>, ghost m: Monitor, ghost headers: seq<Header>)
    ensures Done(cfg, r, env, outcome, conn, session.Some?, log, m, headers)
  {
    var dialled: nat, auth := 0, Absent;
    conn, session, log, m, headers := None, None, [], Monitor(0, None, false, false, false), [];
    for attempt := 0 to 4
      invariant Going(cfg, r, env, attempt, conn, dialled, auth, session, log, m, headers)
      invariant session.Some? ==> fresh(session.value.Objects())
    {
      var end: Option<Outcome>;
      end, conn, dialled, auth, session, log, m, headers := OneAttempt(cfg, r, env, attempt, conn, dialled, auth, session, log, m, headers);
      if end.Some? {
        outcome := end.value;
        return;
      }
    }
    ContinuedMeansOn(cfg, env, 4);
    log := CloseConn(conn, log, r.body, m, headers);
    conn, m, outcome := None, m.(open := None), AuthFailed;
  }

  /** What every exchange promises: a log that obeys the rules, leaves nothing open and sends one body, no session
      when authentication is off, and the headers and the outcome that configuration and peer call for. */
  ghost predicate Exchanged(cfg: Config, r: Request, env: nat -> Attempt, outcome: Outcome, log: seq<Event>) {
    && Complete(log) && SameBody(log, r.body) && (cfg.none ==> !Track(log).value.began)
    && Expected(Headers(log), cfg, r, env) && Explained(cfg, env, outcome, |Headers(log)|)
  }

  /** roundTripProxy. The deferred calls run last: the session is closed first, then the connection. */
  method RoundTripProxy(cfg: Config, r: Request, env: nat -> Attempt) returns (outcome: Outcome, log: seq<Event>)
    ensures Exchanged(cfg, r, env, outcome, log) && |Headers(log)| <= 4
  {
    var conn, session;
    ghost var m, headers;
    outcome, conn, session, log, m, headers := Attempts(cfg, r, env);
    if session.Some? {
      LoggedSnoc(log, r.body, m, headers, SessionClosed, m.(ended := true));
      m, log := m.(ended := true), log + [SessionClosed];
    }
    log := CloseConn(conn, log, r.body, m, headers);
  }

  /** A log that obeys the rules and leaves nothing open. */
  ghost predicate Complete(log: seq<Event>) {
    Track(log).Some? && Track(log).value.open.None? && Track(log).value.ended == Track(log).value.began
  }
}
