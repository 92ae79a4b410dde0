/** Opening a tunnel through an upstream proxy: connectViaProxy of internal/proxy/handler.go, the same handshake on
    one connection that is handed to the caller on success. */
module UpstreamConnect {
  import opened Basics
  import opened AuthSessions
  import opened Upstream

  /** A CONNECT request has no body, and writeConnectRequest skips the client's own Proxy-Authorization as a
      hop-by-hop header even when authentication is off. */
  const CONNECT: Request := Request("", "")

  datatype Result = Connected(conn: nat) | Refused(status: nat) | NoCommonScheme | Failure(reason: Outcome)

  // ---------------------------------------------------------------- what the peer decides

  /** The first `n` attempts met challenges and answered them. */
  ghost predicate AllAnswered(cfg: Config, env: nat -> Attempt, n: nat) {
    forall i: nat :: i < n ==> GoesOn(cfg, env, i)
  }

  /** The peer grants the tunnel. */
  ghost predicate Accepts(cfg: Config, env: nat -> Attempt) {
    env(0).dialOk && exists i: nat :: i < 4 && AllAnswered(cfg, env, i) && Answered(env, i) && env(i).reply.status == 200
  }

  /** The peer sends a challenge that cannot be answered. */
  ghost predicate Abandons(cfg: Config, env: nat -> Attempt) {
    env(0).dialOk && exists i: nat :: i < 4 && AllAnswered(cfg, env, i) && IsChallenged(cfg, env, i) && !CanAnswer(cfg, env, i)
  }

  /** The attempt that gives the result. */
  ghost predicate TunnelEndsAs(cfg: Config, env: nat -> Attempt, result: Result, i: nat) {
    match result
    case Connected(c) => c == 0 && Answered(env, i) && env(i).reply.status == 200
    case Refused(status) => Answered(env, i) && status == env(i).reply.status && status != 200 && (status != 407 || cfg.none)
    case NoCommonScheme => IsChallenged(cfg, env, i) && FirstChoice(cfg, env).NoScheme?
    case Failure(reason) =>
      match reason
      case WriteError => !env(i).writeOk
      case ReadError => env(i).writeOk && !env(i).readOk
      case Unsupported => IsChallenged(cfg, env, i) && FirstChoice(cfg, env).UnknownScheme?
      case TokenError => IsChallenged(cfg, env, i) && FirstChoice(cfg, env).Chosen? && !CanAnswer(cfg, env, i)
      case _ => false
  }

  /** The result after `n` requests, with its reason. */
  ghost predicate TunnelExplained(cfg: Config, env: nat -> Attempt, result: Result, n: nat) {
    if result == Failure(DialError) then n == 0 && !env(0).dialOk
    else
      && env(0).dialOk && 1 <= n <= 4
      && if result == Failure(AuthFailed) then n == 4 && AllAnswered(cfg, env, 4)
         else AllAnswered(cfg, env, n - 1) && TunnelEndsAs(cfg, env, result, n - 1)
  }

  /** Configuration and peer determine the result and the number of requests. */
  lemma OneResult(cfg: Config, env: nat -> Attempt, a: Result, m: nat, b: Result, n: nat)
    requires TunnelExplained(cfg, env, a, m) && TunnelExplained(cfg, env, b, n)
    ensures a == b && m == n
  {
    assert AllAnswered(cfg, env, 4) ==> GoesOn(cfg, env, 3);
    if m < n { TunnelEndsOnce(cfg, env, a, m, n - 1); }
    if n < m { TunnelEndsOnce(cfg, env, b, n, m - 1); }
  }

  /** An attempt that ends the exchange is not one it continues from. */
  lemma TunnelEndsOnce(cfg: Config, env: nat -> Attempt, result: Result, n: nat, later: nat)
    requires TunnelExplained(cfg, env, result, n) && env(0).dialOk && n <= 4 && n <= later
    ensures !AllAnswered(cfg, env, later) || result == Failure(AuthFailed)
  {
    AllAnsweredAt(cfg, env, later, n - 1);
  }

  lemma AllAnsweredAt(cfg: Config, env: nat -> Attempt, n: nat, i: nat)
    ensures AllAnswered(cfg, env, n) && i < n ==> GoesOn(cfg, env, i)
  {}

  /** The results that leave the connection open. */
  predicate LeavesOpen(r: Result) {
    r.Connected? || r.NoCommonScheme? || r == Failure(Unsupported) || r == Failure(TokenError)
  }

  /** Success, said of the peer. */
  lemma ConnectedIff(cfg: Config, env: nat -> Attempt, result: Result, n: nat)
    requires TunnelExplained(cfg, env, result, n)
    ensures result.Connected? <==> Accepts(cfg, env)
  {
    if Accepts(cfg, env) {
      var i: nat :| i < 4 && AllAnswered(cfg, env, i) && Answered(env, i) && env(i).reply.status == 200;
      assert TunnelExplained(cfg, env, Connected(0), i + 1);
      OneResult(cfg, env, result, n, Connected(0), i + 1);
    }
  }

  /** The other results that leave the connection open, said of the peer. */
  lemma AbandonedIff(cfg: Config, env: nat -> Attempt, result: Result, n: nat)
    requires TunnelExplained(cfg, env, result, n)
    ensures LeavesOpen(result) && !result.Connected? <==> Abandons(cfg, env)
  {
    if LeavesOpen(result) && !result.Connected? {
      assert !CanAnswer(cfg, env, n - 1) && IsChallenged(cfg, env, n - 1) && AllAnswered(cfg, env, n - 1);
    }
    if Abandons(cfg, env) {
      var i: nat :| i < 4 && AllAnswered(cfg, env, i) && IsChallenged(cfg, env, i) && !CanAnswer(cfg, env, i);
      var end := match FirstChoice(cfg, env)
        case NoScheme => NoCommonScheme
        case UnknownScheme => Failure(Unsupported)
        case Chosen(_, _) => Failure(TokenError);
      assert TunnelExplained(cfg, env, end, i + 1);
      OneResult(cfg, env, result, n, end, i + 1);
    }
  }

  /** A peer that asks for authentication without offering an acceptable scheme makes the program abandon an open
      connection. */
  lemma UnacceptableChallengeAbandons(cfg: Config, env: nat -> Attempt)
    requires env(0).dialOk && Answered(env, 0) && env(0).reply.status == 407 && !cfg.none
    requires cfg.choose(env(0).reply.challenges) == NoScheme
    ensures Abandons(cfg, env)
  {
    assert AllAnswered(cfg, env, 0) && IsChallenged(cfg, env, 0) && !CanAnswer(cfg, env, 0);
  }

  /** The peer may grant the tunnel in any of its first four replies. */
  lemma GrantCounts(cfg: Config, env: nat -> Attempt, n: nat)
    requires env(0).dialOk && n <= 3 && AllAnswered(cfg, env, n) && Answered(env, n) && env(n).reply.status == 200
    ensures Accepts(cfg, env)
  {}

  // ---------------------------------------------------------------- the loop

  /** What the loop keeps before attempt `n`, on connection `c`. */
  ghost predicate Live(cfg: Config, env: nat -> Attempt, n: nat, c: nat, auth: Header, session: Option<Session>, log: seq<Event>,
                       m: Monitor, headers: seq<Header>)
    reads if session.Some? then session.value.Objects() else {}
  {
    && Logged(log, "", m, headers) && m == Monitor(1, Some(c), m.closing, session.Some?, false)
    && |headers| == n && Expected(headers, cfg, CONNECT, env) && env(0).dialOk && AllAnswered(cfg, env, n)
    && SessionAt(cfg, env, session, n)
    && auth == if n == 0 then Absent else ExpectedHeader(cfg, CONNECT, env, n)
  }

  /** What holds of a result. */
  ghost predicate Ended(cfg: Config, env: nat -> Attempt, result: Result, session: bool, log: seq<Event>, m: Monitor, headers: seq<Header>) {
    && Logged(log, "", m, headers) && m.dialled <= 1 && m.began == session && !m.ended
    && Expected(headers, cfg, CONNECT, env) && TunnelExplained(cfg, env, result, |headers|)
    && m.open == (if LeavesOpen(result) then Some(0) else None)
  }

  lemma AnsweredMeansOn(cfg: Config, env: nat -> Attempt, n: nat)
    requires AllAnswered(cfg, env, n)
    ensures n > 0 ==> !cfg.none
  {
    if n > 0 { assert GoesOn(cfg, env, 0); }
  }

  lemma AllAnsweredSnoc(cfg: Config, env: nat -> Attempt, n: nat)
    requires AllAnswered(cfg, env, n) && GoesOn(cfg, env, n)
    ensures AllAnswered(cfg, env, n + 1)
  {}

  /** The part of an attempt that follows a 407: the connection stays as it is, whatever happens. */
  method Answer(cfg: Config, env: nat -> Attempt, n: nat, session0: Option<Session>, log0: seq<Event>, ghost m0: Monitor, ghost headers: seq<Header>)
    returns (result: Option<Result>, auth: Header, session: Option<Session>, log: seq<Event>, ghost m: Monitor)
    requires Logged(log0, "", m0, headers) && m0.began == session0.Some? && SessionAt(cfg, env, session0, n)
    requires IsChallenged(cfg, env, n)
    modifies if session0.Some? then session0.value.Objects() else {}
    ensures session0.Some? ==> session == session0
    ensures session0.None? && session.Some? ==> fresh(session.value.Objects())
    ensures Logged(log, "", m, headers) && m == m0.(began := session.Some?)
    ensures result.None? ==> auth == ExpectedHeader(cfg, CONNECT, env, n + 1) && SessionAt(cfg, env, session, n + 1) && CanAnswer(cfg, env, n)
    ensures result.Some? ==> LeavesOpen(result.value) && TunnelEndsAs(cfg, env, result.value, n)
  {
    var failure;
    log, m, result := log0, m0, None;
    session, auth, failure := Authenticate(cfg, CONNECT, env, n, session0);
    if session0.None? && session.Some? {
      m := m0.(began := true);
      LoggedSnoc(log, "", m0, headers, SessionOpened(session.value.Scheme()), m);
      log := log + [SessionOpened(session.value.Scheme())];
    }
    if failure.Some? {
      result := Some(if failure.value.Returned? then NoCommonScheme else Failure(failure.value));
    }
  }

  /** The part of an attempt up to the reply: a result, or a challenge to answer. */
  method AskConnect(cfg: Config, env: nat -> Attempt, n: nat, c: nat, auth: Header, log0: seq<Event>, ghost m0: Monitor, ghost headers0: seq<Header>)
    returns (result: Option<Result>, log: seq<Event>, ghost m: Monitor, ghost headers: seq<Header>)
    requires Logged(log0, "", m0, headers0) && m0.open == Some(c) && c == 0
    requires |headers0| == n && Expected(headers0, cfg, CONNECT, env) && (n > 0 ==> !cfg.none)
    requires auth == if n == 0 then Absent else ExpectedHeader(cfg, CONNECT, env, n)
    ensures Logged(log, "", m, headers) && |headers| == n + 1 && Expected(headers, cfg, CONNECT, env)
    ensures result.Some? ==> m == m0.(open := if LeavesOpen(result.value) then Some(0) else None, closing := m.closing)
    ensures result.Some? ==> TunnelEndsAs(cfg, env, result.value, n)
    ensures result.None? ==> m == m0.(closing := m.closing) && IsChallenged(cfg, env, n)
  {
    var conn, failure;
    ExpectedSnoc(headers0, cfg, CONNECT, env, auth);
    conn, log, failure, m := Send(env(n), auth, "", c, log0, m0, headers0);
    headers := headers0 + [auth];
    var reply := env(n).reply;
    result := None;
    if failure.Some? {
      result := Some(Failure(failure.value));
    } else if reply.status == 200 {
      result := Some(Connected(c));
    } else if reply.status != 407 || cfg.none {
      log := CloseConn(conn, log, "", m, headers);
      m, result := m.(open := None), Some(Refused(reply.status));
    }
  }

  /** The body of the loop. */
  method ConnectAttempt(cfg: Config, env: nat -> Attempt, n: nat, c: nat, auth0: Header, session0: Option<Session>, log0: seq<Event>,
                        ghost m0: Monitor, ghost headers0: seq<Header>)
    returns (result: Option<Result>, auth: Header, session: Option<Session>, log: seq<Event>, ghost m: Monitor, ghost headers: seq<Header>)
    requires n < 4 && c == 0 && Live(cfg, env, n, c, auth0, session0, log0, m0, headers0)
    modifies if session0.Some? then session0.value.Objects() else {}
    ensures session0.Some? ==> session == session0
    ensures session0.None? && session.Some? ==> fresh(session.value.Objects())
    ensures result.None? ==> Live(cfg, env, n + 1, c, auth, session, log, m, headers)
    ensures result.Some? ==> Ended(cfg, env, result.value, session.Some?, log, m, headers)
  {
    session, auth := session0, auth0;
    AnsweredMeansOn(cfg, env, n);
    result, log, m, headers := AskConnect(cfg, env, n, c, auth, log0, m0, headers0);
    if result.None? {
      result, auth, session, log, m := Answer(cfg, env, n, session, log, m, headers);
      if result.None? { AllAnsweredSnoc(cfg, env, n); }
    }
  }

  /** connectViaProxy. The result is the one that configuration and peer call for, after the requests they call for,
      with the prescribed headers; one connection at most is dialled, and one session at most is opened and closed
      once. On return the connection is open exactly when the peer grants the tunnel or sends a challenge that
      cannot be answered. */
  method ConnectViaProxy(cfg: Config, env: nat -> Attempt) returns (result: Result, log: seq<Event>)
    ensures TunnelExplained(cfg, env, result, |Headers(log)|) && Expected(Headers(log), cfg, CONNECT, env)
    ensures Track(log).Some? && Track(log).value.dialled <= 1 && Track(log).value.ended == Track(log).value.began
    ensures result.Connected? <==> Accepts(cfg, env)
    ensures Track(log).value.open.Some? <==> Accepts(cfg, env) || Abandons(cfg, env)
    ensures result.Connected? ==> Track(log).value.open == Some(result.conn)
  {
    var session: Option<Session>;
    ghost var m, headers;
    result, session, log, m, headers := ConnectLoop(cfg, env);
    ConnectedIff(cfg, env, result, |headers|);
    AbandonedIff(cfg, env, result, |headers|);
    if session.Some? {
      LoggedSnoc(log, "", m, headers, SessionClosed, m.(ended := true));
      m, log := m.(ended := true), log + [SessionClosed];
    }
  }

  /** The function up to its deferred call. */
  method ConnectLoop(cfg: Config, env: nat -> Attempt)
    returns (result: Result, session: Option<Session>, log: seq<Event>, ghost m: Monitor, ghost headers: seq<Header>)
    ensures Ended(cfg, env, result, session.Some?, log, m, headers)
  {
    log := [];
    m := Monitor(0, None, false, false, false);
    if !env(0).dialOk {
      return Failure(DialError), None, log, m, [];
    }
    LoggedSnoc(log, "", m, [], Dialled(0), Monitor(1, Some(0), false, false, false));
    log, m := log + [Dialled(0)], Monitor(1, Some(0), false, false, false);
    result, session, log, m, headers := ConnectAttempts(cfg, env, log, m);
  }

  /** The four attempts on the dialled connection. */
  method ConnectAttempts(cfg: Config, env: nat -> Attempt, log0: seq<Event>, ghost m0: Monitor)
    returns (result: Result, session: Option<Session>, log: seq<Event>, ghost m: Monitor, ghost headers: seq<Header>)
    requires env(0).dialOk && Logged(log0, "", m0, []) && m0 == Monitor(1, Some(0), false, false, false)
    ensures Ended(cfg, env, result, session.Some?, log, m, headers)
  {
    var auth := Absent;
    session, log, m, headers := None, log0, m0, [];
    for attempt := 0 to 4
      invariant Live(cfg, env, attempt, 0, auth, session, log, m, headers)
      invariant session.Some? ==> fresh(session.value.Objects())
    {
      var end: Option<Result>;
      end, auth, session, log, m, headers := ConnectAttempt(cfg, env, attempt, 0, auth, session, log, m, headers);
      if end.Some? {
        result := end.value;
        return;
      }
    }
    log := CloseConn(Some(0), log, "", m, headers);
    m, result := m.(open := None), Failure(AuthFailed);
  }
}
