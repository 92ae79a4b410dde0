/** What the log of an exchange with an upstream proxy says: connection discipline, session use, and the headers
    of each scheme. */
module UpstreamLogs {
  import opened Basics
  import opened AuthSessions
  import opened Upstream

  // ---------------------------------------------------------------- the monitor along a log

  lemma {:induction false} PrefixTracked(log: seq<Event>, i: nat)
    requires Track(log).Some? && i <= |log|
    ensures Track(log[..i]).Some?
    decreases |log|
  {
    if i < |log| {
      assert log[..|log| - 1][..i] == log[..i];
      PrefixTracked(log[..|log| - 1], i);
    } else {
      assert log[..i] == log;
    }
  }

  /** The event at `i` was allowed by the monitor of the events before it. */
  lemma StepTracked(log: seq<Event>, i: nat)
    requires Track(log).Some? && i < |log|
    ensures Track(log[..i]).Some? && Track(log[..i + 1]) == Observe(Track(log[..i]).value, log[i]) && Track(log[..i + 1]).Some?
  {
    PrefixTracked(log, i);
    PrefixTracked(log, i + 1);
    assert log[..i + 1][..i] == log[..i];
  }

  /** Connection `c` was dialled at `j`, and neither closed nor replaced before `i`. */
  ghost predicate OpenSince(log: seq<Event>, c: nat, j: nat, i: nat) {
    j < i <= |log| && log[j] == Dialled(c) && forall k :: j < k < i ==> log[k] != Closed(c) && !log[k].Dialled?
  }

  lemma OpenStep(m: Monitor, e: Event)
    requires Observe(m, e).Some? && Observe(m, e).value.open.Some?
    ensures if e.Dialled? then Observe(m, e).value.open == Some(e.conn)
            else m.open == Observe(m, e).value.open && e != Closed(m.open.value)
  {}

  lemma {:induction false} OpenWasDialled(log: seq<Event>, i: nat) returns (j: nat)
    requires Track(log).Some? && i <= |log| && Track(log[..i]).Some? && Track(log[..i]).value.open.Some?
    ensures OpenSince(log, Track(log[..i]).value.open.value, j, i)
    decreases i
  {
    assert i > 0 by { assert log[..0] == []; }
    StepTracked(log, i - 1);
    OpenStep(Track(log[..i - 1]).value, log[i - 1]);
    if log[i - 1].Dialled? {
      j := i - 1;
    } else {
      j := OpenWasDialled(log, i - 1);
    }
  }

  predicate Uses(e: Event, c: nat) { (e.Wrote? || e.Received? || e.Closed?) && e.conn == c }

  /** Requests are written to, and replies read from, the one connection that is open. */
  lemma UsedConnectionIsOpen(log: seq<Event>, i: nat, c: nat)
    requires Track(log).Some? && i < |log| && Uses(log[i], c)
    ensures exists j :: 0 <= j < i && OpenSince(log, c, j, i)
  {
    StepTracked(log, i);
    var j := OpenWasDialled(log, i);
    assert OpenSince(log, c, j, i);
  }

  /** While nothing closes it, the connection dialled at `i` stays the open one. */
  lemma {:induction false} StaysOpen(log: seq<Event>, i: nat, j: nat)
    requires Track(log).Some? && i < j <= |log| && log[i].Dialled?
    requires forall k :: i < k < j ==> log[k] != Closed(log[i].conn)
    ensures Track(log[..j]).Some? && Track(log[..j]).value.open == Some(log[i].conn)
    ensures forall k :: i < k < j ==> !log[k].Dialled?
    decreases j
  {
    StepTracked(log, j - 1);
    if j > i + 1 { StaysOpen(log, i, j - 1); }
  }

  /** Every connection is closed by the time the call returns, and before the next one is dialled. */
  lemma DialledIsClosed(log: seq<Event>, i: nat)
    requires Complete(log) && i < |log| && log[i].Dialled?
    ensures exists j :: i < j < |log| && log[j] == Closed(log[i].conn) && forall k :: i < k < j ==> !log[k].Dialled?
  {
    var c := log[i].conn;
    assert log[..|log|] == log;
    if forall k :: i < k < |log| ==> log[k] != Closed(c) {
      StaysOpen(log, i, |log|);
      assert false;
    }
    var j := FirstClose(log, i, c);
    StaysOpen(log, i, j);
  }

  lemma FirstClose(log: seq<Event>, i: nat, c: nat) returns (j: nat)
    requires i < |log| && exists k :: i < k < |log| && log[k] == Closed(c)
    ensures i < j < |log| && log[j] == Closed(c) && forall k :: i < k < j ==> log[k] != Closed(c)
  {
    j := i + 1;
    while log[j] != Closed(c)
      invariant i < j < |log| && forall k :: i < k < j ==> log[k] != Closed(c)
      decreases |log| - j
    {
      j := j + 1;
    }
  }

  lemma ClosingStep(m: Monitor, e: Event)
    requires Observe(m, e).Some? && Observe(m, e).value.closing
    ensures !e.Dialled? && ((e.Received? && e.reply.close) || m.closing)
  {}

  /** The monitor remembers a close only from a reply received since the last dial. */
  lemma {:induction false} ClosingWasAnnounced(log: seq<Event>, i: nat, j: nat) returns (k: nat)
    requires Track(log).Some? && i < j <= |log| && log[i].Dialled? && Track(log[..j]).Some? && Track(log[..j]).value.closing
    ensures i < k < j && log[k].Received? && log[k].reply.close
    decreases j
  {
    StepTracked(log, j - 1);
    ClosingStep(Track(log[..j - 1]).value, log[j - 1]);
    if log[j - 1].Received? && log[j - 1].reply.close {
      k := j - 1;
    } else {
      k := ClosingWasAnnounced(log, i, j - 1);
    }
  }

  lemma {:induction false} DialledCount(log: seq<Event>, i: nat, j: nat)
    requires Track(log).Some? && i < j <= |log| && log[i].Dialled?
    ensures Track(log[..j]).Some? && Track(log[..j]).value.dialled > 0
    decreases j
  {
    StepTracked(log, j - 1);
    if j > i + 1 { DialledCount(log, i, j - 1); }
  }

  /** A second connection is dialled only after a reply that announced a close of the first. */
  lemma RedialNeedsClose(log: seq<Event>, i: nat, j: nat)
    requires Track(log).Some? && i < j < |log| && log[i].Dialled? && log[j].Dialled?
    ensures exists k :: i < k < j && log[k].Received? && log[k].reply.close
  {
    StepTracked(log, j);
    DialledCount(log, i, j);
    var k := ClosingWasAnnounced(log, i, j);
  }

  // ---------------------------------------------------------------- the session

  lemma SessionStep(m: Monitor, e: Event)
    requires Observe(m, e).Some?
    ensures Observe(m, e).value.began == (m.began || e.SessionOpened?)
    ensures Observe(m, e).value.ended == (m.ended || e.SessionClosed?)
  {}

  ghost predicate SomeOpened(log: seq<Event>, n: nat) { exists i :: 0 <= i < n <= |log| && log[i].SessionOpened? }

  ghost predicate SomeClosed(log: seq<Event>, n: nat) { exists i :: 0 <= i < n <= |log| && log[i].SessionClosed? }

  lemma {:induction false} BeganIff(log: seq<Event>, n: nat)
    requires Track(log).Some? && n <= |log|
    ensures Track(log[..n]).Some?
    ensures Track(log[..n]).value.began <==> SomeOpened(log, n)
    ensures Track(log[..n]).value.ended <==> SomeClosed(log, n)
    decreases n
  {
    if n == 0 {
      assert log[..0] == [];
    } else {
      StepTracked(log, n - 1);
      BeganIff(log, n - 1);
      SessionStep(Track(log[..n - 1]).value, log[n - 1]);
      assert SomeOpened(log, n) <==> SomeOpened(log, n - 1) || log[n - 1].SessionOpened?;
      assert SomeClosed(log, n) <==> SomeClosed(log, n - 1) || log[n - 1].SessionClosed?;
    }
  }

  /** At most one session is opened, and it is closed exactly once, later. */
  lemma OneSession(log: seq<Event>)
    requires Complete(log)
    ensures forall i, j :: 0 <= i < j < |log| ==> !(log[i].SessionOpened? && log[j].SessionOpened?)
    ensures forall i, j :: 0 <= i < j < |log| ==> !(log[i].SessionClosed? && log[j].SessionClosed?)
    ensures forall i :: 0 <= i < |log| && log[i].SessionOpened? ==> exists j :: i < j < |log| && log[j].SessionClosed?
    ensures forall j :: 0 <= j < |log| && log[j].SessionClosed? ==> exists i :: 0 <= i < j && log[i].SessionOpened?
  {
    forall j | 0 <= j < |log|
      ensures log[j].SessionOpened? ==> forall i :: 0 <= i < j ==> !log[i].SessionOpened? && !log[i].SessionClosed?
      ensures log[j].SessionClosed? ==> forall i :: 0 <= i < j ==> !log[i].SessionClosed?
      ensures log[j].SessionClosed? ==> exists i :: 0 <= i < j && log[i].SessionOpened?
    {
      StepTracked(log, j);
      BeganIff(log, j);
      if log[j].SessionOpened? { NotEndedBefore(log, j); }
    }
    BeganIff(log, |log|);
    assert log[..|log|] == log;
  }

  lemma {:induction false} NotEndedBefore(log: seq<Event>, n: nat)
    requires Track(log).Some? && n <= |log| && Track(log[..n]).Some? && !Track(log[..n]).value.began
    ensures !Track(log[..n]).value.ended
    decreases n
  {
    if n > 0 {
      StepTracked(log, n - 1);
      NotEndedBefore(log, n - 1);
    } else {
      assert log[..0] == [];
    }
  }

  // ---------------------------------------------------------------- the headers of each scheme

  lemma NTLMHeaders(cfg: Config, r: Request, env: nat -> Attempt, headers: seq<Header>)
    requires |headers| <= 4 && Expected(headers, cfg, r, env) && !cfg.none
    requires FirstChoice(cfg, env).Chosen? && FirstChoice(cfg, env).scheme == NTLM
    ensures headers <= [Absent, Type1, Type3(cfg.later(env(1).reply.challenges, NTLM)), Absent]
  {}

  lemma BasicHeaders(cfg: Config, r: Request, env: nat -> Attempt, headers: seq<Header>)
    requires |headers| <= 4 && Expected(headers, cfg, r, env) && !cfg.none
    requires FirstChoice(cfg, env).Chosen? && FirstChoice(cfg, env).scheme == BASIC
    ensures var h := Basic(cfg.username); headers <= [Absent, h, h, h]
  {}

  lemma DigestHeaders(cfg: Config, r: Request, env: nat -> Attempt, headers: seq<Header>)
    requires |headers| <= 4 && Expected(headers, cfg, r, env) && !cfg.none
    requires FirstChoice(cfg, env).Chosen? && FirstChoice(cfg, env).scheme == DIGEST
    ensures headers <= [Absent, Digest(1, FirstChoice(cfg, env).challenge),
                        Digest(2, cfg.later(env(1).reply.challenges, DIGEST)), Digest(3, cfg.later(env(2).reply.challenges, DIGEST))]
  {}

  /** Tokens until SSPI reports completion, nothing afterwards. */
  lemma NegotiateHeaders(cfg: Config, r: Request, env: nat -> Attempt, headers: seq<Header>, i: nat)
    requires |headers| <= 4 && Expected(headers, cfg, r, env) && 1 <= i < |headers|
    requires FirstChoice(cfg, env).Chosen? && FirstChoice(cfg, env).scheme == NEGOTIATE
    ensures headers[i].Absent? <==> cfg.sspi && exists j: nat :: j < i - 1 && env(j).lib.complete
    ensures headers[i].Absent? || headers[i].Negotiate?
  {
    assert forall j: nat :: Libraries(env)(j) == env(j).lib;
  }

  /** With authentication off every exchange writes one request at most, with the client's own value, opens no
      session and hands any reply, a 407 included, straight back. */
  lemma OffMeansPassThrough(cfg: Config, r: Request, env: nat -> Attempt, outcome: Outcome, log: seq<Event>)
    requires Exchanged(cfg, r, env, outcome, log) && cfg.none
    ensures |Headers(log)| == if outcome.DialError? then 0 else 1
    ensures Headers(log) != [] ==> Headers(log) == [if r.clientAuth == "" then Absent else Client(r.clientAuth)]
    ensures outcome == Returned(env(0).reply) || outcome.DialError? || outcome.WriteError? || outcome.ReadError?
    ensures forall i :: 0 <= i < |log| ==> !log[i].SessionOpened?
  {
    var n := |Headers(log)|;
    ContinuedAt(cfg, env, n, 0);
    if n > 0 { ContinuedAt(cfg, env, n - 1, 0); }
    BeganIff(log, |log|);
    assert log[..|log|] == log;
  }

  // ---------------------------------------------------------------- exchanges that succeed

  /** Attempt `i` gets through to the peer and back. */
  ghost predicate Through(env: nat -> Attempt, i: nat) { env(i).dialOk && env(i).writeOk && env(i).readOk }

  /** A reply other than a 407 is returned at once. */
  lemma OtherReplyIsReturned(cfg: Config, r: Request, env: nat -> Attempt, outcome: Outcome, log: seq<Event>)
    requires Exchanged(cfg, r, env, outcome, log) && Through(env, 0) && env(0).reply.status != 407
    ensures outcome == Returned(env(0).reply) && |Headers(log)| == 1
  {
    assert Explained(cfg, env, Returned(env(0).reply), 1);
    OneOutcome(cfg, env, outcome, |Headers(log)|, Returned(env(0).reply), 1);
  }

  /** A scheme that needs one answer: a 407, the answer, and whatever the peer then replies. */
  lemma OneAnswerIsEnough(cfg: Config, r: Request, env: nat -> Attempt, outcome: Outcome, log: seq<Event>)
    requires Exchanged(cfg, r, env, outcome, log) && !cfg.none && Through(env, 0) && Through(env, 1)
    requires env(0).reply.status == 407 && env(1).reply.status != 407
    requires FirstChoice(cfg, env).Chosen?
    requires FirstChoice(cfg, env).scheme == DIGEST || (FirstChoice(cfg, env).scheme == BASIC && cfg.username != "")
    ensures outcome == Returned(env(1).reply)
    ensures Headers(log) == [Absent, if FirstChoice(cfg, env).scheme == BASIC then Basic(cfg.username) else Digest(1, FirstChoice(cfg, env).challenge)]
  {
    assert GoesOn(cfg, env, 0) && HasConn(env, 0);
    assert Explained(cfg, env, Returned(env(1).reply), 2);
    OneOutcome(cfg, env, outcome, |Headers(log)|, Returned(env(1).reply), 2);
  }

  /** The NTLM handshake: Type1, Type3 made from the reply to it, and the peer's answer. */
  lemma NTLMHandshakeSucceeds(cfg: Config, r: Request, env: nat -> Attempt, outcome: Outcome, log: seq<Event>)
    requires Exchanged(cfg, r, env, outcome, log) && !cfg.none && Through(env, 0) && Through(env, 1) && Through(env, 2)
    requires env(0).reply.status == 407 && env(1).reply.status == 407 && env(2).reply.status != 407
    requires FirstChoice(cfg, env).Chosen? && FirstChoice(cfg, env).scheme == NTLM && env(0).lib.ok && env(1).lib.ok
    requires !Blank(cfg.later(env(1).reply.challenges, NTLM))
    ensures outcome == Returned(env(2).reply)
    ensures Headers(log) == [Absent, Type1, Type3(cfg.later(env(1).reply.challenges, NTLM))]
  {
    assert GoesOn(cfg, env, 0) && HasConn(env, 0);
    assert GoesOn(cfg, env, 1) && HasConn(env, 1);
    assert Explained(cfg, env, Returned(env(2).reply), 3);
    OneOutcome(cfg, env, outcome, |Headers(log)|, Returned(env(2).reply), 3);
  }

  /** Up to four requests: after challenges that were answered any other reply is returned, the fourth included. */
  lemma ReplyAfterChallenges(cfg: Config, r: Request, env: nat -> Attempt, outcome: Outcome, log: seq<Event>, n: nat)
    requires Exchanged(cfg, r, env, outcome, log) && n <= 3 && Continued(cfg, env, n)
    requires Through(env, n) && env(n).reply.status != 407
    ensures outcome == Returned(env(n).reply) && |Headers(log)| == n + 1
  {
    assert Explained(cfg, env, Returned(env(n).reply), n + 1);
    OneOutcome(cfg, env, outcome, |Headers(log)|, Returned(env(n).reply), n + 1);
  }

  /** After four challenges that were all answered the call gives up. */
  lemma GivesUpAfterFour(cfg: Config, r: Request, env: nat -> Attempt, outcome: Outcome, log: seq<Event>)
    requires Exchanged(cfg, r, env, outcome, log) && Continued(cfg, env, 4)
    ensures outcome == AuthFailed && |Headers(log)| == 4
  {
    OneOutcome(cfg, env, outcome, |Headers(log)|, AuthFailed, 4);
  }
}
