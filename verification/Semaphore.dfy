/** The concurrency limit of internal/proxy/server.go and the two ways internal/proxy/handler.go gives
    a slot back: on return from handleHTTP, and in handleConnect once, before the relay starts or on
    return, whichever comes first. Any number of requests interleave. */
module RequestSemaphore {

  datatype PC =
    | Arrived
    | Admitted                                             // has just sent into the channel
    | Forwarding | HTTPReturn                              // handleHTTP, then its deferred receive
    | Routing | Dialing | Hijacking | Replying | Releasing // handleConnect before the relay
    | Relaying
    | ConnectReturn                                        // the deferred releaseSem
    | Done

  /** `semReleased` is the flag of handleConnect; `acquired` and `released` count what happened. */
  datatype Request = Request(connect: bool, pc: PC, semReleased: bool, acquired: nat, released: nat)

  datatype State = State(threads: nat, sem: nat, reqs: seq<Request>)

  datatype Act =
    | Arrive(connect: bool)
    | AnswerEarly(r: nat)          // forbidden, health, quit, or not authenticated
    | Acquire(r: nat)
    | Busy(r: nat)                 // the channel is full: 503
    | Dispatch(r: nat)
    | Return(r: nat)               // handleHTTP returns, on whatever path
    | Proceed(r: nat)              // the next phase of handleConnect
    | Fail(r: nat)                 // handleConnect returns early
    | Receive(r: nat)              // <-s.sem
    | SkipReceive(r: nat)          // the deferred releaseSem finds the flag set
    | EndRelay(r: nat)

  ghost predicate Enabled(s: State, a: Act) {
    a.Arrive? ||
    (a.r < |s.reqs| &&
     var q := s.reqs[a.r];
     match a
     case AnswerEarly(_) => q.pc == Arrived
     case Acquire(_) => q.pc == Arrived && s.sem < s.threads
     case Busy(_) => q.pc == Arrived && s.sem >= s.threads
     case Dispatch(_) => q.pc == Admitted
     case Return(_) => q.pc == Forwarding
     case Proceed(_) => q.pc == Routing || q.pc == Dialing || q.pc == Hijacking || q.pc == Replying
     case Fail(_) => q.pc == Routing || q.pc == Dialing || q.pc == Hijacking
     case Receive(_) => WantsReceive(q) && s.sem > 0
     case SkipReceive(_) => q.pc == ConnectReturn && q.semReleased
     case EndRelay(_) => q.pc == Relaying)
  }

  /** The request is at a receive from the channel. */
  ghost predicate WantsReceive(q: Request) {
    q.pc == HTTPReturn || q.pc == Releasing || (q.pc == ConnectReturn && !q.semReleased)
  }

  ghost function Next(q: Request, a: Act): Request {
    match a
    case Arrive(_) => q
    case AnswerEarly(_) => q.(pc := Done)
    case Acquire(_) => q.(pc := Admitted, acquired := q.acquired + 1)
    case Busy(_) => q.(pc := Done)
    case Dispatch(_) => q.(pc := if q.connect then Routing else Forwarding)
    case Return(_) => q.(pc := HTTPReturn)
    case Proceed(_) =>
      q.(pc := match q.pc case Routing => Dialing case Dialing => Hijacking case Hijacking => Replying case _ => Releasing)
    case Fail(_) => q.(pc := ConnectReturn)
    case Receive(_) =>
      q.(pc := if q.pc == Releasing then Relaying else Done, semReleased := q.connect, released := q.released + 1)
    case SkipReceive(_) => q.(pc := Done)
    case EndRelay(_) => q.(pc := ConnectReturn)
  }

  ghost function Apply(s: State, a: Act): State
    requires Enabled(s, a)
  {
    if a.Arrive? then s.(reqs := s.reqs + [Request(a.connect, Arrived, false, 0, 0)])
    else
      s.(reqs := s.reqs[a.r := Next(s.reqs[a.r], a)],
         sem := if a.Acquire? then s.sem + 1 else if a.Receive? then s.sem - 1 else s.sem)
  }

  ghost predicate Linked(ss: seq<State>, acts: seq<Act>, i: nat)
    requires i < |acts| && |ss| == |acts| + 1
  {
    Enabled(ss[i], acts[i]) && ss[i + 1] == Apply(ss[i], acts[i])
  }

  ghost predicate Run(threads: nat, ss: seq<State>, acts: seq<Act>) {
    && |ss| == |acts| + 1 && ss[0] == State(threads, 0, [])
    && forall i :: 0 <= i < |acts| ==> Linked(ss, acts, i)
  }

  // ---------------------------------------------------------------- invariant

  /** Setting up or forwarding: between taking a slot and giving it back. */
  ghost predicate InSetup(q: Request) {
    || q.pc == Admitted || q.pc == Forwarding || q.pc == HTTPReturn
    || q.pc == Routing || q.pc == Dialing || q.pc == Hijacking || q.pc == Replying || q.pc == Releasing
    || (q.pc == ConnectReturn && !q.semReleased)
  }

  ghost predicate RequestOk(q: Request) {
    && q.released <= q.acquired <= 1
    && (InSetup(q) <==> q.acquired == 1 && q.released == 0)
    && (q.semReleased <==> q.connect && q.released == 1)
    && (q.pc == Arrived ==> q.acquired == 0)
    && (q.pc == Relaying ==> q.connect && q.released == 1)
    && (q.pc == Forwarding || q.pc == HTTPReturn ==> !q.connect)
    && (q.pc == Routing || q.pc == Dialing || q.pc == Hijacking || q.pc == Replying || q.pc == Releasing || q.pc == ConnectReturn ==> q.connect)
  }

  ghost function SetupCount(reqs: seq<Request>): nat {
    if reqs == [] then 0 else (if InSetup(reqs[0]) then 1 else 0) + SetupCount(reqs[1..])
  }

  ghost predicate Inv(s: State) {
    && s.sem == SetupCount(s.reqs) && s.sem <= s.threads
    && forall r :: 0 <= r < |s.reqs| ==> RequestOk(s.reqs[r])
  }

  lemma {:induction false} CountUpdate(reqs: seq<Request>, r: nat, q: Request)
    requires r < |reqs|
    ensures SetupCount(reqs[r := q]) == SetupCount(reqs) - (if InSetup(reqs[r]) then 1 else 0) + (if InSetup(q) then 1 else 0)
  {
    if r > 0 {
      assert reqs[r := q][1..] == reqs[1..][r - 1 := q];
      CountUpdate(reqs[1..], r - 1, q);
    } else {
      assert reqs[0 := q][1..] == reqs[1..];
    }
  }

  lemma {:induction false} CountSnoc(reqs: seq<Request>, q: Request)
    ensures SetupCount(reqs + [q]) == SetupCount(reqs) + if InSetup(q) then 1 else 0
  {
    if reqs == [] {
      assert (reqs + [q])[1..] == [];
    } else {
      assert (reqs + [q])[1..] == reqs[1..] + [q];
      CountSnoc(reqs[1..], q);
    }
  }

  lemma {:induction false} CountPositive(reqs: seq<Request>, r: nat)
    requires r < |reqs| && InSetup(reqs[r])
    ensures SetupCount(reqs) > 0
  {
    if r > 0 { CountPositive(reqs[1..], r - 1); }
  }

  lemma RequestStep(s: State, a: Act)
    requires Enabled(s, a) && !a.Arrive? && RequestOk(s.reqs[a.r])
    ensures var q, q' := s.reqs[a.r], Next(s.reqs[a.r], a);
            && RequestOk(q')
            && (InSetup(q') <==> a.Acquire? || (InSetup(q) && !a.Receive?))
            && (a.Acquire? ==> !InSetup(q)) && (a.Receive? ==> InSetup(q))
  {}

  lemma StepKeepsInv(s: State, a: Act)
    requires Inv(s) && Enabled(s, a)
    ensures Inv(Apply(s, a))
  {
    if a.Arrive? {
      CountSnoc(s.reqs, Request(a.connect, Arrived, false, 0, 0));
    } else {
      RequestStep(s, a);
      CountUpdate(s.reqs, a.r, Next(s.reqs[a.r], a));
    }
  }

  lemma {:induction false} RunInv(threads: nat, ss: seq<State>, acts: seq<Act>, i: nat)
    requires Run(threads, ss, acts) && i < |ss|
    ensures Inv(ss[i]) && ss[i].threads == threads
  {
    if i > 0 {
      RunInv(threads, ss, acts, i - 1);
      assert Linked(ss, acts, i - 1);
      StepKeepsInv(ss[i - 1], acts[i - 1]);
    }
  }

  // ---------------------------------------------------------------- theorems

  /** The occupancy of the channel is the number of requests in their setup or forwarding phase and
      never exceeds `threads`. */
  lemma OccupancyIsSetupCount(threads: nat, ss: seq<State>, acts: seq<Act>, i: nat)
    requires Run(threads, ss, acts) && i < |ss|
    ensures ss[i].sem == SetupCount(ss[i].reqs) && ss[i].sem <= threads
  {
    RunInv(threads, ss, acts, i);
  }

  /** No release blocks. */
  lemma ReceiveNeverBlocks(threads: nat, ss: seq<State>, acts: seq<Act>, i: nat, r: nat)
    requires Run(threads, ss, acts) && i < |ss| && r < |ss[i].reqs| && WantsReceive(ss[i].reqs[r])
    ensures Enabled(ss[i], Receive(r))
  {
    RunInv(threads, ss, acts, i);
    CountPositive(ss[i].reqs, r);
  }

  /** Each slot taken is given back exactly once on every path, and not while the request still sets
      up; a relaying tunnel holds none. */
  lemma ReleasedExactlyOnce(threads: nat, ss: seq<State>, acts: seq<Act>, i: nat, r: nat)
    requires Run(threads, ss, acts) && i < |ss| && r < |ss[i].reqs|
    ensures var q := ss[i].reqs[r];
            && q.acquired <= 1
            && (q.pc == Done ==> q.released == q.acquired)
            && (q.pc == Relaying ==> q.acquired == 1 && q.released == 1 && !InSetup(q))
            && (InSetup(q) ==> q.acquired == 1 && q.released == 0)
  {
    RunInv(threads, ss, acts, i);
    assert RequestOk(ss[i].reqs[r]);
  }

  /** A request is turned away as busy only while `threads` others are in setup. */
  lemma BusyOnlyWhenFull(threads: nat, ss: seq<State>, acts: seq<Act>, i: nat, r: nat)
    requires Run(threads, ss, acts) && i < |ss| && Enabled(ss[i], Busy(r))
    ensures SetupCount(ss[i].reqs) == threads
  {
    RunInv(threads, ss, acts, i);
  }

  ghost function Distance(q: Request): nat {
    match q.pc
    case Arrived => 9 case Admitted => 8 case Routing => 7 case Dialing => 6 case Hijacking => 5 case Replying => 4
    case Releasing => 3 case Relaying => 2 case ConnectReturn => 1 case Forwarding => 2 case HTTPReturn => 1 case Done => 0
  }

  lemma StepsCloser(s: State, b: Act)
    requires !b.Arrive? && Enabled(s, b) && RequestOk(s.reqs[b.r])
    ensures Distance(Next(s.reqs[b.r], b)) < Distance(s.reqs[b.r])
  {}

  /** A request that has not been answered can always go on, and every step brings it closer. */
  lemma RequestsFinish(threads: nat, ss: seq<State>, acts: seq<Act>, i: nat, r: nat) returns (a: Act)
    requires Run(threads, ss, acts) && i < |ss| && r < |ss[i].reqs| && ss[i].reqs[r].pc != Done
    ensures !a.Arrive? && a.r == r && Enabled(ss[i], a)
    ensures forall b: Act :: !b.Arrive? && b.r == r && Enabled(ss[i], b) ==> Distance(Next(ss[i].reqs[r], b)) < Distance(ss[i].reqs[r])
  {
    RunInv(threads, ss, acts, i);
    forall b: Act | !b.Arrive? && b.r == r && Enabled(ss[i], b) ensures Distance(Next(ss[i].reqs[r], b)) < Distance(ss[i].reqs[r]) {
      StepsCloser(ss[i], b);
    }
    var q := ss[i].reqs[r];
    if WantsReceive(q) { CountPositive(ss[i].reqs, r); }
    a := match q.pc
      case Arrived => AnswerEarly(r) case Admitted => Dispatch(r) case Forwarding => Return(r)
      case Relaying => EndRelay(r)
      case _ => if WantsReceive(q) then Receive(r) else if q.pc == ConnectReturn then SkipReceive(r) else Proceed(r);
  }

  // ---------------------------------------------------------------- admission and the relay

  /** An arrived request can take a slot exactly while fewer than `threads` requests are in setup, and is turned away
      exactly while all slots are taken. */
  lemma AdmittedIffFree(threads: nat, ss: seq<State>, acts: seq<Act>, i: nat, r: nat)
    requires Run(threads, ss, acts) && i < |ss| && r < |ss[i].reqs| && ss[i].reqs[r].pc == Arrived
    ensures Enabled(ss[i], Acquire(r)) <==> SetupCount(ss[i].reqs) < threads
    ensures Enabled(ss[i], Busy(r)) <==> SetupCount(ss[i].reqs) == threads
  {
    RunInv(threads, ss, acts, i);
  }

  /** An admitted request is set up as a tunnel or forwarded, as it asks. */
  lemma AdmittedIsServed(threads: nat, ss: seq<State>, acts: seq<Act>, i: nat, r: nat)
    requires Run(threads, ss, acts) && i < |acts| && r < |ss[i].reqs|
    ensures r < |ss[i + 1].reqs|
    ensures acts[i] == Acquire(r) ==> ss[i + 1].reqs[r].pc == Admitted && ss[i + 1].sem == ss[i].sem + 1
    ensures acts[i] == Dispatch(r) ==> ss[i + 1].reqs[r].pc == if ss[i].reqs[r].connect then Routing else Forwarding
  {
    assert Linked(ss, acts, i);
  }

  lemma StepFromReleasing(s: State, a: Act, r: nat)
    requires Enabled(s, a) && r < |s.reqs| && (s.reqs[r].pc == Releasing || s.reqs[r].pc == Relaying)
    ensures var q := Apply(s, a).reqs[r]; q == s.reqs[r] || (if s.reqs[r].pc == Releasing then q.pc == Relaying else q.pc == ConnectReturn)
  {}

  /** A tunnel that has been set up relays: from the early release a request reaches its end only through the relay. */
  lemma {:induction false} TunnelRelays(threads: nat, ss: seq<State>, acts: seq<Act>, i: nat, k: nat, r: nat) returns (j: nat)
    requires Run(threads, ss, acts) && i <= k < |ss| && r < |ss[i].reqs| && r < |ss[k].reqs|
    requires ss[i].reqs[r].pc == Releasing && ss[k].reqs[r].pc != Releasing
    ensures i < j <= k && r < |ss[j].reqs| && ss[j].reqs[r].pc == Relaying
    decreases k - i
  {
    assert i < k;
    assert Linked(ss, acts, i);
    StepFromReleasing(ss[i], acts[i], r);
    j := i + 1;
    if ss[j].reqs[r].pc == Releasing { j := TunnelRelays(threads, ss, acts, i + 1, k, r); }
  }

  /** The phases of a tunnel's setup, in order, until it relays. */
  ghost function Phase(pc: PC): nat {
    match pc
    case Admitted => 1 case Routing => 2 case Dialing => 3 case Hijacking => 4 case Replying => 5 case Releasing => 6 case Relaying => 7
    case _ => 0
  }

  /** No phase is skipped: a request moves to the next one, or leaves the setup through its return. */
  lemma PhasesInOrder(threads: nat, ss: seq<State>, acts: seq<Act>, i: nat, r: nat)
    requires Run(threads, ss, acts) && i < |acts| && r < |ss[i].reqs| && ss[i].reqs[r].connect
    ensures r < |ss[i + 1].reqs|
    ensures var p, p' := Phase(ss[i].reqs[r].pc), Phase(ss[i + 1].reqs[r].pc); p' == p || p' == p + 1 || p' == 0
    ensures Phase(ss[i + 1].reqs[r].pc) == 0 && Phase(ss[i].reqs[r].pc) > 0 ==> ss[i + 1].reqs[r].pc == ConnectReturn
  {
    assert Linked(ss, acts, i);
  }
}
