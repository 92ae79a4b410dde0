/** The CONNECT tunnel relay of internal/proxy/tunnel.go: two pumps over two connections.

    A pump is named by the side it writes to; it reads from the other side. Reads and writes have
    every outcome the network may give them, limited only by what this relay itself has closed. */
module TunnelRelay {

  datatype Side = Left | Right

  ghost function Other(d: Side): Side { if d == Left then Right else Left }

  datatype Two<T> = Two(left: T, right: T) {
    ghost function At(d: Side): T { if d == Left then left else right }
    ghost function Set(d: Side, x: T): Two<T> { if d == Left then Two(x, right) else Two(left, x) }
  }

  const BUFFER_SIZE := 32 * 1024

  datatype ReadError = NoError | EOF | Failed

  datatype PC<T> = Reading | Writing(chunk: seq<T>, err: ReadError) | HalfClosing | Finished

  /** Why a pump left its loop. */
  datatype Exit = Running | AtEOF | ReadFailed | WriteFailed

  /** `pos` bytes of the source stream have been read; `delivered` has reached the destination. */
  datatype Pump<T> = Pump(pc: PC<T>, pos: nat, delivered: seq<T>, exit: Exit)

  datatype Conn = Conn(closed: bool, writeClosed: bool)

  datatype Main = Waiting | ClosingLeft | ClosingRight | Returned

  /** What the peers and the network do: the stream each pump has to carry, whether its reads can end
      in an error other than EOF, whether its writes can fail, and which connections can half-close. */
  datatype Env<T> = Env(stream: Two<seq<T>>, readMayFail: Two<bool>, writeMayFail: Two<bool>, tcp: Two<bool>)

  datatype Event = Wrote(d: Side) | HalfClosed(d: Side)

  datatype State<T> = State(pumps: Two<Pump<T>>, conns: Two<Conn>, main: Main, log: seq<Event>)

  ghost function Init<T>(): State<T> {
    State(Two(Pump(Reading, 0, [], Running), Pump(Reading, 0, [], Running)),
          Two(Conn(false, false), Conn(false, false)), Waiting, [])
  }

  datatype Act = Read(d: Side, n: nat, err: ReadError) | Write(d: Side, n: nat, ok: bool) | HalfClose(d: Side) | MainStep

  ghost predicate Enabled<T>(env: Env<T>, s: State<T>, a: Act) {
    match a
    case Read(d, n, err) =>
      var p := s.pumps.At(d);
      && p.pc.Reading?
      && (if s.conns.At(Other(d)).closed then n == 0 && err == Failed
          else && n <= BUFFER_SIZE && p.pos + n <= |env.stream.At(d)|
               && (err == EOF ==> p.pos + n == |env.stream.At(d)|)
               && (err == Failed ==> env.readMayFail.At(d)))
    case Write(d, n, ok) =>
      var p := s.pumps.At(d);
      && p.pc.Writing? && n <= |p.pc.chunk|
      && (if s.conns.At(d).closed || s.conns.At(d).writeClosed then n == 0 && !ok
          else if ok then n == |p.pc.chunk| else env.writeMayFail.At(d))
    case HalfClose(d) => s.pumps.At(d).pc.HalfClosing?
    case MainStep =>
      && s.main != Returned
      && (s.main == Waiting ==> s.pumps.left.pc.Finished? && s.pumps.right.pc.Finished?)
  }

  /** The end of an iteration: go on, or leave the loop, closing the source after a failed read. */
  ghost function AfterRead<T>(s: State<T>, d: Side, p: Pump<T>, err: ReadError): State<T> {
    match err
    case NoError => s.(pumps := s.pumps.Set(d, p.(pc := Reading)))
    case EOF => s.(pumps := s.pumps.Set(d, p.(pc := HalfClosing, exit := AtEOF)))
    case Failed =>
      s.(pumps := s.pumps.Set(d, p.(pc := HalfClosing, exit := ReadFailed)),
         conns := s.conns.Set(Other(d), s.conns.At(Other(d)).(closed := true)))
  }

  ghost function Apply<T>(env: Env<T>, s: State<T>, a: Act): State<T>
    requires Enabled(env, s, a)
  {
    match a
    case Read(d, n, err) =>
      var p := s.pumps.At(d);
      if n > 0 then
        var chunk := env.stream.At(d)[p.pos..p.pos + n];
        s.(pumps := s.pumps.Set(d, p.(pc := Writing(chunk, err), pos := p.pos + n)))
      else AfterRead(s, d, p, err)
    case Write(d, n, ok) =>
      var p := s.pumps.At(d);
      var p1 := p.(delivered := p.delivered + p.pc.chunk[..n]);
      var s1 := s.(log := s.log + [Wrote(d)]);
      if ok then AfterRead(s1, d, p1, p.pc.err)
      else s1.(pumps := s.pumps.Set(d, p1.(pc := HalfClosing, exit := WriteFailed)))
    case HalfClose(d) =>
      s.(pumps := s.pumps.Set(d, s.pumps.At(d).(pc := Finished)),
         conns := if env.tcp.At(d) then s.conns.Set(d, s.conns.At(d).(writeClosed := true)) else s.conns,
         log := s.log + [HalfClosed(d)])
    case MainStep =>
      match s.main
      case Waiting => s.(main := ClosingLeft)
      case ClosingLeft => s.(main := ClosingRight, conns := s.conns.Set(Left, s.conns.left.(closed := true)))
      case _ => s.(main := Returned, conns := s.conns.Set(Right, s.conns.right.(closed := true)))
  }

  ghost predicate Linked<T>(env: Env<T>, ss: seq<State<T>>, acts: seq<Act>, i: nat)
    requires i < |acts| && |ss| == |acts| + 1
  {
    Enabled(env, ss[i], acts[i]) && ss[i + 1] == Apply(env, ss[i], acts[i])
  }

  ghost predicate Run<T>(env: Env<T>, ss: seq<State<T>>, acts: seq<Act>) {
    && |ss| == |acts| + 1 && ss[0] == Init()
    && forall i :: 0 <= i < |acts| ==> Linked(env, ss, acts, i)
  }

  // ---------------------------------------------------------------- invariant

  /** What has been delivered, for one pump. */
  ghost predicate PumpOk<T>(p: Pump<T>, stream: seq<T>) {
    && p.pos <= |stream|
    && (p.exit == Running <==> p.pc.Reading? || p.pc.Writing?)
    && match p.pc
       case Reading => p.delivered == stream[..p.pos]
       case Writing(chunk, err) => p.delivered + chunk == stream[..p.pos] && chunk != [] && (err == EOF ==> p.pos == |stream|)
       case _ =>
         && p.delivered <= stream
         && (p.exit == AtEOF ==> p.delivered == stream)
         && (p.exit == ReadFailed ==> p.delivered == stream[..p.pos])
  }

  /** A pump fails only where the network may fail it, or because the other pump's read failed. */
  ghost predicate BlameOk<T>(env: Env<T>, s: State<T>, d: Side) {
    && (s.pumps.At(d).exit == ReadFailed ==> env.readMayFail.At(d))
    && (s.pumps.At(d).pc.Writing? && s.pumps.At(d).pc.err == Failed ==> env.readMayFail.At(d))
    && (s.pumps.At(d).exit == WriteFailed ==> env.writeMayFail.At(d) || env.readMayFail.At(Other(d)))
  }

  ghost predicate MainHasClosed(main: Main, d: Side) {
    main == Returned || (main == ClosingRight && d == Left)
  }

  /** A connection is closed only by the pump that failed to read it or at the end, and its write side
      only by the pump that has finished writing to it. */
  ghost predicate ConnOk<T>(s: State<T>, d: Side) {
    && (s.conns.At(d).closed ==> s.pumps.At(Other(d)).exit == ReadFailed || MainHasClosed(s.main, d))
    && (MainHasClosed(s.main, d) ==> s.conns.At(d).closed)
    && (s.conns.At(d).writeClosed ==> s.pumps.At(d).pc.Finished?)
  }

  ghost predicate LogOk<T>(s: State<T>) {
    && (forall i :: 0 <= i < |s.log| && s.log[i].HalfClosed? ==> s.pumps.At(s.log[i].d).pc.Finished?)
    && (forall i, j :: 0 <= i < j < |s.log| && s.log[i].HalfClosed? ==> s.log[j] != Wrote(s.log[i].d))
  }

  ghost predicate Inv<T>(env: Env<T>, s: State<T>) {
    && (forall d :: PumpOk(s.pumps.At(d), env.stream.At(d)) && BlameOk(env, s, d) && ConnOk(s, d))
    && (s.main != Waiting ==> s.pumps.left.pc.Finished? && s.pumps.right.pc.Finished?)
    && LogOk(s)
  }

  lemma AfterReadKeeps<T>(env: Env<T>, s: State<T>, d: Side, p: Pump<T>, err: ReadError)
    requires Inv(env, s) && s.pumps.At(d).exit == Running && p.exit == Running
    requires p.pos <= |env.stream.At(d)| && p.delivered == env.stream.At(d)[..p.pos]
    requires (err == EOF ==> p.pos == |env.stream.At(d)|) && (err == Failed ==> env.readMayFail.At(d))
    ensures Inv(env, AfterRead(s, d, p, err))
  {
    var s' := AfterRead(s, d, p, err);
    assert err == EOF ==> p.delivered == env.stream.At(d);
    forall e ensures PumpOk(s'.pumps.At(e), env.stream.At(e)) && BlameOk(env, s', e) && ConnOk(s', e) {
      assert PumpOk(s.pumps.At(e), env.stream.At(e)) && BlameOk(env, s, e) && ConnOk(s, e);
    }
  }

  lemma ReadKeeps<T>(env: Env<T>, s: State<T>, d: Side, n: nat, err: ReadError)
    requires Inv(env, s) && Enabled(env, s, Read(d, n, err))
    ensures Inv(env, Apply(env, s, Read(d, n, err)))
  {
    var s' := Apply(env, s, Read(d, n, err));
    var p, stream := s.pumps.At(d), env.stream.At(d);
    assert PumpOk(p, stream) && ConnOk(s, Other(d)) && ConnOk(s, d);
    if n == 0 {
      AfterReadKeeps(env, s, d, p, err);
    } else {
      assert stream[..p.pos] + stream[p.pos..p.pos + n] == stream[..p.pos + n];
      forall e ensures PumpOk(s'.pumps.At(e), env.stream.At(e)) && BlameOk(env, s', e) && ConnOk(s', e) {
        assert PumpOk(s.pumps.At(e), env.stream.At(e)) && BlameOk(env, s, e) && ConnOk(s, e);
      }
    }
  }

  lemma WrittenPrefix<T>(delivered: seq<T>, chunk: seq<T>, n: nat, stream: seq<T>, pos: nat)
    requires pos <= |stream| && n <= |chunk| && delivered + chunk == stream[..pos]
    ensures delivered + chunk[..n] <= stream
    ensures n == |chunk| ==> delivered + chunk[..n] == stream[..pos]
    ensures stream[..|stream|] == stream
  {
    assert delivered + chunk[..n] == (delivered + chunk)[..|delivered| + n];
  }

  lemma LoggedKeeps<T>(env: Env<T>, s: State<T>, d: Side)
    requires Inv(env, s) && s.pumps.At(d).exit == Running
    ensures Inv(env, s.(log := s.log + [Wrote(d)]))
  {
    var s' := s.(log := s.log + [Wrote(d)]);
    forall e ensures PumpOk(s'.pumps.At(e), env.stream.At(e)) && BlameOk(env, s', e) && ConnOk(s', e) {
      assert PumpOk(s.pumps.At(e), env.stream.At(e)) && BlameOk(env, s, e) && ConnOk(s, e);
    }
  }

  lemma WriteKeeps<T>(env: Env<T>, s: State<T>, d: Side, n: nat, ok: bool)
    requires Inv(env, s) && Enabled(env, s, Write(d, n, ok))
    ensures Inv(env, Apply(env, s, Write(d, n, ok)))
  {
    var p, stream := s.pumps.At(d), env.stream.At(d);
    assert PumpOk(p, stream) && ConnOk(s, d) && BlameOk(env, s, d) && BlameOk(env, s, Other(d));
    WrittenPrefix(p.delivered, p.pc.chunk, n, stream, p.pos);
    LoggedKeeps(env, s, d);
    var s1, p1 := s.(log := s.log + [Wrote(d)]), p.(delivered := p.delivered + p.pc.chunk[..n]);
    if ok {
      AfterReadKeeps(env, s1, d, p1, p.pc.err);
    } else {
      var s' := Apply(env, s, Write(d, n, ok));
      forall e ensures PumpOk(s'.pumps.At(e), env.stream.At(e)) && BlameOk(env, s', e) && ConnOk(s', e) {
        assert PumpOk(s.pumps.At(e), env.stream.At(e)) && BlameOk(env, s, e) && ConnOk(s, e);
      }
    }
  }

  lemma CloseKeeps<T>(env: Env<T>, s: State<T>, a: Act)
    requires Inv(env, s) && Enabled(env, s, a) && (a.HalfClose? || a.MainStep?)
    ensures Inv(env, Apply(env, s, a))
  {
    var s' := Apply(env, s, a);
    forall e ensures PumpOk(s'.pumps.At(e), env.stream.At(e)) && BlameOk(env, s', e) && ConnOk(s', e) {
      assert PumpOk(s.pumps.At(e), env.stream.At(e)) && BlameOk(env, s, e) && ConnOk(s, e);
      assert ConnOk(s, Other(e));
    }
  }

  lemma InitKeeps<T>(env: Env<T>)
    ensures Inv(env, Init())
  {}

  /** Every step of either pump and of the caller keeps the invariant. */
  lemma StepKeeps<T>(env: Env<T>, s: State<T>, a: Act)
    requires Inv(env, s) && Enabled(env, s, a)
    ensures Inv(env, Apply(env, s, a))
  {
    if a.Read? { ReadKeeps(env, s, a.d, a.n, a.err); }
    else if a.Write? { WriteKeeps(env, s, a.d, a.n, a.ok); }
    else { CloseKeeps(env, s, a); }
  }

  lemma {:induction false} RunInv<T>(env: Env<T>, ss: seq<State<T>>, acts: seq<Act>, i: nat)
    requires Run(env, ss, acts) && i < |ss|
    ensures Inv(env, ss[i])
  {
    if i > 0 {
      RunInv(env, ss, acts, i - 1);
      assert Linked(env, ss, acts, i - 1);
      StepKeeps(env, ss[i - 1], acts[i - 1]);
    }
  }

  // ---------------------------------------------------------------- theorems

  /** At every moment the bytes delivered in each direction are a prefix of its source stream. */
  lemma DeliveredIsPrefix<T>(env: Env<T>, ss: seq<State<T>>, acts: seq<Act>, i: nat, d: Side)
    requires Run(env, ss, acts) && i < |ss|
    ensures ss[i].pumps.At(d).delivered <= env.stream.At(d)
  {
    RunInv(env, ss, acts, i);
    assert PumpOk(ss[i].pumps.At(d), env.stream.At(d));
  }

  /** Unless the other pump's read failed, a pump that is still running finds both its connections as
      the network left them: an EOF or a failed write in one direction never stops the other. */
  lemma OtherDirectionUntouched<T>(env: Env<T>, ss: seq<State<T>>, acts: seq<Act>, i: nat, d: Side)
    requires Run(env, ss, acts) && i < |ss|
    requires ss[i].pumps.At(d).exit == Running && ss[i].pumps.At(Other(d)).exit != ReadFailed
    ensures !ss[i].conns.At(d).closed && !ss[i].conns.At(d).writeClosed && !ss[i].conns.At(Other(d)).closed
  {
    RunInv(env, ss, acts, i);
    var s := ss[i];
    assert ConnOk(s, d) && ConnOk(s, Other(d)) && PumpOk(s.pumps.At(d), env.stream.At(d));
    assert s.pumps.At(d) == s.pumps.left || s.pumps.At(d) == s.pumps.right;
  }

  /** If the writes of a direction succeed, its source ends cleanly and the opposite direction sees no
      read error, then its whole stream has been delivered when its pump finishes. */
  lemma WholeStreamDelivered<T>(env: Env<T>, ss: seq<State<T>>, acts: seq<Act>, i: nat, d: Side)
    requires Run(env, ss, acts) && i < |ss|
    requires !env.readMayFail.At(d) && !env.writeMayFail.At(d) && !env.readMayFail.At(Other(d))
    requires ss[i].pumps.At(d).pc.Finished?
    ensures ss[i].pumps.At(d).delivered == env.stream.At(d)
  {
    RunInv(env, ss, acts, i);
    assert PumpOk(ss[i].pumps.At(d), env.stream.At(d)) && BlameOk(env, ss[i], d);
  }

  // ---------------------------------------------------------------- exactly when delivery is guaranteed

  /** In every run, a finished pump has delivered its whole stream. */
  ghost predicate Guaranteed<T(!new)>(env: Env<T>, d: Side) {
    forall ss: seq<State<T>>, acts: seq<Act> :: Run(env, ss, acts) && ss[|acts|].pumps.At(d).pc.Finished? ==>
      ss[|acts|].pumps.At(d).delivered == env.stream.At(d)
  }

  /** A run that ends in `s`. */
  ghost predicate Reaches<T(!new)>(env: Env<T>, s: State<T>) {
    exists ss: seq<State<T>>, acts: seq<Act> :: Run(env, ss, acts) && ss[|acts|] == s
  }

  lemma InitReached<T(!new)>(env: Env<T>)
    ensures Reaches(env, Init())
  {
    var ss: seq<State<T>>, acts: seq<Act> := [Init()], [];
    assert Run(env, ss, acts) && ss[|acts|] == Init();
  }

  lemma StepReaches<T(!new)>(env: Env<T>, s: State<T>, a: Act)
    requires Reaches(env, s) && Enabled(env, s, a)
    ensures Reaches(env, Apply(env, s, a))
  {
    var ss: seq<State<T>>, acts: seq<Act> :| Run(env, ss, acts) && ss[|acts|] == s;
    var ss', acts' := ss + [Apply(env, s, a)], acts + [a];
    forall i | 0 <= i < |acts'| ensures Linked(env, ss', acts', i) {
      if i < |acts| { assert Linked(env, ss, acts, i); }
    }
    assert Run(env, ss', acts') && ss'[|acts'|] == Apply(env, s, a);
  }

  /** A pump that has delivered nothing and only has to half-close can end that way. */
  lemma EndsShort<T(!new)>(env: Env<T>, s: State<T>, d: Side)
    requires Reaches(env, s) && s.pumps.At(d).pc.HalfClosing? && s.pumps.At(d).delivered == [] != env.stream.At(d)
    ensures !Guaranteed(env, d)
  {
    StepReaches(env, s, HalfClose(d));
    var s' := Apply(env, s, HalfClose(d));
    var ss: seq<State<T>>, acts: seq<Act> :| Run(env, ss, acts) && ss[|acts|] == s';
    assert ss[|acts|].pumps.At(d).pc.Finished?;
  }

  lemma ReadErrorLoses<T(!new)>(env: Env<T>, d: Side)
    requires env.stream.At(d) != [] && env.readMayFail.At(d)
    ensures !Guaranteed(env, d)
  {
    InitReached(env);
    StepReaches(env, Init(), Read(d, 0, Failed));
    EndsShort(env, Apply(env, Init(), Read(d, 0, Failed)), d);
  }

  /** One byte read and not yet written. */
  lemma OneByteRead<T(!new)>(env: Env<T>, d: Side) returns (s: State<T>)
    requires env.stream.At(d) != []
    ensures Reaches(env, s) && s.pumps.At(d) == Pump(Writing(env.stream.At(d)[0..1], NoError), 1, [], Running)
    ensures s.pumps.At(Other(d)) == Pump(Reading, 0, [], Running) && s.conns == Two(Conn(false, false), Conn(false, false))
  {
    InitReached(env);
    StepReaches(env, Init(), Read(d, 1, NoError));
    s := Apply(env, Init(), Read(d, 1, NoError));
  }

  lemma WriteErrorLoses<T(!new)>(env: Env<T>, d: Side)
    requires env.stream.At(d) != [] && env.writeMayFail.At(d)
    ensures !Guaranteed(env, d)
  {
    var s := OneByteRead(env, d);
    StepReaches(env, s, Write(d, 0, false));
    EndsShort(env, Apply(env, s, Write(d, 0, false)), d);
  }

  /** A read error of the other pump closes the connection this one writes to. */
  lemma ReadErrorStopsOther<T(!new)>(env: Env<T>, d: Side)
    requires env.stream.At(d) != [] && env.readMayFail.At(Other(d))
    ensures !Guaranteed(env, d)
  {
    var s := OneByteRead(env, d);
    StepReaches(env, s, Read(Other(d), 0, Failed));
    var s1 := Apply(env, s, Read(Other(d), 0, Failed));
    StepReaches(env, s1, Write(d, 0, false));
    EndsShort(env, Apply(env, s1, Write(d, 0, false)), d);
  }

  /** The whole stream is delivered in every run exactly when there is nothing to deliver, or neither this direction's
      reads and writes nor the other direction's reads can fail. */
  lemma DeliveryGuaranteedIff<T(!new)>(env: Env<T>, d: Side)
    ensures Guaranteed(env, d)
            <==> env.stream.At(d) == [] || !(env.readMayFail.At(d) || env.writeMayFail.At(d) || env.readMayFail.At(Other(d)))
  {
    if env.stream.At(d) == [] {
      forall ss: seq<State<T>>, acts: seq<Act> | Run(env, ss, acts) ensures ss[|acts|].pumps.At(d).delivered == [] {
        DeliveredIsPrefix(env, ss, acts, |acts|, d);
      }
    } else if env.readMayFail.At(d) {
      ReadErrorLoses(env, d);
    } else if env.writeMayFail.At(d) {
      WriteErrorLoses(env, d);
    } else if env.readMayFail.At(Other(d)) {
      ReadErrorStopsOther(env, d);
    } else {
      forall ss: seq<State<T>>, acts: seq<Act> | Run(env, ss, acts) && ss[|acts|].pumps.At(d).pc.Finished?
        ensures ss[|acts|].pumps.At(d).delivered == env.stream.At(d)
      {
        WholeStreamDelivered(env, ss, acts, |acts|, d);
      }
    }
  }

  // ---------------------------------------------------------------- closing

  /** Each pump half-closes its destination once, when it ends; the write side of a connection is closed exactly when
      the connection can half-close and its pump has ended; and a failed read closes its source. */
  ghost predicate HalfOk<T>(env: Env<T>, s: State<T>, d: Side) {
    && (s.conns.At(d).writeClosed <==> s.pumps.At(d).pc.Finished? && env.tcp.At(d))
    && (s.pumps.At(d).pc.Finished? <==> HalfClosed(d) in s.log)
    && (forall i, j :: 0 <= i < j < |s.log| && s.log[i] == HalfClosed(d) ==> s.log[j] != HalfClosed(d))
    && (s.pumps.At(d).exit == ReadFailed ==> s.conns.At(Other(d)).closed)
  }

  lemma ReadKeepsHalf<T>(env: Env<T>, s: State<T>, a: Act, e: Side)
    requires Enabled(env, s, a) && a.Read? && HalfOk(env, s, e)
    ensures HalfOk(env, Apply(env, s, a), e)
  {}

  lemma WriteKeepsHalf<T>(env: Env<T>, s: State<T>, a: Act, e: Side)
    requires Enabled(env, s, a) && a.Write? && HalfOk(env, s, e)
    ensures HalfOk(env, Apply(env, s, a), e)
  {
    LogGrows(s.log, Wrote(a.d), e);
  }

  lemma CloseKeepsHalf<T>(env: Env<T>, s: State<T>, a: Act, e: Side)
    requires Enabled(env, s, a) && (a.HalfClose? || a.MainStep?) && HalfOk(env, s, e)
    ensures HalfOk(env, Apply(env, s, a), e)
  {
    if a.HalfClose? { LogGrows(s.log, HalfClosed(a.d), e); }
  }

  lemma LogGrows(log: seq<Event>, x: Event, d: Side)
    ensures HalfClosed(d) in log + [x] <==> HalfClosed(d) in log || x == HalfClosed(d)
  {
    assert (log + [x])[|log|] == x;
  }

  lemma {:induction false} HalfAlways<T>(env: Env<T>, ss: seq<State<T>>, acts: seq<Act>, i: nat, d: Side)
    requires Run(env, ss, acts) && i < |ss|
    ensures HalfOk(env, ss[i], d)
  {
    if i > 0 {
      HalfAlways(env, ss, acts, i - 1, d);
      assert Linked(env, ss, acts, i - 1);
      var s, a := ss[i - 1], acts[i - 1];
      if a.Read? { ReadKeepsHalf(env, s, a, d); } else if a.Write? { WriteKeepsHalf(env, s, a, d); } else { CloseKeepsHalf(env, s, a, d); }
    }
  }

  /** A pump that has ended has half-closed its destination, once; a connection's write side is closed then, and only
      then, if it can half-close. */
  lemma HalfClosesOnce<T>(env: Env<T>, ss: seq<State<T>>, acts: seq<Act>, i: nat, d: Side)
    requires Run(env, ss, acts) && i < |ss|
    ensures ss[i].conns.At(d).writeClosed <==> ss[i].pumps.At(d).pc.Finished? && env.tcp.At(d)
    ensures ss[i].pumps.At(d).pc.Finished? <==> exists j :: 0 <= j < |ss[i].log| && ss[i].log[j] == HalfClosed(d)
    ensures forall j, k :: 0 <= j < k < |ss[i].log| && ss[i].log[j] == HalfClosed(d) ==> ss[i].log[k] != HalfClosed(d)
  {
    HalfAlways(env, ss, acts, i, d);
  }

  /** A failed read closes the connection it came from at once. */
  lemma FailedReadCloses<T>(env: Env<T>, ss: seq<State<T>>, acts: seq<Act>, i: nat, d: Side)
    requires Run(env, ss, acts) && i < |ss| && ss[i].pumps.At(d).exit == ReadFailed
    ensures ss[i].conns.At(Other(d)).closed
  {
    HalfAlways(env, ss, acts, i, d);
  }

  /** No pump writes to a connection whose write side has been closed, nor after it has half-closed its destination. */
  lemma NoWriteAfterHalfClose<T>(env: Env<T>, ss: seq<State<T>>, acts: seq<Act>, i: nat)
    requires Run(env, ss, acts) && i < |ss|
    ensures forall j, k :: 0 <= j < k < |ss[i].log| && ss[i].log[j].HalfClosed? ==> ss[i].log[k] != Wrote(ss[i].log[j].d)
    ensures i < |acts| && acts[i].Write? ==> !ss[i].conns.At(acts[i].d).writeClosed
  {
    RunInv(env, ss, acts, i);
    if i < |acts| && acts[i].Write? {
      assert Linked(env, ss, acts, i);
      HalfAlways(env, ss, acts, i, acts[i].d);
    }
  }

  /** Both connections are closed on return, and both pumps have ended. */
  lemma ClosedOnReturn<T>(env: Env<T>, ss: seq<State<T>>, acts: seq<Act>, i: nat)
    requires Run(env, ss, acts) && i < |ss| && ss[i].main == Returned
    ensures ss[i].conns.left.closed && ss[i].conns.right.closed
    ensures ss[i].pumps.left.pc.Finished? && ss[i].pumps.right.pc.Finished?
  {
    RunInv(env, ss, acts, i);
    assert ConnOk(ss[i], Left) && ConnOk(ss[i], Right);
  }

  // ---------------------------------------------------------------- the relay returns

  ghost function PumpWork<T>(p: Pump<T>, stream: seq<T>): nat
    requires p.pos <= |stream|
  {
    2 * (|stream| - p.pos) + match p.pc { case Reading => 2 case Writing(_, _) => 3 case HalfClosing => 1 case Finished => 0 }
  }

  ghost function Work<T>(env: Env<T>, s: State<T>): nat
    requires Inv(env, s)
  {
    assert PumpOk(s.pumps.At(Left), env.stream.At(Left)) && PumpOk(s.pumps.At(Right), env.stream.At(Right));
    PumpWork(s.pumps.left, env.stream.left) + PumpWork(s.pumps.right, env.stream.right) +
    match s.main { case Waiting => 3 case ClosingLeft => 2 case ClosingRight => 1 case Returned => 0 }
  }

  /** A read that yields neither data nor an error, which the idle deadline keeps from recurring. */
  ghost predicate Idle(a: Act) { a.Read? && a.n == 0 && a.err == NoError }

  /** Every other step uses up work. */
  lemma StepDecreasesWork<T>(env: Env<T>, s: State<T>, a: Act)
    requires Inv(env, s) && Enabled(env, s, a)
    ensures Inv(env, Apply(env, s, a))
    ensures if Idle(a) then Work(env, Apply(env, s, a)) == Work(env, s) else Work(env, Apply(env, s, a)) < Work(env, s)
  {
    StepKeeps(env, s, a);
  }

  ghost function BusySteps(acts: seq<Act>): nat {
    if acts == [] then 0 else BusySteps(acts[..|acts| - 1]) + if Idle(acts[|acts| - 1]) then 0 else 1
  }

  lemma {:induction false} BusyStepsUseWork<T>(env: Env<T>, ss: seq<State<T>>, acts: seq<Act>, i: nat)
    requires Run(env, ss, acts) && i <= |acts|
    ensures Inv(env, Init()) && Inv(env, ss[i]) && BusySteps(acts[..i]) + Work(env, ss[i]) <= Work(env, Init())
  {
    InitKeeps(env);
    RunInv(env, ss, acts, i);
    if i > 0 {
      BusyStepsUseWork(env, ss, acts, i - 1);
      assert Linked(env, ss, acts, i - 1);
      StepDecreasesWork(env, ss[i - 1], acts[i - 1]);
      assert acts[..i][..i - 1] == acts[..i - 1];
    }
  }

  /** The relay returns: a run has at most as many steps other than idle reads as there is work at the start, and
      until the relay has returned another such step is possible. */
  lemma RelayReturns<T>(env: Env<T>, ss: seq<State<T>>, acts: seq<Act>)
    requires Run(env, ss, acts)
    ensures Inv(env, Init()) && BusySteps(acts) <= Work(env, Init())
    ensures ss[|acts|].main != Returned ==> exists a :: Enabled(env, ss[|acts|], a) && !Idle(a)
    ensures BusySteps(acts) == Work(env, Init()) ==> ss[|acts|].main == Returned
  {
    BusyStepsUseWork(env, ss, acts, |acts|);
    assert acts[..|acts|] == acts;
    if ss[|acts|].main != Returned {
      var a := NeverStuck(env, ss[|acts|]);
    }
  }

  /** Until it has returned, some step other than an idle read is possible. */
  lemma NeverStuck<T>(env: Env<T>, s: State<T>) returns (a: Act)
    requires Inv(env, s) && s.main != Returned
    ensures Enabled(env, s, a) && !Idle(a)
  {
    assert PumpOk(s.pumps.At(Left), env.stream.At(Left)) && PumpOk(s.pumps.At(Right), env.stream.At(Right));
    if s.pumps.left.pc.Finished? && s.pumps.right.pc.Finished? {
      a := MainStep;
    } else {
      var d := if s.pumps.left.pc.Finished? then Right else Left;
      var p := s.pumps.At(d);
      match p.pc
      case HalfClosing => a := HalfClose(d);
      case Writing(chunk, _) =>
        a := if s.conns.At(d).closed || s.conns.At(d).writeClosed then Write(d, 0, false) else Write(d, |chunk|, true);
      case Reading =>
        a := if s.conns.At(Other(d)).closed then Read(d, 0, Failed)
             else if p.pos < |env.stream.At(d)| then Read(d, 1, NoError) else Read(d, 0, EOF);
    }
  }
}
