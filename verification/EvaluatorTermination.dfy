/** Under every schedule the calls in progress all return: each step of a thread uses up some of a
    bounded amount of work, and until everyone has finished some thread can step. */
module PacTermination {
  import opened Basics
  import opened ResultCaches
  import opened PacEvaluator
  import opened PacInvariant
  import opened PacTheorems

  ghost function Sum<T>(ts: seq<T>, f: T -> nat): nat {
    if ts == [] then 0 else f(ts[0]) + Sum(ts[1..], f)
  }

  lemma {:induction false} SumUpdate<T>(ts: seq<T>, f: T -> nat, i: nat, x: T)
    requires i < |ts|
    ensures Sum(ts[i := x], f) + f(ts[i]) == Sum(ts, f) + f(x)
  {
    if i > 0 {
      assert ts[i := x][1..] == ts[1..][i - 1 := x];
      SumUpdate(ts[1..], f, i - 1, x);
    } else {
      assert ts[0 := x][1..] == ts[1..];
    }
  }

  lemma {:induction false} SumSnoc<T>(ts: seq<T>, f: T -> nat, x: T)
    ensures Sum(ts + [x], f) == Sum(ts, f) + f(x)
  {
    if ts != [] {
      assert (ts + [x])[1..] == ts[1..] + [x];
      SumSnoc(ts[1..], f, x);
    } else {
      assert ([] + [x])[1..] == [];
    }
  }

  lemma {:induction false} SumSame<T>(ts: seq<T>, us: seq<T>, f: T -> nat)
    requires |ts| == |us| && forall i :: 0 <= i < |ts| ==> f(ts[i]) == f(us[i])
    ensures Sum(ts, f) == Sum(us, f)
  {
    if ts != [] { SumSame(ts[1..], us[1..], f); }
  }

  /** The broadcasts a thread can still cause: at most one. */
  ghost function Broadcasts<Q, R>(th: Thread<Q, R>): nat {
    match th.pc
    case Lookup1 => 1
    case Await(_) => 1
    case Inside(_) => 1
    case Parked => 1
    case Spawn(_) => 1
    case Fetch => 1
    case _ => 0
  }

  /** How far a thread is from its end or from parking. */
  ghost function Distance<Q, R>(th: Thread<Q, R>): nat {
    match th.pc
    case Lookup1 => 24
    case Await(Kick(_)) => 23
    case Await(Ensure) => 23
    case Await(SwapCheck(_)) => 13
    case Await(Finish(_)) => 8
    case Await(_) => 4
    case Inside(Kick(_)) => 22
    case Inside(Ensure) => 22
    case Inside(SwapCheck(_)) => 12
    case Inside(SwapGen(_)) => 11
    case Inside(SwapStore(_)) => 10
    case Inside(SwapStamp) => 9
    case Inside(Finish(_)) => 7
    case Inside(CloseFlag) => 3
    case Inside(CloseStore) => 2
    case Inside(CloseWake) => 1
    case Spawn(_) => 21
    case Fetch => 14
    case Lookup2 => 6
    case LoadPool => 5
    case Checkout(_) => 4
    case Evaluate(_, _) => 3
    case Store(_, _, _) => 2
    case PutBack(_, _, _) => 1
    case _ => 0
  }

  ghost function BroadcastsLeft<Q, K, R>(s: State<Q, K, R>): nat { Sum(s.threads, Broadcasts) }

  ghost function DistanceLeft<Q, K, R>(s: State<Q, K, R>): nat { Sum(s.threads, Distance) }

  /** Less work is left in `s'` than in `s`. */
  ghost predicate LessWork<Q, K, R>(s': State<Q, K, R>, s: State<Q, K, R>) {
    || BroadcastsLeft(s') < BroadcastsLeft(s)
    || (BroadcastsLeft(s') == BroadcastsLeft(s) && DistanceLeft(s') < DistanceLeft(s))
  }

  lemma MoveDecreases<Q, K, R>(s: State<Q, K, R>, s': State<Q, K, R>, t: Tid)
    requires t < |s.threads| == |s'.threads| && s'.threads == s.threads[t := s'.threads[t]]
    requires Broadcasts(s'.threads[t]) <= Broadcasts(s.threads[t]) && Distance(s'.threads[t]) < Distance(s.threads[t])
    ensures LessWork(s', s)
  {
    SumUpdate(s.threads, Broadcasts, t, s'.threads[t]);
    SumUpdate(s.threads, Distance, t, s'.threads[t]);
  }

  lemma LocalDecreases<Q, K, R>(par: Params<Q, K, R>, s: State<Q, K, R>, a: Act<Q, R>)
    requires LockInv(s) && RoleInv(s) && Enabled(s, a) && IsLocal(a)
    ensures LessWork(Apply(par, s, a), s)
  {
    assert RoleOk(s.threads[a.t]);
    LocalMoves(par, s, a);
    LocalShrinks(par, s, a);
    MoveDecreases(s, Apply(par, s, a), a.t);
  }

  lemma LocalShrinks<Q, K, R>(par: Params<Q, K, R>, s: State<Q, K, R>, a: Act<Q, R>)
    requires Enabled(s, a) && IsLocal(a) && RoleOk(s.threads[a.t])
    ensures Shrinks(s.threads[a.t], Apply(par, s, a).threads[a.t])
  {
    if a.Take? || a.EvalFails? || a.EvalSucceeds? || a.PutResult? || a.Release? { EvaluatingShrinks(par, s, a); }
    else { LoadingShrinks(par, s, a); }
  }

  ghost predicate Shrinks<Q, R>(th: Thread<Q, R>, th': Thread<Q, R>) {
    Broadcasts(th') <= Broadcasts(th) && Distance(th') < Distance(th)
  }

  lemma EvaluatingShrinks<Q, K, R>(par: Params<Q, K, R>, s: State<Q, K, R>, a: Act<Q, R>)
    requires Enabled(s, a) && (a.Take? || a.EvalFails? || a.EvalSucceeds? || a.PutResult? || a.Release?) && RoleOk(s.threads[a.t])
    ensures Shrinks(s.threads[a.t], Apply(par, s, a).threads[a.t])
  {}

  lemma LoadingShrinks<Q, K, R>(par: Params<Q, K, R>, s: State<Q, K, R>, a: Act<Q, R>)
    requires Enabled(s, a) && (a.Acquire? || a.Get? || a.FetchFails? || a.FetchSucceeds? || a.Load?) && RoleOk(s.threads[a.t])
    ensures Shrinks(s.threads[a.t], Apply(par, s, a).threads[a.t])
  {}

  lemma BodyDecreases<Q, K, R>(par: Params<Q, K, R>, s: State<Q, K, R>, t: Tid)
    requires HoldsMutex(s, t) && !s.threads[t].pc.sec.Finish? && !s.threads[t].pc.sec.CloseWake?
    ensures LessWork(BodyStep(par, s, t), s)
  {
    BodyMoves(par, s, t);
    MoveDecreases(s, BodyStep(par, s, t), t);
  }

  lemma WakeDecreases<Q, K, R>(par: Params<Q, K, R>, s: State<Q, K, R>, t: Tid)
    requires HoldsMutex(s, t) && (s.threads[t].pc.sec.Finish? || s.threads[t].pc.sec.CloseWake?)
    ensures LessWork(BodyStep(par, s, t), s)
  {
    var s' := BodyStep(par, s, t);
    BodyMoves(par, s, t);
    SumSame(s.threads, Woken(s.threads), Broadcasts);
    SumUpdate(Woken(s.threads), Broadcasts, t, s'.threads[t]);
  }

  lemma SpawnDecreases<Q, K, R>(par: Params<Q, K, R>, s: State<Q, K, R>, t: Tid)
    requires Enabled(s, StartReload(t))
    ensures LessWork(Apply(par, s, StartReload(t)), s)
  {
    var s' := Apply(par, s, StartReload(t));
    var moved := s.threads[t := s'.threads[t]];
    assert s'.threads == moved + [Thread(Reloader, Fetch)];
    SumUpdate(s.threads, Broadcasts, t, s'.threads[t]);
    SumUpdate(s.threads, Distance, t, s'.threads[t]);
    SumSnoc(moved, Broadcasts, Thread(Reloader, Fetch));
    SumSnoc(moved, Distance, Thread(Reloader, Fetch));
  }

  /** Every step of a thread leaves less work, so no schedule goes on for ever without new calls. */
  lemma StepDecreasesWork<Q, K, R>(par: Params<Q, K, R>, s: State<Q, K, R>, a: Act<Q, R>)
    requires Inv(par, s) && Enabled(s, a) && IsThreadAct(a)
    ensures LessWork(Apply(par, s, a), s)
  {
    if IsLocal(a) { LocalDecreases(par, s, a); }
    else if a.StartReload? { SpawnDecreases(par, s, a.t); }
    else if s.threads[a.t].pc.sec.Finish? || s.threads[a.t].pc.sec.CloseWake? { WakeDecreases(par, s, a.t); }
    else { BodyDecreases(par, s, a.t); }
  }

  ghost predicate AllFinished<Q, K, R>(s: State<Q, K, R>) {
    forall t :: 0 <= t < |s.threads| ==> Finished(s.threads[t].pc)
  }

  /** Steps of threads only, from `s`. */
  ghost predicate Schedule<Q, K, R>(par: Params<Q, K, R>, ss: seq<State<Q, K, R>>, acts: seq<Act<Q, R>>) {
    && |ss| == |acts| + 1
    && forall i :: 0 <= i < |acts| ==> IsThreadAct(acts[i]) && Linked(par, ss, acts, i)
  }

  lemma ScheduleCons<Q, K, R>(par: Params<Q, K, R>, s: State<Q, K, R>, a: Act<Q, R>, ss: seq<State<Q, K, R>>, acts: seq<Act<Q, R>>)
    requires Schedule(par, ss, acts) && IsThreadAct(a) && Enabled(s, a) && ss[0] == Apply(par, s, a)
    ensures Schedule(par, [s] + ss, [a] + acts)
  {
    forall i | 0 <= i < |acts| + 1 ensures IsThreadAct(([a] + acts)[i]) && Linked(par, [s] + ss, [a] + acts, i) {
      if i > 0 { assert Linked(par, ss, acts, i - 1); }
    }
  }

  /** From every reachable state the threads can run to completion. */
  lemma {:induction false} EveryoneCanFinish<Q, K, R>(par: Params<Q, K, R>, s: State<Q, K, R>)
    returns (ss: seq<State<Q, K, R>>, acts: seq<Act<Q, R>>)
    requires Inv(par, s)
    ensures Schedule(par, ss, acts) && ss[0] == s && AllFinished(ss[|acts|])
    decreases BroadcastsLeft(s), DistanceLeft(s)
  {
    if AllFinished(s) {
      ss, acts := [s], [];
    } else {
      var t :| 0 <= t < |s.threads| && !Finished(s.threads[t].pc);
      var a := SomeoneCanStep(par, s, t);
      StepKeepsInv(par, s, a);
      StepDecreasesWork(par, s, a);
      ss, acts := EveryoneCanFinish(par, Apply(par, s, a));
      ScheduleCons(par, s, a, ss, acts);
      ss, acts := [s] + ss, [a] + acts;
    }
  }

  /** A schedule cannot be extended exactly when everyone has finished: with the above, every call in
      progress returns, whatever the order of steps. */
  lemma StuckIffFinished<Q, K, R>(par: Params<Q, K, R>, s: State<Q, K, R>)
    requires Inv(par, s)
    ensures AllFinished(s) <==> forall a :: IsThreadAct(a) ==> !Enabled(s, a)
  {
    if !AllFinished(s) {
      var t :| 0 <= t < |s.threads| && !Finished(s.threads[t].pc);
      var a := SomeoneCanStep(par, s, t);
    }
  }
}
