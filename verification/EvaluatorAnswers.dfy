/** What the PAC evaluator answers and why, and what its loads and its Close achieve. */
module PacAnswers {
  import opened Basics
  import opened ResultCaches
  import opened PacEvaluator
  import opened PacInvariant

  // ---------------------------------------------------------------- the decision of a call

  /** The answer a call is going to return, once it is decided. */
  ghost function Decided<R>(pc: PC<R>): Option<R> {
    if pc.Store? || pc.PutBack? || pc.Done? then Some(pc.out)
    else if pc.Spawn? then pc.answer
    else if (pc.Await? || pc.Inside?) && pc.sec.Kick? then Some(pc.sec.cached)
    else None
  }

  /** The steps that decide: a hit, the script's result, no pool at the load, a failed script. */
  ghost predicate Decides<Q, K, R>(par: Params<Q, K, R>, s: State<Q, K, R>, a: Act<Q, R>, t: Tid, out: R) {
    t < |s.threads| && s.threads[t].role.Caller? &&
    (|| (a == Get(t) && ResultCaches.Get(s.cache, par.keyOf(s.threads[t].role.q), s.now).0 == Some(out))
     || a == EvalSucceeds(t, out)
     || (a == Load(t) && s.pool.None? && out == par.direct)
     || (a == EvalFails(t) && out == par.direct))
  }

  /** The steps of others leave a thread where it is, except that a broadcast wakes it. */
  lemma OthersLeave<Q, K, R>(par: Params<Q, K, R>, s: State<Q, K, R>, a: Act<Q, R>, t: Tid)
    requires Enabled(s, a) && t < |s.threads| && (IsThreadAct(a) ==> a.t != t)
    ensures var s' := Apply(par, s, a);
            && t < |s'.threads|
            && (s'.threads[t] == s.threads[t] || (s.threads[t].pc.Parked? && s'.threads[t] == s.threads[t].(pc := Await(Ensure))))
  {
    if a.Body? { BodyMoves(par, s, a.t); }
  }

  /** A decision is final. */
  lemma DecisionStays<Q, K, R>(par: Params<Q, K, R>, s: State<Q, K, R>, a: Act<Q, R>, t: Tid)
    requires Enabled(s, a) && t < |s.threads| && Decided(s.threads[t].pc).Some?
    ensures t < |Apply(par, s, a).threads| && Decided(Apply(par, s, a).threads[t].pc) == Decided(s.threads[t].pc)
  {
    if !IsThreadAct(a) || a.t != t { OthersLeave(par, s, a, t); }
  }

  /** The deciding steps decide ... */
  lemma DecisionTaken<Q, K, R>(par: Params<Q, K, R>, s: State<Q, K, R>, a: Act<Q, R>, t: Tid, out: R)
    requires Enabled(s, a) && Decides(par, s, a, t, out)
    ensures t < |Apply(par, s, a).threads| && Decided(Apply(par, s, a).threads[t].pc) == Some(out)
  {}

  lemma BodyNeverDecides<Q, K, R>(par: Params<Q, K, R>, s: State<Q, K, R>, t: Tid)
    requires HoldsMutex(s, t) && Decided(s.threads[t].pc).None?
    ensures t < |BodyStep(par, s, t).threads| && Decided(BodyStep(par, s, t).threads[t].pc).None?
  {
    BodyMoves(par, s, t);
  }

  lemma OwnStepDecides<Q, K, R>(par: Params<Q, K, R>, s: State<Q, K, R>, a: Act<Q, R>)
    requires Enabled(s, a) && IsThreadAct(a) && !a.Body? && s.threads[a.t].role.Caller? && Decided(s.threads[a.t].pc).None?
    requires Decided(Apply(par, s, a).threads[a.t].pc).Some?
    ensures Decides(par, s, a, a.t, Decided(Apply(par, s, a).threads[a.t].pc).value)
  {
    if a.Acquire? || a.StartReload? || a.FetchFails? || a.FetchSucceeds? || a.Take? || a.PutResult? || a.Release? {
      OtherStepNeverDecides(par, s, a);
    }
  }

  lemma OtherStepNeverDecides<Q, K, R>(par: Params<Q, K, R>, s: State<Q, K, R>, a: Act<Q, R>)
    requires Enabled(s, a)
    requires a.Acquire? || a.StartReload? || a.FetchFails? || a.FetchSucceeds? || a.Take? || a.PutResult? || a.Release?
    requires Decided(s.threads[a.t].pc).None?
    ensures a.t < |Apply(par, s, a).threads| && Decided(Apply(par, s, a).threads[a.t].pc).None?
  {}

  lemma NewThreadIsUndecided<Q, K, R>(par: Params<Q, K, R>, s: State<Q, K, R>, a: Act<Q, R>, t: Tid)
    requires Enabled(s, a) && |s.threads| <= t < |Apply(par, s, a).threads|
    ensures Decided(Apply(par, s, a).threads[t].pc).None?
  {
    if a.Body? { BodyMoves(par, s, a.t); }
  }

  /** ... and no others. */
  lemma OnlyTheseDecide<Q, K, R>(par: Params<Q, K, R>, s: State<Q, K, R>, a: Act<Q, R>, t: Tid)
    requires Enabled(s, a) && t < |Apply(par, s, a).threads|
    requires t < |s.threads| ==> s.threads[t].role.Caller? && Decided(s.threads[t].pc).None?
    requires Decided(Apply(par, s, a).threads[t].pc).Some?
    ensures Decides(par, s, a, t, Decided(Apply(par, s, a).threads[t].pc).value)
  {
    if t >= |s.threads| { NewThreadIsUndecided(par, s, a, t); }
    else if !IsThreadAct(a) || a.t != t { OthersLeave(par, s, a, t); }
    else if a.Body? { BodyNeverDecides(par, s, t); }
    else { OwnStepDecides(par, s, a); }
  }

  // ---------------------------------------------------------------- the answers of a run

  lemma {:induction false} DecisionRemains<Q, K, R>(par: Params<Q, K, R>, ss: seq<State<Q, K, R>>, acts: seq<Act<Q, R>>, i: nat, k: nat, t: Tid)
    requires Run(par, ss, acts) && i <= k < |ss| && t < |ss[i].threads| && Decided(ss[i].threads[t].pc).Some?
    ensures t < |ss[k].threads| && Decided(ss[k].threads[t].pc) == Decided(ss[i].threads[t].pc)
    decreases k
  {
    if i < k {
      DecisionRemains(par, ss, acts, i, k - 1, t);
      assert Linked(par, ss, acts, k - 1);
      DecisionStays(par, ss[k - 1], acts[k - 1], t);
    }
  }

  /** The step at `i` decides the answer `out` of thread `t`. */
  ghost predicate DecidesAt<Q, K, R>(par: Params<Q, K, R>, ss: seq<State<Q, K, R>>, acts: seq<Act<Q, R>>, i: nat, t: Tid, out: R)
    requires |ss| == |acts| + 1
  {
    i < |acts| && Decides(par, ss[i], acts[i], t, out)
  }

  lemma RoleStays<Q, K, R>(par: Params<Q, K, R>, s: State<Q, K, R>, a: Act<Q, R>, t: Tid)
    requires Enabled(s, a) && t < |s.threads|
    ensures t < |Apply(par, s, a).threads| && Apply(par, s, a).threads[t].role == s.threads[t].role
  {
    if a.Body? { BodyMoves(par, s, a.t); }
  }

  lemma {:induction false} DecisionWasTaken<Q, K, R>(par: Params<Q, K, R>, ss: seq<State<Q, K, R>>, acts: seq<Act<Q, R>>, k: nat, t: Tid) returns (i: nat)
    requires Run(par, ss, acts) && k < |ss| && t < |ss[k].threads| && ss[k].threads[t].role.Caller? && Decided(ss[k].threads[t].pc).Some?
    ensures i < k && DecidesAt(par, ss, acts, i, t, Decided(ss[k].threads[t].pc).value)
    decreases k
  {
    assert k > 0;
    var s, a := ss[k - 1], acts[k - 1];
    assert Linked(par, ss, acts, k - 1);
    if t < |s.threads| { RoleStays(par, s, a, t); }
    if t < |s.threads| && Decided(s.threads[t].pc).Some? {
      DecisionStays(par, s, a, t);
      i := DecisionWasTaken(par, ss, acts, k - 1, t);
    } else {
      OnlyTheseDecide(par, s, a, t);
      i := k - 1;
    }
  }

  /** A call returns `out` exactly when one of its own steps decided so: a cache hit, the result of its own run of
      the script, or DIRECT because there was no pool at its load or its own run failed. */
  lemma AnswerIff<Q, K, R>(par: Params<Q, K, R>, ss: seq<State<Q, K, R>>, acts: seq<Act<Q, R>>, k: nat, t: Tid, out: R)
    requires Run(par, ss, acts) && k < |ss| && t < |ss[k].threads| && ss[k].threads[t].role.Caller? && ss[k].threads[t].pc.Done?
    ensures ss[k].threads[t].pc.out == out <==> exists i :: 0 <= i < k && DecidesAt(par, ss, acts, i, t, out)
  {
    if i :| 0 <= i < k && DecidesAt(par, ss, acts, i, t, out) { DecisionIsAnswer(par, ss, acts, i, k, t, out); }
    var j := DecisionWasTaken(par, ss, acts, k, t);
    assert DecidesAt(par, ss, acts, j, t, ss[k].threads[t].pc.out);
  }

  lemma DecisionIsAnswer<Q, K, R>(par: Params<Q, K, R>, ss: seq<State<Q, K, R>>, acts: seq<Act<Q, R>>, i: nat, k: nat, t: Tid, out: R)
    requires Run(par, ss, acts) && i < k < |ss| && DecidesAt(par, ss, acts, i, t, out)
    ensures t < |ss[k].threads| && Decided(ss[k].threads[t].pc) == Some(out)
  {
    assert Linked(par, ss, acts, i);
    DecisionTaken(par, ss[i], acts[i], t, out);
    DecisionRemains(par, ss, acts, i + 1, k, t);
  }

  /** What the script returns is what the call returns. */
  lemma ScriptResultIsReturned<Q, K, R>(par: Params<Q, K, R>, ss: seq<State<Q, K, R>>, acts: seq<Act<Q, R>>, i: nat, k: nat, t: Tid, out: R)
    requires Run(par, ss, acts) && i < k < |ss| && acts[i] == EvalSucceeds(t, out)
    requires t < |ss[k].threads| && ss[k].threads[t].pc.Done?
    ensures ss[k].threads[t].pc.out == out
  {
    assert Linked(par, ss, acts, i);
    assert DecidesAt(par, ss, acts, i, t, out);
    DecisionIsAnswer(par, ss, acts, i, k, t, out);
  }

  /** A call that finds nothing in the cache goes on to the load ... */
  lemma MissGoesOn<Q, K, R>(par: Params<Q, K, R>, ss: seq<State<Q, K, R>>, acts: seq<Act<Q, R>>, i: nat, t: Tid)
    requires Run(par, ss, acts) && i < |acts| && acts[i] == Get(t) && t < |ss[i].threads| && ss[i].threads[t].role.Caller?
    requires ResultCaches.Get(ss[i].cache, par.keyOf(ss[i].threads[t].role.q), ss[i].now).0.None?
    ensures t < |ss[i + 1].threads|
    ensures ss[i + 1].threads[t].pc == if ss[i].threads[t].pc.Lookup1? then Await(Ensure) else LoadPool
  {
    assert Linked(par, ss, acts, i);
  }

  /** ... and one that finds a pool goes on to that pool. */
  lemma LoadGoesOn<Q, K, R>(par: Params<Q, K, R>, ss: seq<State<Q, K, R>>, acts: seq<Act<Q, R>>, i: nat, t: Tid)
    requires Run(par, ss, acts) && i < |acts| && acts[i] == Load(t) && ss[i].pool.Some?
    ensures t < |ss[i + 1].threads| && ss[i + 1].threads[t].pc == Checkout(ss[i].pool.value)
  {
    assert Linked(par, ss, acts, i);
  }

  ghost function PoolOf<R>(pc: PC<R>): Option<PoolId> {
    if pc.Checkout? || pc.Evaluate? || pc.Store? || pc.PutBack? then Some(pc.p) else None
  }

  /** The script a call runs is that of the pool it loaded. */
  lemma {:induction false} RunsLoadedPool<Q, K, R>(par: Params<Q, K, R>, ss: seq<State<Q, K, R>>, acts: seq<Act<Q, R>>, k: nat, t: Tid) returns (i: nat)
    requires Run(par, ss, acts) && k < |ss| && t < |ss[k].threads| && PoolOf(ss[k].threads[t].pc).Some?
    ensures i < k && acts[i] == Load(t) && ss[i].pool == PoolOf(ss[k].threads[t].pc)
    decreases k
  {
    assert k > 0;
    var s, a := ss[k - 1], acts[k - 1];
    assert Linked(par, ss, acts, k - 1);
    PoolStep(par, s, a, t);
    if a == Load(t) {
      i := k - 1;
    } else {
      i := RunsLoadedPool(par, ss, acts, k - 1, t);
    }
  }

  lemma PoolStep<Q, K, R>(par: Params<Q, K, R>, s: State<Q, K, R>, a: Act<Q, R>, t: Tid)
    requires Enabled(s, a) && t < |Apply(par, s, a).threads| && PoolOf(Apply(par, s, a).threads[t].pc).Some?
    ensures t < |s.threads|
    ensures PoolOf(Apply(par, s, a).threads[t].pc) == if a == Load(t) then s.pool else PoolOf(s.threads[t].pc)
  {
    if a.Body? {
      PoolBody(par, s, a.t, t);
    } else if t < |s.threads| && (!IsThreadAct(a) || a.t != t) {
      OthersLeave(par, s, a, t);
    }
  }

  lemma PoolBody<Q, K, R>(par: Params<Q, K, R>, s: State<Q, K, R>, u: Tid, t: Tid)
    requires HoldsMutex(s, u) && t < |BodyStep(par, s, u).threads|
    ensures t < |s.threads|
    ensures PoolOf(BodyStep(par, s, u).threads[t].pc).Some? ==> PoolOf(BodyStep(par, s, u).threads[t].pc) == PoolOf(s.threads[t].pc)
  {
    BodyMoves(par, s, u);
    if t != u { OthersLeave(par, s, Body(u), t); }
  }

  // ---------------------------------------------------------------- starting loads

  /** A check of the age starts a background reload exactly when the evaluator is open and loaded, the load is old
      enough and none is under way. */
  lemma ReloadStartsIff<Q, K, R>(par: Params<Q, K, R>, ss: seq<State<Q, K, R>>, acts: seq<Act<Q, R>>, i: nat, t: Tid)
    requires Run(par, ss, acts) && i < |acts| && acts[i] == Body(t) && HoldsMutex(ss[i], t)
    requires ss[i].threads[t].pc.sec.Kick? || ss[i].threads[t].pc.sec.Ensure?
    ensures var s, s' := ss[i], ss[i + 1];
            var due := !s.closed && s.pool.Some? && par.reloadInterval > 0 && s.now - s.lastLoad >= par.reloadInterval && !s.reloading;
            && t < |s'.threads| && (due <==> s'.threads[t].pc.Spawn?)
            && s'.softStarts == s.softStarts + (if due then [s.now] else []) && (due ==> s'.reloading)
  {
    assert Linked(par, ss, acts, i);
  }

  /** The reload that was started runs as a thread of its own, which begins by fetching the script. */
  lemma ReloadRuns<Q, K, R>(par: Params<Q, K, R>, ss: seq<State<Q, K, R>>, acts: seq<Act<Q, R>>, i: nat, t: Tid)
    requires Run(par, ss, acts) && i < |acts| && acts[i] == StartReload(t)
    ensures var n := |ss[i].threads|; |ss[i + 1].threads| == n + 1 && ss[i + 1].threads[n] == Thread(Reloader, Fetch)
  {
    assert Linked(par, ss, acts, i);
  }

  /** Without a pool the first call loads it, and calls that come while a load is under way wait for it. */
  lemma ColdStartLoads<Q, K, R>(par: Params<Q, K, R>, ss: seq<State<Q, K, R>>, acts: seq<Act<Q, R>>, i: nat, t: Tid)
    requires Run(par, ss, acts) && i < |acts| && acts[i] == Body(t) && HoldsMutex(ss[i], t) && ss[i].threads[t].pc.sec.Ensure?
    requires !ss[i].closed && ss[i].pool.None?
    ensures t < |ss[i + 1].threads| && ss[i + 1].reloading
    ensures ss[i + 1].threads[t].pc == if ss[i].reloading then Parked else Fetch
  {
    assert Linked(par, ss, acts, i);
  }

  // ---------------------------------------------------------------- finishing loads

  /** Where a thread stands with the pool `p` it has built: on the way to publishing it, or it has been published, or
      the evaluator was closed before. */
  ghost predicate Publishing<Q, K, R>(s: State<Q, K, R>, t: Tid, p: PoolId) {
    && t < |s.threads|
    && var pc := s.threads[t].pc;
       || pc == Await(SwapCheck(p))
       || pc == Inside(SwapCheck(p)) || pc == Inside(SwapGen(p)) || pc == Inside(SwapStore(p))
       || p in s.published || s.closed
  }

  lemma PublishingStays<Q, K, R>(par: Params<Q, K, R>, s: State<Q, K, R>, a: Act<Q, R>, t: Tid, p: PoolId)
    requires Enabled(s, a) && Publishing(s, t, p)
    ensures Publishing(Apply(par, s, a), t, p)
  {
    if !IsThreadAct(a) || a.t != t {
      OthersLeave(par, s, a, t);
      HistoryStays(par, s, a, p);
    } else if a.Body? {
      BodyMoves(par, s, t);
    }
  }

  lemma HistoryStays<Q, K, R>(par: Params<Q, K, R>, s: State<Q, K, R>, a: Act<Q, R>, p: PoolId)
    requires Enabled(s, a)
    ensures (p in s.published ==> p in Apply(par, s, a).published) && (s.closed ==> Apply(par, s, a).closed)
  {}

  lemma {:induction false} PublishingRemains<Q, K, R>(par: Params<Q, K, R>, ss: seq<State<Q, K, R>>, acts: seq<Act<Q, R>>, i: nat, k: nat, t: Tid, p: PoolId)
    requires Run(par, ss, acts) && i <= k < |ss| && Publishing(ss[i], t, p)
    ensures Publishing(ss[k], t, p)
    decreases k
  {
    if i < k {
      PublishingRemains(par, ss, acts, i, k - 1, t, p);
      assert Linked(par, ss, acts, k - 1);
      PublishingStays(par, ss[k - 1], acts[k - 1], t, p);
    }
  }

  /** A load that succeeds is published: once its thread has left the swap, the pool it built is among the published
      ones, unless the evaluator has been closed. */
  lemma SuccessfulLoadIsPublished<Q, K, R>(par: Params<Q, K, R>, ss: seq<State<Q, K, R>>, acts: seq<Act<Q, R>>, i: nat, k: nat, t: Tid)
    requires Run(par, ss, acts) && i < k < |ss| && acts[i] == FetchSucceeds(t)
    requires t < |ss[k].threads|
    requires var pc := ss[k].threads[t].pc; !((pc.Await? || pc.Inside?) && (pc.sec.SwapCheck? || pc.sec.SwapGen? || pc.sec.SwapStore?))
    ensures |ss[i].pools| in ss[k].published || ss[k].closed
  {
    assert Linked(par, ss, acts, i);
    PublishingRemains(par, ss, acts, i + 1, k, t, |ss[i].pools|);
  }

  /** Every pool has as many slots as configured, four when the setting is not positive. */
  lemma {:induction false} PoolSizes<Q, K, R>(par: Params<Q, K, R>, ss: seq<State<Q, K, R>>, acts: seq<Act<Q, R>>, i: nat, p: PoolId)
    requires Run(par, ss, acts) && i < |ss| && p < |ss[i].pools|
    ensures ss[i].pools[p].size == if par.poolSize > 0 then par.poolSize else 4
    decreases i
  {
    assert i > 0;
    assert Linked(par, ss, acts, i - 1);
    PoolsKeepSize(par, ss[i - 1], acts[i - 1], p);
    if p < |ss[i - 1].pools| { PoolSizes(par, ss, acts, i - 1, p); }
  }

  lemma PoolsKeepSize<Q, K, R>(par: Params<Q, K, R>, s: State<Q, K, R>, a: Act<Q, R>, p: PoolId)
    requires Enabled(s, a) && p < |Apply(par, s, a).pools|
    ensures Apply(par, s, a).pools[p].size
            == if p < |s.pools| then s.pools[p].size else if par.poolSize > 0 then par.poolSize else 4
  {
    if a.Body? { BodyKeepsSize(par, s, a.t, p); }
  }

  lemma BodyKeepsSize<Q, K, R>(par: Params<Q, K, R>, s: State<Q, K, R>, t: Tid, p: PoolId)
    requires HoldsMutex(s, t) && p < |BodyStep(par, s, t).pools|
    ensures p < |s.pools| && BodyStep(par, s, t).pools[p].size == s.pools[p].size
  {}

  // ---------------------------------------------------------------- Close

  /** What a thread inside Close has done so far. */
  ghost predicate Closing<Q, K, R>(s: State<Q, K, R>, t: Tid) {
    t < |s.threads| && s.threads[t].role.Closer? ==>
      && (s.threads[t].pc.Ended? || s.threads[t].pc == Inside(CloseStore) || s.threads[t].pc == Inside(CloseWake) ==> s.closed)
      && (s.threads[t].pc.Ended? || s.threads[t].pc == Inside(CloseWake) ==> s.pool.None?)
  }

  lemma ClosedPoolStaysGone<Q, K, R>(par: Params<Q, K, R>, s: State<Q, K, R>, a: Act<Q, R>)
    requires ControlInv(s) && CloseInv(s) && Enabled(s, a) && s.closed && s.pool.None?
    ensures Apply(par, s, a).closed && Apply(par, s, a).pool.None?
  {}

  lemma ClosingStep<Q, K, R>(par: Params<Q, K, R>, s: State<Q, K, R>, a: Act<Q, R>, t: Tid)
    requires ControlInv(s) && CloseInv(s) && Enabled(s, a) && Closing(s, t)
    ensures Closing(Apply(par, s, a), t)
  {
    if s.closed && s.pool.None? { ClosedPoolStaysGone(par, s, a); }
    if t < |s.threads| {
      RoleStays(par, s, a, t);
      if !IsThreadAct(a) || a.t != t {
        OthersLeave(par, s, a, t);
        HistoryStays(par, s, a, 0);
      } else if s.threads[t].role.Closer? {
        ClosingOwnStep(par, s, a);
      }
    } else if a.Body? {
      BodyMoves(par, s, a.t);
    }
  }

  lemma ClosingOwnStep<Q, K, R>(par: Params<Q, K, R>, s: State<Q, K, R>, a: Act<Q, R>)
    requires ControlInv(s) && Enabled(s, a) && IsThreadAct(a) && s.threads[a.t].role.Closer? && Closing(s, a.t)
    ensures Closing(Apply(par, s, a), a.t)
  {
    assert RoleOk(s.threads[a.t]);
  }

  /** When Close returns the evaluator is closed and has no pool. */
  lemma {:induction false} CloseTakesEffect<Q, K, R>(par: Params<Q, K, R>, ss: seq<State<Q, K, R>>, acts: seq<Act<Q, R>>, i: nat, t: Tid)
    requires Run(par, ss, acts) && i < |ss| && t < |ss[i].threads| && ss[i].threads[t].role.Closer? && ss[i].threads[t].pc.Ended?
    ensures ss[i].closed && ss[i].pool.None?
  {
    ClosingAlways(par, ss, acts, i, t);
  }

  lemma {:induction false} ClosingAlways<Q, K, R>(par: Params<Q, K, R>, ss: seq<State<Q, K, R>>, acts: seq<Act<Q, R>>, i: nat, t: Tid)
    requires Run(par, ss, acts) && i < |ss|
    ensures Closing(ss[i], t)
  {
    if i > 0 {
      ClosingAlways(par, ss, acts, i - 1, t);
      RunInv(par, ss, acts, i - 1);
      assert Linked(par, ss, acts, i - 1);
      ClosingStep(par, ss[i - 1], acts[i - 1], t);
    }
  }

  // ---------------------------------------------------------------- caching

  /** A result of the pool published last, put outside the window of a reload, is found by every lookup of its key
      within one TTL: the put stores it. */
  lemma CurrentResultIsCached<Q, K, R>(par: Params<Q, K, R>, ss: seq<State<Q, K, R>>, acts: seq<Act<Q, R>>, i: nat, t: Tid, now: int)
    requires Run(par, ss, acts) && i < |acts| && acts[i] == PutResult(t) && Enabled(ss[i], acts[i])
    requires !InWindow(OwnerSec(ss[i])) && ss[i].published != []
    requires ss[i].threads[t].pc.p == ss[i].published[|ss[i].published| - 1] && now <= ss[i].now + EffectiveTTL(par.ttl)
    ensures ResultCaches.Get(ss[i + 1].cache, par.keyOf(ss[i].threads[t].role.q), now).0 == Some(ss[i].threads[t].pc.out)
  {
    RunInv(par, ss, acts, i);
    assert Linked(par, ss, acts, i);
    var s := ss[i];
    var p := s.threads[t].pc.p;
    assert s.pools[p].gen == s.cache.gen;
    GuardedPutIsFound(s.cache, par.keyOf(s.threads[t].role.q), s.threads[t].pc.out, s.pools[p].gen, s.now, now);
  }

  // ---------------------------------------------------------------- calls and ages

  /** A new call starts with a lookup, for its own query and at the present time. */
  lemma CallStarts<Q, K, R>(par: Params<Q, K, R>, ss: seq<State<Q, K, R>>, acts: seq<Act<Q, R>>, i: nat, q: Q)
    requires Run(par, ss, acts) && i < |acts| && acts[i] == Call(q)
    ensures var n := |ss[i].threads|;
            |ss[i + 1].threads| == n + 1 && ss[i + 1].threads[n].pc == Lookup1
            && ss[i + 1].threads[n].role.Caller? && ss[i + 1].threads[n].role.q == q && ss[i + 1].threads[n].role.at == ss[i].now
  {
    assert Linked(par, ss, acts, i);
  }

  /** The steps that reset the age of the load: a swap, and a failed background reload of an open evaluator. */
  ghost predicate ResetsAge<Q, K, R>(s: State<Q, K, R>, a: Act<Q, R>) {
    && a.Body? && a.t < |s.threads| && s.threads[a.t].pc.Inside?
    && (|| s.threads[a.t].pc.sec.SwapStamp?
        || (s.threads[a.t].pc.sec == Finish(true) && s.threads[a.t].role.Reloader? && !s.closed))
  }

  /** The age of the load counts from the last such step. */
  lemma AgeIsReset<Q, K, R>(par: Params<Q, K, R>, ss: seq<State<Q, K, R>>, acts: seq<Act<Q, R>>, i: nat)
    requires Run(par, ss, acts) && i < |acts|
    ensures ss[i + 1].lastLoad == if ResetsAge(ss[i], acts[i]) then ss[i].now else ss[i].lastLoad
  {
    assert Linked(par, ss, acts, i);
  }
}
