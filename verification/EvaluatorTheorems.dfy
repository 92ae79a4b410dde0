/** What the invariant of the PAC evaluator says about whole runs. */
module PacTheorems {
  import opened Basics
  import opened ResultCaches
  import opened PacEvaluator
  import opened PacInvariant

  // ---------------------------------------------------------------- cache coherence

  /** At every point of every run, each cached entry carries the current generation and is a result
      of the pool that was published with it. */
  lemma CachedEntriesAreCurrent<Q, K, R>(par: Params<Q, K, R>, ss: seq<State<Q, K, R>>, acts: seq<Act<Q, R>>, i: nat, e: Entry<K, R>)
    requires Run(par, ss, acts) && i < |ss| && e in ss[i].cache.order
    ensures e.gen == ss[i].cache.gen && ss[i].published != []
    ensures exists x :: && x in ss[i].evals && x.p == ss[i].published[|ss[i].published| - 1] && x.p < |ss[i].pools|
                        && ss[i].pools[x.p].gen == e.gen && par.keyOf(x.q) == e.key && x.out == e.result
  {
    RunInv(par, ss, acts, i);
    assert Backed(par, ss[i], e);
  }

  /** Published generations are strictly increasing. */
  lemma GenerationsIncrease<Q, K, R>(par: Params<Q, K, R>, ss: seq<State<Q, K, R>>, acts: seq<Act<Q, R>>, i: nat)
    requires Run(par, ss, acts) && i < |ss|
    ensures GenerationsOk(ss[i].pools, ss[i].published)
  {
    RunInv(par, ss, acts, i);
  }

  /** A result of a pool that has been replaced, or whose replacement is about to be stored, is
      dropped by the cache. */
  lemma ReplacedPoolIsNeverCached<Q, K, R>(par: Params<Q, K, R>, ss: seq<State<Q, K, R>>, acts: seq<Act<Q, R>>, i: nat)
    requires Run(par, ss, acts) && i < |acts| && acts[i].PutResult? && Enabled(ss[i], acts[i])
    requires var p := ss[i].threads[acts[i].t].pc.p;
             InWindow(OwnerSec(ss[i])) || (ss[i].published != [] && p != ss[i].published[|ss[i].published| - 1])
    ensures ss[i + 1].cache == ss[i].cache
  {
    RunInv(par, ss, acts, i);
    assert Linked(par, ss, acts, i);
    var s, t := ss[i], acts[i].t;
    assert CallOk(par, s, s.threads[t]);
    if s.pools[s.threads[t].pc.p].gen == s.cache.gen { CurrentPoolIsLast(s, s.threads[t].pc.p); }
  }

  // ---------------------------------------------------------------- no deadlock, no lost wakeup

  ghost predicate Finished<R>(pc: PC<R>) { pc.Done? || pc.Ended? }

  /** A thread that waits for the first load coexists with exactly one thread that will finish it. */
  lemma ParkedHasLoader<Q, K, R>(par: Params<Q, K, R>, ss: seq<State<Q, K, R>>, acts: seq<Act<Q, R>>, i: nat, t: Tid)
    requires Run(par, ss, acts) && i < |ss| && t < |ss[i].threads| && ss[i].threads[t].pc.Parked?
    ensures ss[i].loader.Some? && ss[i].loader.value < |ss[i].threads|
    ensures IsLoading(ss[i].threads[ss[i].loader.value].pc)
  {
    RunInv(par, ss, acts, i);
  }

  /** A thread that waits for a slot coexists with a holder of a slot of that same pool, also when the
      pool has been replaced meanwhile. */
  lemma EmptyPoolHasHolder<Q, K, R>(par: Params<Q, K, R>, ss: seq<State<Q, K, R>>, acts: seq<Act<Q, R>>, i: nat, p: PoolId) returns (t: Tid)
    requires Run(par, ss, acts) && i < |ss| && p < |ss[i].pools| && ss[i].pools[p].slots == []
    ensures t < |ss[i].threads| && SlotOf(ss[i].threads[t].pc).Some? && SlotOf(ss[i].threads[t].pc).value.0 == p
  {
    RunInv(par, ss, acts, i);
    t := HolderOf(ss[i], p);
  }

  lemma HolderOf<Q, K, R>(s: State<Q, K, R>, p: PoolId) returns (t: Tid)
    requires SlotInv(s) && p < |s.pools| && s.pools[p].slots == []
    ensures t < |s.threads| && SlotOf(s.threads[t].pc).Some? && SlotOf(s.threads[t].pc).value.0 == p
  {
    assert PoolOk(s.pools[p]);
    assert 0 in s.pools[p].held;
    t := s.pools[p].held[0];
    assert HolderOk(s, p, 0, t);
  }

  /** The step a thread can take when nothing blocks it. */
  ghost function OwnStep<Q, R>(t: Tid, pc: PC<R>): Act<Q, R>
    requires !Finished(pc) && !pc.Parked?
  {
    match pc
    case Await(_) => Acquire(t)
    case Inside(_) => Body(t)
    case Spawn(_) => StartReload(t)
    case Fetch => FetchFails(t)
    case LoadPool => Load(t)
    case Checkout(_) => Take(t)
    case Evaluate(_, _) => EvalFails(t)
    case Store(_, _, _) => PutResult(t)
    case PutBack(_, _, _) => Release(t)
    case _ => Get(t)
  }

  lemma OwnStepEnabled<Q, K, R>(par: Params<Q, K, R>, s: State<Q, K, R>, t: Tid)
    requires Inv(par, s) && t < |s.threads|
    requires var pc := s.threads[t].pc;
             !Finished(pc) && !pc.Parked? && (pc.Await? ==> s.owner.None?) && (pc.Checkout? ==> s.pools[pc.p].slots != [])
    ensures Enabled(s, OwnStep<Q, R>(t, s.threads[t].pc)) && IsThreadAct(OwnStep<Q, R>(t, s.threads[t].pc))
  {
    var th := s.threads[t];
    assert RoleOk(th) && CallOk(par, s, th) && PrivateOk(s.pools, s.published, th.pc);
    if th.pc.PutBack? { ReleaseNeverBlocks(s, t); }
  }

  /** Deadlock freedom: while some thread is unfinished, some thread can step. */
  lemma SomeoneCanStep<Q, K, R>(par: Params<Q, K, R>, s: State<Q, K, R>, t: Tid) returns (a: Act<Q, R>)
    requires Inv(par, s) && t < |s.threads| && !Finished(s.threads[t].pc)
    ensures IsThreadAct(a) && Enabled(s, a)
  {
    var u := t;
    if s.owner.Some? {
      u := s.owner.value;
    } else if s.threads[t].pc.Parked? {
      u := s.loader.value;
    } else if s.threads[t].pc.Checkout? {
      assert CallOk(par, s, s.threads[t]) && RoleOk(s.threads[t]);
      if s.pools[s.threads[t].pc.p].slots == [] { u := HolderOf(s, s.threads[t].pc.p); }
    }
    OwnStepEnabled(par, s, u);
    a := OwnStep(u, s.threads[u].pc);
  }

  // ---------------------------------------------------------------- freshness

  lemma LastGenIsLargest<Q, K, R>(s: State<Q, K, R>, p: PoolId)
    requires PublishInv(s) && p in s.published
    ensures s.pools[p].gen <= LastGen(s.pools, s.published)
  {
    var i :| 0 <= i < |s.published| && s.published[i] == p;
    var last := |s.published| - 1;
    assert forall j :: 0 <= j < last ==> s.pools[s.published[j]].gen < s.pools[s.published[last]].gen;
  }

  lemma StepGrows<Q, K, R>(par: Params<Q, K, R>, s: State<Q, K, R>, a: Act<Q, R>)
    requires Inv(par, s) && Enabled(s, a)
    ensures Grows(s, Apply(par, s, a))
  {
    if a.Body? { BodyGrows(par, s, a.t); } else { OtherGrows(par, s, a); }
  }

  /** The threads keep their roles, and at most one new thread starts. */
  ghost predicate SameRoles<Q, K, R>(s: State<Q, K, R>, s': State<Q, K, R>) {
    && |s.threads| <= |s'.threads| <= |s.threads| + 1 && s.now <= s'.now
    && (forall t :: 0 <= t < |s.threads| ==> s'.threads[t].role == s.threads[t].role)
    && (|s'.threads| > |s.threads| && s'.threads[|s.threads|].role.Caller? ==>
          && s'.threads[|s.threads|].role.since == LastGen(s.pools, s.published)
          && s'.threads[|s.threads|].role.at == s.now)
  }

  lemma StepRoles<Q, K, R>(par: Params<Q, K, R>, s: State<Q, K, R>, a: Act<Q, R>)
    requires Enabled(s, a)
    ensures SameRoles(s, Apply(par, s, a))
  {
    if a.Body? { BodyMoves(par, s, a.t); BodyHistory(par, s, a.t); }
  }

  /** Generation `g` is published and every caller from thread `n` on started after that. */
  ghost predicate StartedAfter<Q, K, R>(s: State<Q, K, R>, n: nat, g: int) {
    && n <= |s.threads| && g <= LastGen(s.pools, s.published)
    && forall t :: n <= t < |s.threads| && s.threads[t].role.Caller? ==> g <= s.threads[t].role.since
  }

  lemma RunGrows<Q, K, R>(par: Params<Q, K, R>, ss: seq<State<Q, K, R>>, acts: seq<Act<Q, R>>, k: nat)
    requires Run(par, ss, acts) && k < |acts|
    ensures Grows(ss[k], ss[k + 1])
  {
    RunInv(par, ss, acts, k);
    assert Linked(par, ss, acts, k);
    StepGrows(par, ss[k], acts[k]);
  }

  lemma RunRoles<Q, K, R>(par: Params<Q, K, R>, ss: seq<State<Q, K, R>>, acts: seq<Act<Q, R>>, k: nat)
    requires Run(par, ss, acts) && k < |acts|
    ensures SameRoles(ss[k], ss[k + 1])
  {
    assert Linked(par, ss, acts, k);
    StepRoles(par, ss[k], acts[k]);
  }

  lemma {:induction false} StartedAfterRun<Q, K, R>(par: Params<Q, K, R>, ss: seq<State<Q, K, R>>, acts: seq<Act<Q, R>>, i: nat, k: nat, g: int)
    requires Run(par, ss, acts) && i <= k < |ss| && g <= LastGen(ss[i].pools, ss[i].published)
    ensures StartedAfter(ss[k], |ss[i].threads|, g)
  {
    if i < k {
      StartedAfterRun(par, ss, acts, i, k - 1, g);
      RunGrows(par, ss, acts, k - 1);
      RunRoles(par, ss, acts, k - 1);
    }
  }

  /** A call that starts after generation `g` was published returns "DIRECT" or a result computed,
      for its own key, by a pool of generation `g` or later. */
  lemma Freshness<Q, K, R>(par: Params<Q, K, R>, ss: seq<State<Q, K, R>>, acts: seq<Act<Q, R>>, i: nat, k: nat, p: PoolId, t: Tid)
    requires Run(par, ss, acts) && i <= k < |ss|
    requires p in ss[i].published && p < |ss[i].pools|
    requires |ss[i].threads| <= t < |ss[k].threads| && ss[k].threads[t].role.Caller? && ss[k].threads[t].pc.Done?
    ensures GoodAnswer(par, ss[k], ss[k].threads[t].role.q, ss[i].pools[p].gen, ss[k].threads[t].pc.out)
  {
    var g := ss[i].pools[p].gen;
    RunInv(par, ss, acts, i);
    RunInv(par, ss, acts, k);
    LastGenIsLargest(ss[i], p);
    StartedAfterRun(par, ss, acts, i, k, g);
    var th := ss[k].threads[t];
    assert CallOk(par, ss[k], th);
    if th.pc.out != par.direct {
      var x :| x in ss[k].evals && x.out == th.pc.out && par.keyOf(x.q) == par.keyOf(th.role.q) && PublishedSince(ss[k], x.p, th.role.since);
      assert PublishedSince(ss[k], x.p, g);
    }
  }

  /** The steps of a load that failed change neither the pool, nor the generation, nor the cache. */
  lemma FailedLoadIsInvisible<Q, K, R>(par: Params<Q, K, R>, s: State<Q, K, R>, a: Act<Q, R>)
    requires Enabled(s, a) && IsThreadAct(a)
    requires var pc := s.threads[a.t].pc;
             a.FetchFails? || ((pc.Await? || pc.Inside?) && pc.sec == Finish(true))
    ensures var s' := Apply(par, s, a);
            s'.pool == s.pool && s'.pools == s.pools && s'.published == s.published && s'.cache == s.cache
  {}

  // ---------------------------------------------------------------- Close is final

  ghost predicate Frozen<Q, K, R>(s: State<Q, K, R>, s': State<Q, K, R>) {
    && s'.closed && s'.published == s.published && s'.cache.gen == s.cache.gen
    && (s.pool.None? ==> s'.pool.None?)
  }

  lemma ClosedStep<Q, K, R>(par: Params<Q, K, R>, s: State<Q, K, R>, a: Act<Q, R>)
    requires ControlInv(s) && CloseInv(s) && Enabled(s, a) && s.closed
    ensures Frozen(s, Apply(par, s, a))
  {
    if a.Body? { BodyHistory(par, s, a.t); }
    else if IsLocal(a) { LocalKeepsPublication(par, s, a); }
  }

  lemma RunClosed<Q, K, R>(par: Params<Q, K, R>, ss: seq<State<Q, K, R>>, acts: seq<Act<Q, R>>, k: nat)
    requires Run(par, ss, acts) && k < |acts| && ss[k].closed
    ensures Frozen(ss[k], ss[k + 1])
  {
    RunInv(par, ss, acts, k);
    assert Linked(par, ss, acts, k);
    ClosedStep(par, ss[k], acts[k]);
  }

  /** After Close no pool is ever published and the generation is frozen, even with a load in flight. */
  lemma {:induction false} CloseIsFinal<Q, K, R>(par: Params<Q, K, R>, ss: seq<State<Q, K, R>>, acts: seq<Act<Q, R>>, i: nat, k: nat)
    requires Run(par, ss, acts) && i <= k < |ss| && ss[i].closed
    ensures ss[k].closed && ss[k].published == ss[i].published && ss[k].cache.gen == ss[i].cache.gen
    ensures ss[i].pool.None? ==> ss[k].pool.None?
  {
    if i < k {
      CloseIsFinal(par, ss, acts, i, k - 1);
      RunClosed(par, ss, acts, k - 1);
    }
  }

  /** So an answer given after Close is "DIRECT" or the result of a pool loaded before it. */
  lemma AnswersAfterClose<Q, K, R>(par: Params<Q, K, R>, ss: seq<State<Q, K, R>>, acts: seq<Act<Q, R>>, i: nat, k: nat, t: Tid)
    requires Run(par, ss, acts) && i <= k < |ss| && ss[i].closed
    requires t < |ss[k].threads| && ss[k].threads[t].role.Caller? && ss[k].threads[t].pc.Done?
    ensures var th := ss[k].threads[t];
            th.pc.out == par.direct ||
            exists x :: x in ss[k].evals && x.out == th.pc.out && par.keyOf(x.q) == par.keyOf(th.role.q) && x.p in ss[i].published
  {
    CloseIsFinal(par, ss, acts, i, k);
    RunInv(par, ss, acts, k);
    assert CallOk(par, ss[k], ss[k].threads[t]);
  }

  ghost predicate Evaluating<R>(pc: PC<R>) { pc.Checkout? || pc.Evaluate? || pc.Store? }

  /** Closed, no script running, and everything cached expires by `deadline`. */
  ghost predicate Drained<Q, K, R>(s: State<Q, K, R>, deadline: int) {
    && s.closed && s.pool.None?
    && (forall t :: 0 <= t < |s.threads| ==> !Evaluating(s.threads[t].pc))
    && (forall e :: e in s.cache.order ==> e.expires <= deadline)
  }

  /** Calls that started after `deadline` have only "DIRECT" to give. */
  ghost predicate LateCalls<Q, K, R>(par: Params<Q, K, R>, s: State<Q, K, R>, deadline: int) {
    forall t :: 0 <= t < |s.threads| && s.threads[t].role.Caller? ==>
      && s.threads[t].role.at <= s.now
      && (s.threads[t].role.at > deadline && AnswerOf(s.threads[t].pc).Some? ==> AnswerOf(s.threads[t].pc).value == par.direct)
  }

  lemma ExpiredMiss<K, R>(c: Cache<K, R>, key: K, now: int)
    requires forall e :: e in c.order ==> e.expires < now
    ensures ResultCaches.Get(c, key, now).0.None?
  {
    assert IndexOf(c.order, key) < |c.order| ==> c.order[IndexOf(c.order, key)] in c.order;
  }

  /** What a local step gives a thread to answer with: what it had, "DIRECT", or a cache hit. */
  lemma LocalAnswers<Q, K, R>(par: Params<Q, K, R>, s: State<Q, K, R>, a: Act<Q, R>)
    requires Enabled(s, a) && IsLocal(a) && !Evaluating(s.threads[a.t].pc)
    ensures var pc := Apply(par, s, a).threads[a.t].pc;
            AnswerOf(pc).Some? ==>
              || AnswerOf(pc) == AnswerOf(s.threads[a.t].pc)
              || AnswerOf(pc).value == par.direct
              || (a.Get? && AnswerOf(pc) == ResultCaches.Get(s.cache, par.keyOf(s.threads[a.t].role.q), s.now).0)
    ensures s.pool.None? ==> !Evaluating(Apply(par, s, a).threads[a.t].pc)
  {}

  lemma LocalCache<Q, K, R>(par: Params<Q, K, R>, s: State<Q, K, R>, a: Act<Q, R>)
    requires CacheInv(par, s) && Enabled(s, a) && IsLocal(a) && !Evaluating(s.threads[a.t].pc)
    ensures forall e :: e in Apply(par, s, a).cache.order ==> e in s.cache.order
    ensures Apply(par, s, a).now == s.now
  {
    if a.Get? { GetKeeps(s.cache, par.keyOf(s.threads[a.t].role.q), s.now); }
  }

  lemma DrainedLocal<Q, K, R>(par: Params<Q, K, R>, s: State<Q, K, R>, a: Act<Q, R>, deadline: int)
    requires Inv(par, s) && Enabled(s, a) && IsLocal(a) && Drained(s, deadline) && LateCalls(par, s, deadline)
    ensures Drained(Apply(par, s, a), deadline) && LateCalls(par, Apply(par, s, a), deadline)
  {
    var th := s.threads[a.t];
    assert RoleOk(th);
    LocalMoves(par, s, a);
    LocalKeepsPublication(par, s, a);
    LocalAnswers(par, s, a);
    LocalCache(par, s, a);
    if a.Get? && th.role.at > deadline { ExpiredMiss(s.cache, par.keyOf(th.role.q), s.now); }
  }

  lemma DrainedBody<Q, K, R>(par: Params<Q, K, R>, s: State<Q, K, R>, t: Tid, deadline: int)
    requires Inv(par, s) && HoldsMutex(s, t) && Drained(s, deadline) && LateCalls(par, s, deadline)
    ensures Drained(BodyStep(par, s, t), deadline) && LateCalls(par, BodyStep(par, s, t), deadline)
  {
    BodyMoves(par, s, t);
    BodyAnswers(par, s, t);
    BodyHistory(par, s, t);
    ClosedStep(par, s, Body(t));
  }

  lemma DrainedEnv<Q, K, R>(par: Params<Q, K, R>, s: State<Q, K, R>, a: Act<Q, R>, deadline: int)
    requires Inv(par, s) && Enabled(s, a) && (!IsThreadAct(a) || a.StartReload?) && Drained(s, deadline) && LateCalls(par, s, deadline)
    ensures Drained(Apply(par, s, a), deadline) && LateCalls(par, Apply(par, s, a), deadline)
  {}

  lemma RunDrained<Q, K, R>(par: Params<Q, K, R>, ss: seq<State<Q, K, R>>, acts: seq<Act<Q, R>>, k: nat, deadline: int)
    requires Run(par, ss, acts) && k < |acts| && Drained(ss[k], deadline) && LateCalls(par, ss[k], deadline)
    ensures Drained(ss[k + 1], deadline) && LateCalls(par, ss[k + 1], deadline)
  {
    var s, a := ss[k], acts[k];
    RunInv(par, ss, acts, k);
    assert Linked(par, ss, acts, k);
    if a.Body? { DrainedBody(par, s, a.t, deadline); }
    else if IsLocal(a) { DrainedLocal(par, s, a, deadline); }
    else { DrainedEnv(par, s, a, deadline); }
  }

  lemma {:induction false} StartTimes<Q, K, R>(par: Params<Q, K, R>, ss: seq<State<Q, K, R>>, acts: seq<Act<Q, R>>, i: nat)
    requires Run(par, ss, acts) && i < |ss|
    ensures forall t :: 0 <= t < |ss[i].threads| && ss[i].threads[t].role.Caller? ==> ss[i].threads[t].role.at <= ss[i].now
  {
    if i > 0 {
      StartTimes(par, ss, acts, i - 1);
      RunRoles(par, ss, acts, i - 1);
    }
  }

  lemma {:induction false} StaysDrained<Q, K, R>(par: Params<Q, K, R>, ss: seq<State<Q, K, R>>, acts: seq<Act<Q, R>>, i: nat, k: nat)
    requires Run(par, ss, acts) && i <= k < |ss| && ss[i].closed && ss[i].pool.None?
    requires forall t :: 0 <= t < |ss[i].threads| ==> !Evaluating(ss[i].threads[t].pc)
    ensures var deadline := ss[i].now + EffectiveTTL(par.ttl); Drained(ss[k], deadline) && LateCalls(par, ss[k], deadline)
  {
    var deadline := ss[i].now + EffectiveTTL(par.ttl);
    if i == k {
      RunInv(par, ss, acts, i);
      StartTimes(par, ss, acts, i);
    } else {
      StaysDrained(par, ss, acts, i, k - 1);
      RunDrained(par, ss, acts, k - 1, deadline);
    }
  }

  /** Once closed and with no evaluation in flight, every call that starts more than one TTL later
      returns "DIRECT". */
  lemma DrainedThenDirect<Q, K, R>(par: Params<Q, K, R>, ss: seq<State<Q, K, R>>, acts: seq<Act<Q, R>>, i: nat, k: nat, t: Tid)
    requires Run(par, ss, acts) && i <= k < |ss| && ss[i].closed && ss[i].pool.None?
    requires forall u :: 0 <= u < |ss[i].threads| ==> !Evaluating(ss[i].threads[u].pc)
    requires t < |ss[k].threads| && ss[k].threads[t].role.Caller? && ss[k].threads[t].pc.Done?
    requires ss[k].threads[t].role.at > ss[i].now + EffectiveTTL(par.ttl)
    ensures ss[k].threads[t].pc.out == par.direct
  {
    StaysDrained(par, ss, acts, i, k);
  }

  // ---------------------------------------------------------------- single flight and throttling

  /** `reloading` says exactly whether a load is in progress, and loads never overlap. */
  lemma SingleFlight<Q, K, R>(par: Params<Q, K, R>, ss: seq<State<Q, K, R>>, acts: seq<Act<Q, R>>, i: nat)
    requires Run(par, ss, acts) && i < |ss|
    ensures ss[i].reloading <==> exists t :: 0 <= t < |ss[i].threads| && IsLoading(ss[i].threads[t].pc)
    ensures forall t, u :: (0 <= t < |ss[i].threads| && 0 <= u < |ss[i].threads| &&
                            IsLoading(ss[i].threads[t].pc) && IsLoading(ss[i].threads[u].pc)) ==> t == u
  {
    RunInv(par, ss, acts, i);
    var s := ss[i];
    if s.reloading { assert IsLoading(s.threads[s.loader.value].pc); }
  }

  /** Any two background reloads start at least one reload interval apart, whether or not they succeed. */
  lemma ReloadsAreSpaced<Q, K, R>(par: Params<Q, K, R>, ss: seq<State<Q, K, R>>, acts: seq<Act<Q, R>>, i: nat)
    requires Run(par, ss, acts) && i < |ss|
    ensures Spaced(ss[i].softStarts, par.reloadInterval)
  {
    RunInv(par, ss, acts, i);
  }

  // ---------------------------------------------------------------- answers belong to their query

  ghost predicate Queries<Q, K, R>(s: State<Q, K, R>, ok: Q -> bool) {
    && (forall t :: 0 <= t < |s.threads| && s.threads[t].role.Caller? ==> ok(s.threads[t].role.q))
    && (forall x :: x in s.evals ==> ok(x.q))
  }

  lemma QueriesStep<Q, K, R>(par: Params<Q, K, R>, s: State<Q, K, R>, a: Act<Q, R>, ok: Q -> bool)
    requires Enabled(s, a) && Queries(s, ok) && (a.Call? ==> ok(a.q))
    ensures Queries(Apply(par, s, a), ok)
  {
    if a.Body? { BodyMoves(par, s, a.t); BodyHistory(par, s, a.t); }
  }

  lemma {:induction false} RunQueries<Q, K, R>(par: Params<Q, K, R>, ss: seq<State<Q, K, R>>, acts: seq<Act<Q, R>>, i: nat, ok: Q -> bool)
    requires Run(par, ss, acts) && i < |ss|
    requires forall k :: 0 <= k < |acts| && acts[k].Call? ==> ok(acts[k].q)
    ensures Queries(ss[i], ok)
  {
    if i > 0 {
      RunQueries(par, ss, acts, i - 1, ok);
      assert Linked(par, ss, acts, i - 1);
      QueriesStep(par, ss[i - 1], acts[i - 1], ok);
    }
  }

  /** With the evaluator's own keys and hosts without NUL characters, an answer that is not "DIRECT"
      was computed for exactly the caller's URL and host. */
  lemma AnswerIsForOwnQuery<R>(par: Params<(string, string), string, R>, ss: seq<State<(string, string), string, R>>,
                               acts: seq<Act<(string, string), R>>, i: nat, t: Tid)
    requires Run(par, ss, acts) && i < |ss|
    requires forall q :: par.keyOf(q) == CacheKey(q.0, q.1)
    requires forall k :: 0 <= k < |acts| && acts[k].Call? ==> '\0' !in acts[k].q.1
    requires t < |ss[i].threads| && ss[i].threads[t].role.Caller? && ss[i].threads[t].pc.Done?
    ensures var th := ss[i].threads[t];
            th.pc.out == par.direct ||
            exists p :: Eval(p, th.role.q, th.pc.out) in ss[i].evals && PublishedSince(ss[i], p, th.role.since)
  {
    RunQueries(par, ss, acts, i, (q: (string, string)) => '\0' !in q.1);
    RunInv(par, ss, acts, i);
    var th := ss[i].threads[t];
    assert CallOk(par, ss[i], th);
    if th.pc.out != par.direct {
      var x :| x in ss[i].evals && x.out == th.pc.out && par.keyOf(x.q) == par.keyOf(th.role.q) && PublishedSince(ss[i], x.p, th.role.since);
      CacheKeyInjective(x.q.0, x.q.1, th.role.q.0, th.role.q.1);
      assert x == Eval(x.p, th.role.q, th.pc.out);
    }
  }
}
