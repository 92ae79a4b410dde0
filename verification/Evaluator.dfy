/** The PAC evaluator of internal/pac/pac.go as a transition system.

    Any number of FindProxyForURL calls, background reloads and Close calls interleave. A thread has
    a program counter; the shared state is the evaluator's fields, the pools with their slot
    channels, and the result cache (whose own lock makes each of its operations one step). The
    evaluator's mutex is modelled by `owner`; the steps a critical section takes are separate
    wherever another thread can see them without the mutex (cache.invalidate and pool.Store).

    Fetching, decoding and compiling the script is one step that may fail; running the script is one
    step that may fail or yield any result. `Q` stands for a (URL, host) pair, `K` for a cache key
    and `R` for a normalised proxy result. */
module PacEvaluator {
  import opened Basics
  import opened ResultCaches

  type Tid = nat
  type PoolId = nat

  datatype Params<!Q, K, R> = Params(
    keyOf: Q -> K, direct: R, ttl: int, cap: int, reloadInterval: int, poolSize: int)

  const DEFAULT_POOL_SIZE := 4

  /** `slots` is the channel; `held` (a history variable) says which thread has which other slot. */
  datatype Pool = Pool(gen: nat, size: nat, slots: seq<nat>, held: map<nat, Tid>)

  /** The critical sections of the evaluator's mutex. */
  datatype Section<R> =
    | Kick(cached: R)
    | Ensure
    | SwapCheck(p: PoolId) | SwapGen(p: PoolId) | SwapStore(p: PoolId) | SwapStamp
    | Finish(failed: bool)
    | CloseFlag | CloseStore | CloseWake

  datatype PC<R> =
    | Lookup1
    | Await(sec: Section<R>)               // about to lock
    | Inside(sec: Section<R>)              // holds the lock
    | Parked                               // waiting on loadWait, not signalled
    | Spawn(answer: Option<R>)             // about to start a background reload
    | Fetch
    | Lookup2
    | LoadPool
    | Checkout(p: PoolId)
    | Evaluate(p: PoolId, slot: nat)
    | Store(p: PoolId, slot: nat, out: R)
    | PutBack(p: PoolId, slot: nat, out: R)
    | Done(out: R)
    | Ended

  /** A caller remembers its query, and for the statements also the generation published last when
      it started (-1 for none) and the time it started. */
  datatype Role<Q> = Caller(q: Q, since: int, at: int) | Reloader | Closer

  datatype Thread<Q, R> = Thread(role: Role<Q>, pc: PC<R>)

  /** The script of pool `p` was run for `q` and gave `out`. */
  datatype Eval<Q, R> = Eval(p: PoolId, q: Q, out: R)

  datatype State<Q, K, R> = State(
    now: int,
    owner: Option<Tid>,
    lastLoad: int,
    reloading: bool,
    closed: bool,
    pool: Option<PoolId>,
    pools: seq<Pool>,
    cache: Cache<K, R>,
    threads: seq<Thread<Q, R>>,
    // History: pools in the order they were stored, script runs, times at which background reloads
    // were started, and the thread responsible for the current load.
    published: seq<PoolId>,
    evals: seq<Eval<Q, R>>,
    softStarts: seq<int>,
    loader: Option<Tid>)

  ghost function Init<Q, K, R>(par: Params<Q, K, R>, now: int): State<Q, K, R> {
    State(now, None, 0, false, false, None, [], New(par.ttl, par.cap), [], [], [], [], None)
  }

  // ---------------------------------------------------------------- steps

  datatype Act<Q, R> =
    | Tick(d: nat)
    | Call(q: Q)
    | CallClose
    | Acquire(t: Tid)
    | Body(t: Tid)
    | Get(t: Tid)
    | StartReload(t: Tid)
    | FetchFails(t: Tid)
    | FetchSucceeds(t: Tid)
    | Load(t: Tid)
    | Take(t: Tid)
    | EvalFails(t: Tid)
    | EvalSucceeds(t: Tid, result: R)
    | PutResult(t: Tid)
    | Release(t: Tid)

  ghost predicate IsThreadAct<Q, R>(a: Act<Q, R>) {
    !a.Tick? && !a.Call? && !a.CallClose?
  }

  ghost predicate HoldsMutex<Q, K, R>(s: State<Q, K, R>, t: Tid) {
    && t < |s.threads| && s.threads[t].pc.Inside?
    && (s.threads[t].pc.sec.SwapGen? ==> s.threads[t].pc.sec.p < |s.pools|)
  }

  /** Whether the step can be taken now. A receive waits for a slot and a send for room; the bounds on
      indices only make `Apply` well defined, and no reachable state fails them. */
  ghost predicate Enabled<Q, K, R>(s: State<Q, K, R>, a: Act<Q, R>) {
    !IsThreadAct(a) ||
    (a.t < |s.threads| &&
     var pc := s.threads[a.t].pc;
     match a
     case Acquire(_) => pc.Await? && s.owner == None
     case Body(_) => HoldsMutex(s, a.t)
     case Get(_) => (pc.Lookup1? || pc.Lookup2?) && s.threads[a.t].role.Caller?
     case StartReload(_) => pc.Spawn?
     case FetchFails(_) => pc.Fetch?
     case FetchSucceeds(_) => pc.Fetch?
     case Load(_) => pc.LoadPool?
     case Take(_) => pc.Checkout? && pc.p < |s.pools| && s.pools[pc.p].slots != []
     case EvalFails(_) => pc.Evaluate?
     case EvalSucceeds(_, _) => pc.Evaluate? && s.threads[a.t].role.Caller?
     case PutResult(_) => pc.Store? && pc.p < |s.pools| && s.threads[a.t].role.Caller? && s.cache.cap > 0
     case Release(_) => pc.PutBack? && pc.p < |s.pools| && |s.pools[pc.p].slots| < s.pools[pc.p].size)
  }

  ghost function Goto<Q, K, R>(s: State<Q, K, R>, t: Tid, pc: PC<R>): State<Q, K, R>
    requires t < |s.threads|
  {
    s.(threads := s.threads[t := s.threads[t].(pc := pc)])
  }

  ghost function LastGen(pools: seq<Pool>, published: seq<PoolId>): int {
    if published == [] || published[|published| - 1] >= |pools| then -1
    else pools[published[|published| - 1]].gen
  }

  ghost function Stale<Q, K, R>(par: Params<Q, K, R>, s: State<Q, K, R>): bool {
    par.reloadInterval > 0 && s.now - s.lastLoad >= par.reloadInterval
  }

  /** loadWait.Broadcast: every parked thread goes on to lock the mutex again. */
  ghost function Woken<Q, R>(threads: seq<Thread<Q, R>>): (ts: seq<Thread<Q, R>>)
    ensures |ts| == |threads|
    ensures forall i :: 0 <= i < |ts| ==>
      ts[i] == if threads[i].pc.Parked? then threads[i].(pc := Await(Ensure)) else threads[i]
  {
    seq(|threads|, i requires 0 <= i < |threads| =>
      if threads[i].pc.Parked? then threads[i].(pc := Await(Ensure)) else threads[i])
  }

  ghost function SoftStart<Q, K, R>(s: State<Q, K, R>, t: Tid, answer: Option<R>): State<Q, K, R>
    requires t < |s.threads|
  {
    Goto(s.(owner := None, reloading := true, loader := Some(t), softStarts := s.softStarts + [s.now]),
         t, Spawn(answer))
  }

  ghost function KickBody<Q, K, R>(par: Params<Q, K, R>, s: State<Q, K, R>, t: Tid, cached: R): State<Q, K, R>
    requires t < |s.threads|
  {
    if s.closed || s.pool.None? || !Stale(par, s) || s.reloading then Goto(s.(owner := None), t, Done(cached))
    else SoftStart(s, t, Some(cached))
  }

  ghost function EnsureBody<Q, K, R>(par: Params<Q, K, R>, s: State<Q, K, R>, t: Tid): State<Q, K, R>
    requires t < |s.threads|
  {
    var u := s.(owner := None);
    if s.closed then Goto(u, t, Lookup2)
    else if s.pool.None? && s.reloading then Goto(u, t, Parked)
    else if s.pool.Some? then
      if Stale(par, s) && !s.reloading then SoftStart(s, t, None) else Goto(u, t, Lookup2)
    else Goto(u.(reloading := true, loader := Some(t)), t, Fetch)
  }

  ghost function FinishBody<Q, K, R>(s: State<Q, K, R>, t: Tid, failed: bool): State<Q, K, R>
    requires t < |s.threads|
  {
    var background := s.threads[t].role.Reloader?;
    var s1 := s.(owner := None, reloading := false, loader := None, threads := Woken(s.threads),
                 lastLoad := if background && failed && !s.closed then s.now else s.lastLoad);
    Goto(s1, t, if background then Ended else Lookup2)
  }

  ghost function BodyStep<Q, K, R>(par: Params<Q, K, R>, s: State<Q, K, R>, t: Tid): State<Q, K, R>
    requires HoldsMutex(s, t)
  {
    match s.threads[t].pc.sec
    case Kick(cached) => KickBody(par, s, t, cached)
    case Ensure => EnsureBody(par, s, t)
    case SwapCheck(p) =>
      if s.closed then Goto(s.(owner := None), t, Await(Finish(false)))
      else Goto(s.(cache := Invalidate(s.cache)), t, Inside(SwapGen(p)))
    case SwapGen(p) => Goto(s.(pools := s.pools[p := s.pools[p].(gen := s.cache.gen)]), t, Inside(SwapStore(p)))
    case SwapStore(p) => Goto(s.(pool := Some(p), published := s.published + [p]), t, Inside(SwapStamp))
    case SwapStamp => Goto(s.(lastLoad := s.now, owner := None), t, Await(Finish(false)))
    case Finish(failed) => FinishBody(s, t, failed)
    case CloseFlag => Goto(s.(closed := true), t, Inside(CloseStore))
    case CloseStore => Goto(s.(pool := None), t, Inside(CloseWake))
    case CloseWake => Goto(s.(owner := None, threads := Woken(s.threads)), t, Ended)
  }

  ghost function NewPool<Q, K, R>(par: Params<Q, K, R>): Pool {
    var size := if par.poolSize <= 0 then DEFAULT_POOL_SIZE else par.poolSize;
    Pool(0, size, seq(size, i => i), map[])
  }

  ghost function Apply<Q, K, R>(par: Params<Q, K, R>, s: State<Q, K, R>, a: Act<Q, R>): State<Q, K, R>
    requires Enabled(s, a)
  {
    match a
    case Tick(d) => s.(now := s.now + d)
    case Call(q) =>
      s.(threads := s.threads + [Thread(Caller(q, LastGen(s.pools, s.published), s.now), Lookup1)])
    case CallClose => s.(threads := s.threads + [Thread(Closer, Await(CloseFlag))])
    case Acquire(t) => Goto(s.(owner := Some(t)), t, Inside(s.threads[t].pc.sec))
    case Body(t) => BodyStep(par, s, t)
    case Get(t) =>
      var (hit, cache') := ResultCaches.Get(s.cache, par.keyOf(s.threads[t].role.q), s.now);
      var first := s.threads[t].pc.Lookup1?;
      Goto(s.(cache := cache'), t,
           match hit
           case Some(out) => if first then Await(Kick(out)) else Done(out)
           case None => if first then Await(Ensure) else LoadPool)
    case StartReload(t) =>
      var s1 := Goto(s, t, if s.threads[t].pc.answer.Some? then Done(s.threads[t].pc.answer.value) else Lookup2);
      s1.(threads := s1.threads + [Thread(Reloader, Fetch)], loader := Some(|s.threads|))
    case FetchFails(t) => Goto(s, t, Await(Finish(true)))
    case FetchSucceeds(t) => Goto(s.(pools := s.pools + [NewPool(par)]), t, Await(SwapCheck(|s.pools|)))
    case Load(t) => Goto(s, t, if s.pool.Some? then Checkout(s.pool.value) else Done(par.direct))
    case Take(t) =>
      var p := s.threads[t].pc.p;
      var pool := s.pools[p];
      var slot := pool.slots[0];
      Goto(s.(pools := s.pools[p := pool.(slots := pool.slots[1..], held := pool.held[slot := t])]),
           t, Evaluate(p, slot))
    case EvalFails(t) => Goto(s, t, PutBack(s.threads[t].pc.p, s.threads[t].pc.slot, par.direct))
    case EvalSucceeds(t, out) =>
      var Evaluate(p, slot) := s.threads[t].pc;
      Goto(s.(evals := s.evals + [Eval(p, s.threads[t].role.q, out)]), t, Store(p, slot, out))
    case PutResult(t) =>
      var Store(p, slot, out) := s.threads[t].pc;
      var key := par.keyOf(s.threads[t].role.q);
      Goto(s.(cache := PutIfGen(s.cache, key, out, s.pools[p].gen, s.now)), t, PutBack(p, slot, out))
    case Release(t) =>
      var PutBack(p, slot, out) := s.threads[t].pc;
      var pool := s.pools[p];
      Goto(s.(pools := s.pools[p := pool.(slots := pool.slots + [slot], held := pool.held - {slot})]), t, Done(out))
  }

  ghost predicate Linked<Q, K, R>(par: Params<Q, K, R>, ss: seq<State<Q, K, R>>, acts: seq<Act<Q, R>>, i: nat)
    requires i < |acts| && |ss| == |acts| + 1
  {
    Enabled(ss[i], acts[i]) && ss[i + 1] == Apply(par, ss[i], acts[i])
  }

  /** A run: states `ss` linked by the steps `acts`, from a fresh evaluator. */
  ghost predicate Run<Q, K, R>(par: Params<Q, K, R>, ss: seq<State<Q, K, R>>, acts: seq<Act<Q, R>>) {
    && |ss| == |acts| + 1
    && ss[0] == Init(par, ss[0].now)
    && forall i :: 0 <= i < |acts| ==> Linked(par, ss, acts, i)
  }
}
