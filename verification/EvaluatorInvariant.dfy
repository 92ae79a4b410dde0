/** What every step of the PAC evaluator keeps. */
module PacInvariant {
  import opened Basics
  import opened ResultCaches
  import opened PacEvaluator

  // ---------------------------------------------------------------- the mutex and the roles

  ghost predicate LockInv<Q, K, R>(s: State<Q, K, R>) {
    && (s.owner.Some? ==> s.owner.value < |s.threads|)
    && forall t :: 0 <= t < |s.threads| ==> (s.threads[t].pc.Inside? <==> s.owner == Some(t))
  }

  /** From the step that sets `reloading` to the one that clears it. */
  ghost predicate IsLoading<R>(pc: PC<R>) {
    || pc.Spawn? || pc.Fetch?
    || ((pc.Await? || pc.Inside?) &&
        (pc.sec.SwapCheck? || pc.sec.SwapGen? || pc.sec.SwapStore? || pc.sec.SwapStamp? || pc.sec.Finish?))
  }

  /** `reloading` is set exactly when one thread is responsible for a load. */
  ghost predicate LoaderInv<Q, K, R>(s: State<Q, K, R>) {
    && (s.reloading <==> s.loader.Some?)
    && (s.loader.Some? ==> s.loader.value < |s.threads|)
    && forall t :: 0 <= t < |s.threads| ==> (IsLoading(s.threads[t].pc) <==> s.loader == Some(t))
  }

  ghost predicate RoleOk<Q, R>(th: Thread<Q, R>) {
    && (th.pc.Await? ==> th.pc.sec.Kick? || th.pc.sec.Ensure? || th.pc.sec.SwapCheck? || th.pc.sec.Finish? || th.pc.sec.CloseFlag?)
    && match th.role
       case Caller(_, _, _) =>
         !th.pc.Ended? && ((th.pc.Await? || th.pc.Inside?) ==> !th.pc.sec.CloseFlag? && !th.pc.sec.CloseStore? && !th.pc.sec.CloseWake?)
       case Reloader => th.pc.Ended? || (IsLoading(th.pc) && !th.pc.Spawn?)
       case Closer =>
         th.pc.Ended? || ((th.pc.Await? || th.pc.Inside?) && (th.pc.sec.CloseFlag? || th.pc.sec.CloseStore? || th.pc.sec.CloseWake?))
  }

  ghost predicate RoleInv<Q, K, R>(s: State<Q, K, R>) {
    forall t :: 0 <= t < |s.threads| ==> RoleOk(s.threads[t])
  }

  /** No lost wakeup: a parked thread waits for a load that is still to finish and broadcast. */
  ghost predicate ParkedInv<Q, K, R>(s: State<Q, K, R>) {
    forall t :: 0 <= t < |s.threads| && s.threads[t].pc.Parked? ==> s.reloading
  }

  ghost predicate ControlInv<Q, K, R>(s: State<Q, K, R>) {
    LockInv(s) && LoaderInv(s) && RoleInv(s) && ParkedInv(s)
  }

  lemma ControlEnv<Q, K, R>(par: Params<Q, K, R>, s: State<Q, K, R>, a: Act<Q, R>)
    requires ControlInv(s) && Enabled(s, a) && !IsThreadAct(a)
    ensures ControlInv(Apply(par, s, a))
  {}

  /** A step that moves one thread, with or without taking or giving up the mutex or the load. */
  lemma ControlMove<Q, K, R>(s: State<Q, K, R>, s': State<Q, K, R>, t: Tid, pc: PC<R>)
    requires ControlInv(s) && t < |s.threads|
    requires s'.threads == s.threads[t := s.threads[t].(pc := pc)]
    requires s'.owner == s.owner || (s.owner == None && s'.owner == Some(t)) || (s.owner == Some(t) && s'.owner == None)
    requires s'.loader == s.loader || (s.loader == None && s'.loader == Some(t))
    requires s'.reloading <==> s'.loader.Some?
    requires pc.Inside? <==> s'.owner == Some(t)
    requires IsLoading(pc) <==> s'.loader == Some(t)
    requires pc.Parked? ==> s'.reloading
    requires RoleOk(s.threads[t].(pc := pc))
    ensures ControlInv(s')
  {}

  lemma ControlLocal<Q, K, R>(par: Params<Q, K, R>, s: State<Q, K, R>, a: Act<Q, R>)
    requires ControlInv(s) && Enabled(s, a) && IsThreadAct(a) && !a.Body? && !a.StartReload?
    ensures ControlInv(Apply(par, s, a))
  {
    var s' := Apply(par, s, a);
    assert RoleOk(s.threads[a.t]);
    ControlMove(s, s', a.t, s'.threads[a.t].pc);
  }

  lemma ControlStartReload<Q, K, R>(par: Params<Q, K, R>, s: State<Q, K, R>, t: Tid)
    requires ControlInv(s) && Enabled(s, StartReload(t))
    ensures ControlInv(Apply(par, s, StartReload(t)))
  {
    assert RoleOk(s.threads[t]);
  }

  lemma ControlBody<Q, K, R>(par: Params<Q, K, R>, s: State<Q, K, R>, t: Tid)
    requires ControlInv(s) && HoldsMutex(s, t) && !s.threads[t].pc.sec.Finish? && !s.threads[t].pc.sec.CloseWake?
    ensures ControlInv(BodyStep(par, s, t))
  {
    assert RoleOk(s.threads[t]);
    var s' := BodyStep(par, s, t);
    ControlMove(s, s', t, s'.threads[t].pc);
  }

  lemma ControlWake<Q, K, R>(par: Params<Q, K, R>, s: State<Q, K, R>, t: Tid)
    requires ControlInv(s) && HoldsMutex(s, t) && (s.threads[t].pc.sec.Finish? || s.threads[t].pc.sec.CloseWake?)
    ensures ControlInv(BodyStep(par, s, t))
  {
    assert RoleOk(s.threads[t]);
    var s' := BodyStep(par, s, t);
    forall i | 0 <= i < |s'.threads| ensures RoleOk(s'.threads[i]) {
      assert RoleOk(s.threads[i]);
    }
  }

  lemma ControlStep<Q, K, R>(par: Params<Q, K, R>, s: State<Q, K, R>, a: Act<Q, R>)
    requires ControlInv(s) && Enabled(s, a)
    ensures ControlInv(Apply(par, s, a))
  {
    if !IsThreadAct(a) { ControlEnv(par, s, a); }
    else if a.StartReload? { ControlStartReload(par, s, a.t); }
    else if !a.Body? { ControlLocal(par, s, a); }
    else {
      var sec := s.threads[a.t].pc.sec;
      if sec.Finish? || sec.CloseWake? { ControlWake(par, s, a.t); } else { ControlBody(par, s, a.t); }
    }
  }

  // ---------------------------------------------------------------- publication and Close

  /** The section the holder of the mutex is in. */
  ghost function OwnerSec<Q, K, R>(s: State<Q, K, R>): Option<Section<R>> {
    if s.owner.Some? && s.owner.value < |s.threads| && s.threads[s.owner.value].pc.Inside?
    then Some(s.threads[s.owner.value].pc.sec) else None
  }

  /** Between cache.invalidate and pool.Store. */
  ghost predicate InWindow<R>(sec: Option<Section<R>>) {
    sec.Some? && (sec.value.SwapGen? || sec.value.SwapStore?)
  }

  ghost predicate Quiet<R>(sec: Option<Section<R>>) {
    sec.Some? ==>
      sec.value.Kick? || sec.value.Ensure? || sec.value.SwapCheck? || sec.value.Finish? || sec.value.CloseFlag?
  }

  /** The pool a loader has built and not yet stored. */
  ghost function Private<R>(pc: PC<R>): Option<PoolId> {
    if (pc.Await? || pc.Inside?) && (pc.sec.SwapCheck? || pc.sec.SwapGen? || pc.sec.SwapStore?) then Some(pc.sec.p)
    else None
  }

  ghost predicate PrivateOk<R>(pools: seq<Pool>, published: seq<PoolId>, pc: PC<R>) {
    Private(pc).Some? ==> Private(pc).value < |pools| && Private(pc).value !in published
  }

  /** Published generations strictly increase and the last one is the cache's generation, except in
      the window, where the cache is already one ahead. */
  ghost predicate GenerationsOk(pools: seq<Pool>, published: seq<PoolId>) {
    && (forall i :: 0 <= i < |published| ==> published[i] < |pools|)
    && (forall i, j :: 0 <= i < j < |published| ==> pools[published[i]].gen < pools[published[j]].gen)
  }

  ghost predicate PublishInv<Q, K, R>(s: State<Q, K, R>) {
    var sec := OwnerSec(s);
    && GenerationsOk(s.pools, s.published)
    && (s.pool.Some? ==> s.published != [] && s.pool.value == s.published[|s.published| - 1])
    && (InWindow(sec) ==> LastGen(s.pools, s.published) < s.cache.gen)
    && (!InWindow(sec) ==>
          LastGen(s.pools, s.published) == s.cache.gen || (s.published == [] && s.cache.gen == 0))
    && (sec.Some? && sec.value.SwapStore? && sec.value.p < |s.pools| ==> s.pools[sec.value.p].gen == s.cache.gen)
    && (forall t :: 0 <= t < |s.threads| ==> PrivateOk(s.pools, s.published, s.threads[t].pc))
  }

  /** Once closed no pool is stored any more, and an open evaluator never loses its pool. */
  ghost predicate CloseInv<Q, K, R>(s: State<Q, K, R>) {
    var sec := OwnerSec(s);
    && (s.closed ==> s.pool.None? || (sec.Some? && sec.value.CloseStore?))
    && (s.closed && sec.Some? ==> !sec.value.SwapGen? && !sec.value.SwapStore? && !sec.value.SwapStamp?)
    && (sec.Some? && (sec.value.CloseStore? || sec.value.CloseWake?) ==> s.closed)
    && (s.published != [] && s.pool.None? ==> s.closed)
  }

  ghost predicate SamePublication<Q, K, R>(s: State<Q, K, R>, s': State<Q, K, R>) {
    && s'.published == s.published && s'.pool == s.pool && s'.closed == s.closed && s'.cache.gen == s.cache.gen
    && |s.pools| <= |s'.pools|
    && (forall p :: 0 <= p < |s.pools| ==> s'.pools[p].gen == s.pools[p].gen)
  }

  /** A step that leaves the publication alone keeps both invariants. */
  lemma PublishFrame<Q, K, R>(s: State<Q, K, R>, s': State<Q, K, R>)
    requires PublishInv(s) && CloseInv(s) && SamePublication(s, s')
    requires OwnerSec(s') == OwnerSec(s) || (Quiet(OwnerSec(s)) && Quiet(OwnerSec(s')))
    requires forall t :: 0 <= t < |s'.threads| ==> PrivateOk(s'.pools, s'.published, s'.threads[t].pc)
    ensures PublishInv(s') && CloseInv(s')
  {}

  lemma PublishEnv<Q, K, R>(par: Params<Q, K, R>, s: State<Q, K, R>, a: Act<Q, R>)
    requires ControlInv(s) && PublishInv(s) && CloseInv(s) && Enabled(s, a) && (!IsThreadAct(a) || a.StartReload?)
    ensures PublishInv(Apply(par, s, a)) && CloseInv(Apply(par, s, a))
    ensures SamePublication(s, Apply(par, s, a))
  {
    PublishFrame(s, Apply(par, s, a));
  }

  /** Steps of one thread outside the mutex, and taking the mutex. */
  ghost predicate IsLocal<Q, R>(a: Act<Q, R>) {
    IsThreadAct(a) && !a.Body? && !a.StartReload?
  }

  /** Outside the mutex only fetching adds a pool and only taking and releasing a slot change one. */
  lemma LocalKeepsPublication<Q, K, R>(par: Params<Q, K, R>, s: State<Q, K, R>, a: Act<Q, R>)
    requires Enabled(s, a) && IsLocal(a)
    ensures SamePublication(s, Apply(par, s, a))
  {}

  lemma LocalKeepsPrivate<Q, K, R>(par: Params<Q, K, R>, s: State<Q, K, R>, a: Act<Q, R>)
    requires Enabled(s, a) && IsLocal(a) && GenerationsOk(s.pools, s.published)
    requires PrivateOk(s.pools, s.published, s.threads[a.t].pc)
    ensures PrivateOk(Apply(par, s, a).pools, s.published, Apply(par, s, a).threads[a.t].pc)
  {}

  lemma PublishLocal<Q, K, R>(par: Params<Q, K, R>, s: State<Q, K, R>, s': State<Q, K, R>, a: Act<Q, R>)
    requires ControlInv(s) && PublishInv(s) && CloseInv(s) && Enabled(s, a) && IsLocal(a)
    requires s' == Apply(par, s, a)
    ensures PublishInv(s') && CloseInv(s') && SamePublication(s, s')
  {
    LocalKeepsPublication(par, s, a);
    LocalKeepsPrivate(par, s, a);
    assert RoleOk(s.threads[a.t]);
    LocalMoves(par, s, a);
    PublishFrame(s, s');
  }

  lemma LocalMoves<Q, K, R>(par: Params<Q, K, R>, s: State<Q, K, R>, a: Act<Q, R>)
    requires Enabled(s, a) && IsLocal(a) && LockInv(s) && RoleOk(s.threads[a.t])
    ensures var s' := Apply(par, s, a);
            && s'.threads == s.threads[a.t := s.threads[a.t].(pc := s'.threads[a.t].pc)]
            && (OwnerSec(s') == OwnerSec(s) || (Quiet(OwnerSec(s)) && Quiet(OwnerSec(s'))))
  {}

  ghost predicate QuietBody<Q, K, R>(s: State<Q, K, R>, t: Tid)
    requires HoldsMutex(s, t)
  {
    var sec := s.threads[t].pc.sec;
    sec.Kick? || sec.Ensure? || sec.Finish? || (sec.SwapCheck? && s.closed)
  }

  lemma PublishQuiet<Q, K, R>(par: Params<Q, K, R>, s: State<Q, K, R>, t: Tid)
    requires ControlInv(s) && PublishInv(s) && CloseInv(s) && HoldsMutex(s, t) && QuietBody(s, t)
    ensures PublishInv(BodyStep(par, s, t)) && CloseInv(BodyStep(par, s, t))
    ensures SamePublication(s, BodyStep(par, s, t))
  {
    QuietKeepsPublication(par, s, t);
    QuietKeepsPrivate(par, s, t);
    PublishFrame(s, BodyStep(par, s, t));
  }

  lemma QuietKeepsPublication<Q, K, R>(par: Params<Q, K, R>, s: State<Q, K, R>, t: Tid)
    requires LockInv(s) && HoldsMutex(s, t) && QuietBody(s, t)
    ensures var s' := BodyStep(par, s, t); SamePublication(s, s') && Quiet(OwnerSec(s)) && Quiet(OwnerSec(s'))
  {}

  lemma QuietKeepsPrivate<Q, K, R>(par: Params<Q, K, R>, s: State<Q, K, R>, t: Tid)
    requires HoldsMutex(s, t) && QuietBody(s, t)
    requires forall i :: 0 <= i < |s.threads| ==> PrivateOk(s.pools, s.published, s.threads[i].pc)
    ensures var s' := BodyStep(par, s, t); forall i :: 0 <= i < |s'.threads| ==> PrivateOk(s'.pools, s'.published, s'.threads[i].pc)
  {
    var s' := BodyStep(par, s, t);
    forall i | 0 <= i < |s'.threads| ensures PrivateOk(s'.pools, s'.published, s'.threads[i].pc) {
      assert PrivateOk(s.pools, s.published, s.threads[i].pc);
    }
  }

  lemma OnlyLoaderHasPrivate<Q, K, R>(s: State<Q, K, R>, t: Tid)
    requires ControlInv(s) && t < |s.threads| && IsLoading(s.threads[t].pc)
    ensures forall i :: 0 <= i < |s.threads| && i != t ==> Private(s.threads[i].pc).None?
  {
    forall i | 0 <= i < |s.threads| && i != t ensures Private(s.threads[i].pc).None? {
      assert !IsLoading(s.threads[i].pc);
    }
  }

  lemma PublishWindow<Q, K, R>(par: Params<Q, K, R>, s: State<Q, K, R>, t: Tid)
    requires ControlInv(s) && PublishInv(s) && CloseInv(s) && HoldsMutex(s, t) && !QuietBody(s, t)
    requires s.threads[t].pc.sec.SwapCheck? || s.threads[t].pc.sec.SwapGen?
    ensures PublishInv(BodyStep(par, s, t)) && CloseInv(BodyStep(par, s, t))
  {
    assert PrivateOk(s.pools, s.published, s.threads[t].pc);
    OnlyLoaderHasPrivate(s, t);
  }

  lemma PublishStore<Q, K, R>(par: Params<Q, K, R>, s: State<Q, K, R>, t: Tid)
    requires ControlInv(s) && PublishInv(s) && CloseInv(s) && HoldsMutex(s, t)
    requires s.threads[t].pc.sec.SwapStore?
    ensures PublishInv(BodyStep(par, s, t)) && CloseInv(BodyStep(par, s, t))
  {
    assert PrivateOk(s.pools, s.published, s.threads[t].pc);
    OnlyLoaderHasPrivate(s, t);
  }

  lemma PublishStamp<Q, K, R>(par: Params<Q, K, R>, s: State<Q, K, R>, t: Tid)
    requires ControlInv(s) && PublishInv(s) && CloseInv(s) && HoldsMutex(s, t)
    requires s.threads[t].pc.sec.SwapStamp?
    ensures PublishInv(BodyStep(par, s, t)) && CloseInv(BodyStep(par, s, t))
  {
    OnlyLoaderHasPrivate(s, t);
  }

  lemma PublishClose<Q, K, R>(par: Params<Q, K, R>, s: State<Q, K, R>, t: Tid)
    requires ControlInv(s) && PublishInv(s) && CloseInv(s) && HoldsMutex(s, t) && !QuietBody(s, t)
    requires !IsLoading(s.threads[t].pc)
    ensures PublishInv(BodyStep(par, s, t)) && CloseInv(BodyStep(par, s, t))
  {
    var s' := BodyStep(par, s, t);
    forall i | 0 <= i < |s'.threads| ensures PrivateOk(s'.pools, s'.published, s'.threads[i].pc) {
      assert PrivateOk(s.pools, s.published, s.threads[i].pc);
    }
  }

  // ---------------------------------------------------------------- runtime slots

  /** Each slot of a pool is in its channel or checked out, never both. */
  ghost predicate PoolOk(pool: Pool) {
    && pool.size > 0
    && (forall i, j :: 0 <= i < j < |pool.slots| ==> pool.slots[i] != pool.slots[j])
    && (forall k :: k in pool.slots ==> k < pool.size && k !in pool.held)
    && (forall k :: k in pool.held ==> k < pool.size)
    && (forall k :: 0 <= k < pool.size ==> k in pool.slots || k in pool.held)
  }

  ghost function SlotOf<R>(pc: PC<R>): Option<(PoolId, nat)> {
    if pc.Evaluate? || pc.Store? || pc.PutBack? then Some((pc.p, pc.slot)) else None
  }

  ghost predicate HolderOk<Q, K, R>(s: State<Q, K, R>, p: PoolId, k: nat, t: Tid) {
    t < |s.threads| && SlotOf(s.threads[t].pc) == Some((p, k))
  }

  ghost predicate SlotInv<Q, K, R>(s: State<Q, K, R>) {
    && (forall p :: 0 <= p < |s.pools| ==> PoolOk(s.pools[p]))
    && (forall p, k :: 0 <= p < |s.pools| && k in s.pools[p].held ==> HolderOk(s, p, k, s.pools[p].held[k]))
    && (forall t :: 0 <= t < |s.threads| && SlotOf(s.threads[t].pc).Some? ==>
          var (p, k) := SlotOf(s.threads[t].pc).value;
          p < |s.pools| && k in s.pools[p].held && s.pools[p].held[k] == t)
  }

  ghost predicate SameSlots(a: Pool, b: Pool) {
    a.size == b.size && a.slots == b.slots && a.held == b.held
  }

  lemma SlotFrame<Q, K, R>(s: State<Q, K, R>, s': State<Q, K, R>)
    requires SlotInv(s) && |s.pools| <= |s'.pools| && |s.threads| <= |s'.threads|
    requires forall p :: 0 <= p < |s.pools| ==> SameSlots(s.pools[p], s'.pools[p])
    requires forall p :: |s.pools| <= p < |s'.pools| ==> PoolOk(s'.pools[p]) && s'.pools[p].held == map[]
    requires forall t :: 0 <= t < |s.threads| ==> SlotOf(s'.threads[t].pc) == SlotOf(s.threads[t].pc)
    requires forall t :: |s.threads| <= t < |s'.threads| ==> SlotOf(s'.threads[t].pc).None?
    ensures SlotInv(s')
  {
    forall p, k | 0 <= p < |s'.pools| && k in s'.pools[p].held ensures HolderOk(s', p, k, s'.pools[p].held[k]) {
      assert HolderOk(s, p, k, s.pools[p].held[k]);
    }
  }

  lemma NewPoolOk<Q, K, R>(par: Params<Q, K, R>)
    ensures PoolOk(NewPool(par)) && NewPool(par).held == map[]
  {
    var pool := NewPool(par);
    forall k | 0 <= k < pool.size ensures k in pool.slots { assert pool.slots[k] == k; }
  }

  lemma SlotBody<Q, K, R>(par: Params<Q, K, R>, s: State<Q, K, R>, t: Tid)
    requires SlotInv(s) && HoldsMutex(s, t)
    ensures SlotInv(BodyStep(par, s, t))
  {
    BodyKeepsSlots(par, s, t);
    SlotFrame(s, BodyStep(par, s, t));
  }

  /** What a step inside the mutex does to the list of threads. */
  lemma BodyMoves<Q, K, R>(par: Params<Q, K, R>, s: State<Q, K, R>, t: Tid)
    requires HoldsMutex(s, t)
    ensures var s', sec := BodyStep(par, s, t), s.threads[t].pc.sec;
            var others := if sec.Finish? || sec.CloseWake? then Woken(s.threads) else s.threads;
            && |s'.threads| == |s.threads| && SlotOf(s'.threads[t].pc).None?
            && s'.threads == others[t := s.threads[t].(pc := s'.threads[t].pc)]
  {
    var sec := s.threads[t].pc.sec;
    if sec.Finish? || sec.CloseWake? { WakeMoves(par, s, t); } else { QuietMoves(par, s, t); }
  }

  lemma WakeMoves<Q, K, R>(par: Params<Q, K, R>, s: State<Q, K, R>, t: Tid)
    requires HoldsMutex(s, t) && (s.threads[t].pc.sec.Finish? || s.threads[t].pc.sec.CloseWake?)
    ensures var s' := BodyStep(par, s, t);
            && |s'.threads| == |s.threads| && SlotOf(s'.threads[t].pc).None?
            && s'.threads == Woken(s.threads)[t := s.threads[t].(pc := s'.threads[t].pc)]
  {}

  lemma QuietMoves<Q, K, R>(par: Params<Q, K, R>, s: State<Q, K, R>, t: Tid)
    requires HoldsMutex(s, t) && !s.threads[t].pc.sec.Finish? && !s.threads[t].pc.sec.CloseWake?
    ensures var s' := BodyStep(par, s, t);
            && |s'.threads| == |s.threads| && SlotOf(s'.threads[t].pc).None?
            && s'.threads == s.threads[t := s.threads[t].(pc := s'.threads[t].pc)]
  {}

  lemma BodyKeepsSlots<Q, K, R>(par: Params<Q, K, R>, s: State<Q, K, R>, t: Tid)
    requires HoldsMutex(s, t)
    ensures var s' := BodyStep(par, s, t);
            && |s'.pools| == |s.pools| && |s'.threads| == |s.threads|
            && (forall p :: 0 <= p < |s.pools| ==> SameSlots(s.pools[p], s'.pools[p]))
            && (forall i :: 0 <= i < |s.threads| ==> SlotOf(s'.threads[i].pc) == SlotOf(s.threads[i].pc))
  {
    BodyMoves(par, s, t);
    var s' := BodyStep(par, s, t);
    assert s.threads[t].pc.sec.SwapGen? || s'.pools == s.pools;
  }

  lemma SlotOther<Q, K, R>(par: Params<Q, K, R>, s: State<Q, K, R>, a: Act<Q, R>)
    requires SlotInv(s) && Enabled(s, a) && !a.Body? && !a.Take? && !a.Release?
    ensures SlotInv(Apply(par, s, a))
  {
    if IsThreadAct(a) && !a.StartReload? { SlotLocal(par, s, a); } else { SlotArrival(par, s, a); }
  }

  lemma SlotLocal<Q, K, R>(par: Params<Q, K, R>, s: State<Q, K, R>, a: Act<Q, R>)
    requires SlotInv(s) && Enabled(s, a) && IsLocal(a) && !a.Take? && !a.Release?
    ensures SlotInv(Apply(par, s, a))
  {
    NewPoolOk(par);
    SlotFrame(s, Apply(par, s, a));
  }

  lemma SlotArrival<Q, K, R>(par: Params<Q, K, R>, s: State<Q, K, R>, a: Act<Q, R>)
    requires SlotInv(s) && Enabled(s, a) && (!IsThreadAct(a) || a.StartReload?)
    ensures SlotInv(Apply(par, s, a))
  {
    SlotFrame(s, Apply(par, s, a));
  }

  lemma TakeKeepsPool(pool: Pool, t: Tid)
    requires PoolOk(pool) && pool.slots != []
    ensures PoolOk(pool.(slots := pool.slots[1..], held := pool.held[pool.slots[0] := t]))
    ensures pool.slots[0] !in pool.held
  {
    assert pool.slots[0] in pool.slots;
    var rest := pool.slots[1..];
    assert forall i :: 0 <= i < |rest| ==> rest[i] == pool.slots[i + 1];
    forall k | k in rest ensures k in pool.slots && k != pool.slots[0] {
      var i :| 0 <= i < |rest| && rest[i] == k;
    }
    forall k | 0 <= k < pool.size ensures k == pool.slots[0] || k in rest || k in pool.held {
      if k in pool.slots && k != pool.slots[0] {
        var i :| 0 <= i < |pool.slots| && pool.slots[i] == k;
        assert rest[i - 1] == k;
      }
    }
  }

  lemma ReleaseKeepsPool(pool: Pool, k: nat)
    requires PoolOk(pool) && k in pool.held
    ensures PoolOk(pool.(slots := pool.slots + [k], held := pool.held - {k}))
  {}

  lemma SlotTake<Q, K, R>(par: Params<Q, K, R>, s: State<Q, K, R>, t: Tid)
    requires SlotInv(s) && Enabled(s, Take(t))
    ensures SlotInv(Apply(par, s, Take(t)))
  {
    var s', p := Apply(par, s, Take(t)), s.threads[t].pc.p;
    TakeKeepsPool(s.pools[p], t);
    forall q, k | 0 <= q < |s'.pools| && k in s'.pools[q].held ensures HolderOk(s', q, k, s'.pools[q].held[k]) {
      if q != p || k != s.pools[p].slots[0] { assert HolderOk(s, q, k, s.pools[q].held[k]); }
    }
  }

  lemma ReleaseKeepsHolders<Q, K, R>(par: Params<Q, K, R>, s: State<Q, K, R>, t: Tid, q: PoolId, k: nat)
    requires SlotInv(s) && Enabled(s, Release(t))
    requires var s' := Apply(par, s, Release(t)); q < |s'.pools| && k in s'.pools[q].held
    ensures var s' := Apply(par, s, Release(t)); HolderOk(s', q, k, s'.pools[q].held[k])
  {
    assert HolderOk(s, q, k, s.pools[q].held[k]);
  }

  lemma ReleaseKeepsOwners<Q, K, R>(par: Params<Q, K, R>, s: State<Q, K, R>, t: Tid, u: Tid)
    requires SlotInv(s) && Enabled(s, Release(t)) && u < |s.threads|
    requires SlotOf(Apply(par, s, Release(t)).threads[u].pc).Some?
    ensures var s' := Apply(par, s, Release(t)); var (p, k) := SlotOf(s'.threads[u].pc).value;
            p < |s'.pools| && k in s'.pools[p].held && s'.pools[p].held[k] == u
  {}

  lemma SlotRelease<Q, K, R>(par: Params<Q, K, R>, s: State<Q, K, R>, t: Tid)
    requires SlotInv(s) && Enabled(s, Release(t))
    ensures SlotInv(Apply(par, s, Release(t)))
  {
    var s', p := Apply(par, s, Release(t)), s.threads[t].pc.p;
    ReleaseKeepsPool(s.pools[p], s.threads[t].pc.slot);
    forall q, k | 0 <= q < |s'.pools| && k in s'.pools[q].held ensures HolderOk(s', q, k, s'.pools[q].held[k]) {
      ReleaseKeepsHolders(par, s, t, q, k);
    }
    forall u | 0 <= u < |s'.threads| && SlotOf(s'.threads[u].pc).Some?
      ensures var (q, k) := SlotOf(s'.threads[u].pc).value; q < |s'.pools| && k in s'.pools[q].held && s'.pools[q].held[k] == u
    {
      ReleaseKeepsOwners(par, s, t, u);
    }
  }

  lemma SlotStep<Q, K, R>(par: Params<Q, K, R>, s: State<Q, K, R>, a: Act<Q, R>)
    requires SlotInv(s) && Enabled(s, a)
    ensures SlotInv(Apply(par, s, a))
  {
    if a.Body? { SlotBody(par, s, a.t); }
    else if a.Take? { SlotTake(par, s, a.t); }
    else if a.Release? { SlotRelease(par, s, a.t); }
    else { SlotOther(par, s, a); }
  }

  ghost function Below(n: nat): (r: set<nat>)
    ensures forall k: nat :: k in r <==> k < n
    ensures |r| == n
  {
    if n == 0 then {} else Below(n - 1) + {n - 1}
  }

  ghost function Elements(s: seq<nat>): set<nat> { set k | k in s }

  lemma DistinctBound(slots: seq<nat>, size: nat, absent: nat)
    requires absent < size && absent !in slots
    requires forall k :: k in slots ==> k < size
    requires forall i, j :: 0 <= i < j < |slots| ==> slots[i] != slots[j]
    ensures |slots| < size
  {
    ElementsSize(slots);
    SubsetSize(Elements(slots), Below(size) - {absent});
  }

  lemma {:induction false} ElementsSize(s: seq<nat>)
    requires forall i, j :: 0 <= i < j < |s| ==> s[i] != s[j]
    ensures |Elements(s)| == |s|
  {
    if s != [] {
      ElementsSize(s[1..]);
      assert Elements(s) == {s[0]} + Elements(s[1..]);
      assert s[0] !in s[1..];
    }
  }

  /** Returning a slot never blocks: its own pool's channel has room for it. */
  lemma ReleaseNeverBlocks<Q, K, R>(s: State<Q, K, R>, t: Tid)
    requires SlotInv(s) && t < |s.threads| && s.threads[t].pc.PutBack?
    ensures Enabled(s, Release(t))
  {
    var pool := s.pools[s.threads[t].pc.p];
    DistinctBound(pool.slots, pool.size, s.threads[t].pc.slot);
  }

  // ---------------------------------------------------------------- provenance

  /** The entry is a result of the pool published last, whose generation it carries. */
  ghost predicate Backed<Q, K, R>(par: Params<Q, K, R>, s: State<Q, K, R>, e: Entry<K, R>) {
    && s.published != []
    && LastGen(s.pools, s.published) == e.gen
    && exists x :: x in s.evals && x.p == s.published[|s.published| - 1] && par.keyOf(x.q) == e.key && x.out == e.result
  }

  ghost predicate CacheInv<Q, K, R>(par: Params<Q, K, R>, s: State<Q, K, R>) {
    && Coherent(s.cache)
    && s.cache.ttl == EffectiveTTL(par.ttl)
    && forall e :: e in s.cache.order ==> Backed(par, s, e) && e.expires <= s.now + s.cache.ttl
  }

  ghost predicate PublishedSince<Q, K, R>(s: State<Q, K, R>, p: PoolId, since: int) {
    p in s.published && p < |s.pools| && s.pools[p].gen >= since
  }

  /** "DIRECT", or a result some pool of generation `since` or later computed for the same key. */
  ghost predicate GoodAnswer<Q, K, R>(par: Params<Q, K, R>, s: State<Q, K, R>, q: Q, since: int, out: R) {
    out == par.direct ||
    exists x :: x in s.evals && x.out == out && par.keyOf(x.q) == par.keyOf(q) && PublishedSince(s, x.p, since)
  }

  ghost function AnswerOf<R>(pc: PC<R>): Option<R> {
    if pc.PutBack? || pc.Done? then Some(pc.out)
    else if pc.Spawn? then pc.answer
    else if (pc.Await? || pc.Inside?) && pc.sec.Kick? then Some(pc.sec.cached)
    else None
  }

  ghost predicate CallOk<Q, K, R>(par: Params<Q, K, R>, s: State<Q, K, R>, th: Thread<Q, R>) {
    th.role.Caller? ==>
      && th.role.since <= LastGen(s.pools, s.published)
      && (th.pc.Checkout? || th.pc.Evaluate? || th.pc.Store? ==> PublishedSince(s, th.pc.p, th.role.since))
      && (th.pc.Store? ==> Eval(th.pc.p, th.role.q, th.pc.out) in s.evals)
      && (AnswerOf(th.pc).Some? ==> GoodAnswer(par, s, th.role.q, th.role.since, AnswerOf(th.pc).value))
  }

  ghost predicate AnswerInv<Q, K, R>(par: Params<Q, K, R>, s: State<Q, K, R>) {
    forall t :: 0 <= t < |s.threads| ==> CallOk(par, s, s.threads[t])
  }

  /** History only grows. */
  ghost predicate Grows<Q, K, R>(s: State<Q, K, R>, s': State<Q, K, R>) {
    && s.published <= s'.published && s.evals <= s'.evals
    && |s.pools| <= |s'.pools|
    && (forall p :: p in s.published ==> p < |s.pools| ==> s'.pools[p].gen == s.pools[p].gen)
    && LastGen(s.pools, s.published) <= LastGen(s'.pools, s'.published)
  }

  lemma CallOkGrows<Q, K, R>(par: Params<Q, K, R>, s: State<Q, K, R>, s': State<Q, K, R>, th: Thread<Q, R>)
    requires CallOk(par, s, th) && Grows(s, s')
    ensures CallOk(par, s', th)
  {
    assert forall p :: p in s.published ==> p in s'.published;
    assert forall x :: x in s.evals ==> x in s'.evals;
  }

  lemma BackedGrows<Q, K, R>(par: Params<Q, K, R>, s: State<Q, K, R>, s': State<Q, K, R>, e: Entry<K, R>)
    requires Backed(par, s, e) && Grows(s, s') && s'.published == s.published && GenerationsOk(s.pools, s.published)
    ensures Backed(par, s', e)
  {
    assert forall x :: x in s.evals ==> x in s'.evals;
  }

  ghost predicate HistoryMove<Q, K, R>(s: State<Q, K, R>, s': State<Q, K, R>, sec: Section<R>) {
    && s'.now == s.now && s'.evals == s.evals && |s'.pools| == |s.pools|
    && s'.published == (if sec.SwapStore? then s.published + [sec.p] else s.published)
    && (forall p :: 0 <= p < |s.pools| ==> (sec.SwapGen? && sec.p == p) || s'.pools[p] == s.pools[p])
    && (s'.cache == s.cache || (sec.SwapCheck? && !s.closed && s'.cache == Invalidate(s.cache)))
  }

  lemma BodyHistory<Q, K, R>(par: Params<Q, K, R>, s: State<Q, K, R>, t: Tid)
    requires HoldsMutex(s, t)
    ensures HistoryMove(s, BodyStep(par, s, t), s.threads[t].pc.sec)
  {}

  lemma HistoryGrows<Q, K, R>(s: State<Q, K, R>, s': State<Q, K, R>, t: Tid)
    requires LockInv(s) && PublishInv(s) && HoldsMutex(s, t) && HistoryMove(s, s', s.threads[t].pc.sec)
    ensures Grows(s, s')
  {
    assert PrivateOk(s.pools, s.published, s.threads[t].pc);
  }

  lemma BodyGrows<Q, K, R>(par: Params<Q, K, R>, s: State<Q, K, R>, t: Tid)
    requires LockInv(s) && PublishInv(s) && HoldsMutex(s, t)
    ensures Grows(s, BodyStep(par, s, t)) && BodyStep(par, s, t).evals == s.evals
  {
    BodyHistory(par, s, t);
    HistoryGrows(s, BodyStep(par, s, t), t);
  }

  lemma OtherGrows<Q, K, R>(par: Params<Q, K, R>, s: State<Q, K, R>, a: Act<Q, R>)
    requires GenerationsOk(s.pools, s.published) && Enabled(s, a) && !a.Body?
    ensures Grows(s, Apply(par, s, a)) && Apply(par, s, a).published == s.published
  {}

  /** A published pool with the cache's generation is the one published last. */
  lemma CurrentPoolIsLast<Q, K, R>(s: State<Q, K, R>, p: PoolId)
    requires PublishInv(s) && p in s.published && s.pools[p].gen == s.cache.gen
    ensures p == s.published[|s.published| - 1] && LastGen(s.pools, s.published) == s.cache.gen
  {
    var i :| 0 <= i < |s.published| && s.published[i] == p;
    var last := |s.published| - 1;
    assert forall j :: 0 <= j < last ==> s.pools[s.published[j]].gen < s.pools[s.published[last]].gen;
  }

  /** In the window nothing is cached. */
  lemma WindowIsEmpty<Q, K, R>(par: Params<Q, K, R>, s: State<Q, K, R>)
    requires PublishInv(s) && CacheInv(par, s) && InWindow(OwnerSec(s))
    ensures forall e :: e !in s.cache.order
  {}

  lemma CacheBody<Q, K, R>(par: Params<Q, K, R>, s: State<Q, K, R>, t: Tid)
    requires ControlInv(s) && PublishInv(s) && CacheInv(par, s) && HoldsMutex(s, t)
    ensures CacheInv(par, BodyStep(par, s, t))
  {
    var s', sec := BodyStep(par, s, t), s.threads[t].pc.sec;
    BodyGrows(par, s, t);
    BodyHistory(par, s, t);
    if sec.SwapStore? {
      WindowIsEmpty(par, s);
    } else {
      forall e | e in s'.cache.order ensures Backed(par, s', e) { BackedGrows(par, s, s', e); }
    }
  }

  lemma CacheGet<Q, K, R>(par: Params<Q, K, R>, s: State<Q, K, R>, t: Tid)
    requires PublishInv(s) && CacheInv(par, s) && Enabled(s, Get(t))
    ensures CacheInv(par, Apply(par, s, Get(t)))
  {
    var s' := Apply(par, s, Get(t));
    GetKeeps(s.cache, par.keyOf(s.threads[t].role.q), s.now);
    OtherGrows(par, s, Get(t));
    forall e | e in s'.cache.order ensures Backed(par, s', e) { BackedGrows(par, s, s', e); }
  }

  lemma CachePut<Q, K, R>(par: Params<Q, K, R>, s: State<Q, K, R>, t: Tid)
    requires PublishInv(s) && CacheInv(par, s) && Enabled(s, PutResult(t)) && CallOk(par, s, s.threads[t])
    ensures CacheInv(par, Apply(par, s, PutResult(t)))
  {
    var s' := Apply(par, s, PutResult(t));
    var Store(p, slot, out) := s.threads[t].pc;
    var q := s.threads[t].role.q;
    PutKeeps(s.cache, par.keyOf(q), out, s.pools[p].gen, s.now);
    OtherGrows(par, s, PutResult(t));
    if s.pools[p].gen == s.cache.gen { CurrentPoolIsLast(s, p); }
    forall e | e in s'.cache.order ensures Backed(par, s', e) && e.expires <= s'.now + s'.cache.ttl {
      if e in s.cache.order {
        BackedGrows(par, s, s', e);
      } else {
        assert Eval(p, q, out) in s'.evals;
      }
    }
  }

  lemma CacheOther<Q, K, R>(par: Params<Q, K, R>, s: State<Q, K, R>, a: Act<Q, R>)
    requires PublishInv(s) && CacheInv(par, s) && Enabled(s, a) && !a.Body? && !a.Get? && !a.PutResult?
    ensures CacheInv(par, Apply(par, s, a))
  {
    var s' := Apply(par, s, a);
    OtherGrows(par, s, a);
    OtherKeepsCache(par, s, a);
    forall e | e in s'.cache.order ensures Backed(par, s', e) { BackedGrows(par, s, s', e); }
  }

  lemma OtherKeepsCache<Q, K, R>(par: Params<Q, K, R>, s: State<Q, K, R>, a: Act<Q, R>)
    requires Enabled(s, a) && !a.Body? && !a.Get? && !a.PutResult?
    ensures Apply(par, s, a).cache == s.cache && Apply(par, s, a).now >= s.now
  {}

  lemma CacheStep<Q, K, R>(par: Params<Q, K, R>, s: State<Q, K, R>, a: Act<Q, R>)
    requires ControlInv(s) && PublishInv(s) && CacheInv(par, s) && AnswerInv(par, s) && Enabled(s, a)
    ensures CacheInv(par, Apply(par, s, a))
  {
    if a.Body? { CacheBody(par, s, a.t); }
    else if a.Get? { CacheGet(par, s, a.t); }
    else if a.PutResult? { CachePut(par, s, a.t); }
    else { CacheOther(par, s, a); }
  }

  // ---------------------------------------------------------------- answers

  lemma HitIsGood<Q, K, R>(par: Params<Q, K, R>, s: State<Q, K, R>, q: Q, since: int)
    requires PublishInv(s) && CacheInv(par, s) && since <= LastGen(s.pools, s.published)
    ensures var hit := ResultCaches.Get(s.cache, par.keyOf(q), s.now).0;
            hit.Some? ==> GoodAnswer(par, s, q, since, hit.value)
  {
    var i := IndexOf(s.cache.order, par.keyOf(q));
    if i < |s.cache.order| {
      var e := s.cache.order[i];
      assert e in s.cache.order;
      var x :| x in s.evals && x.p == s.published[|s.published| - 1] && par.keyOf(x.q) == e.key && x.out == e.result;
      assert PublishedSince(s, x.p, since);
    }
  }

  /** The thread that steps keeps what is said about its call, seen from the old state. */
  lemma AnswerMoves<Q, K, R>(par: Params<Q, K, R>, s: State<Q, K, R>, a: Act<Q, R>)
    requires PublishInv(s) && Enabled(s, a) && IsLocal(a) && !a.EvalSucceeds? && !a.Get?
    requires CallOk(par, s, s.threads[a.t])
    ensures CallOk(par, s, Apply(par, s, a).threads[a.t])
  {
    if a.PutResult? { AnswerPut(par, s, a.t); }
    else if a.Take? || a.EvalFails? || a.Release? { AnswerSlot(par, s, a); }
    else { AnswerLoad(par, s, a); }
  }

  lemma AnswerPut<Q, K, R>(par: Params<Q, K, R>, s: State<Q, K, R>, t: Tid)
    requires PublishInv(s) && Enabled(s, PutResult(t)) && CallOk(par, s, s.threads[t])
    ensures CallOk(par, s, Apply(par, s, PutResult(t)).threads[t])
  {
    var th := s.threads[t];
    assert Eval(th.pc.p, th.role.q, th.pc.out) in s.evals;
  }

  lemma AnswerSlot<Q, K, R>(par: Params<Q, K, R>, s: State<Q, K, R>, a: Act<Q, R>)
    requires PublishInv(s) && Enabled(s, a) && (a.Take? || a.EvalFails? || a.Release?)
    requires CallOk(par, s, s.threads[a.t])
    ensures CallOk(par, s, Apply(par, s, a).threads[a.t])
  {}

  lemma AnswerLoad<Q, K, R>(par: Params<Q, K, R>, s: State<Q, K, R>, a: Act<Q, R>)
    requires PublishInv(s) && Enabled(s, a) && (a.Acquire? || a.FetchFails? || a.FetchSucceeds? || a.Load?)
    requires CallOk(par, s, s.threads[a.t])
    ensures CallOk(par, s, Apply(par, s, a).threads[a.t])
  {}

  lemma AnswerGet<Q, K, R>(par: Params<Q, K, R>, s: State<Q, K, R>, t: Tid)
    requires PublishInv(s) && CacheInv(par, s) && Enabled(s, Get(t)) && CallOk(par, s, s.threads[t])
    ensures CallOk(par, s, Apply(par, s, Get(t)).threads[t])
  {
    HitIsGood(par, s, s.threads[t].role.q, s.threads[t].role.since);
  }

  lemma AnswerEval<Q, K, R>(par: Params<Q, K, R>, s: State<Q, K, R>, t: Tid, out: R)
    requires Enabled(s, EvalSucceeds(t, out)) && CallOk(par, s, s.threads[t])
    ensures var s' := Apply(par, s, EvalSucceeds(t, out)); CallOk(par, s', s'.threads[t])
  {
    var s' := Apply(par, s, EvalSucceeds(t, out));
    assert s'.evals[|s.evals|] == Eval(s.threads[t].pc.p, s.threads[t].role.q, out);
  }

  lemma AnswerLocal<Q, K, R>(par: Params<Q, K, R>, s: State<Q, K, R>, a: Act<Q, R>)
    requires ControlInv(s) && PublishInv(s) && CacheInv(par, s) && AnswerInv(par, s) && Enabled(s, a) && IsLocal(a)
    ensures AnswerInv(par, Apply(par, s, a))
  {
    var s' := Apply(par, s, a);
    OtherGrows(par, s, a);
    assert RoleOk(s.threads[a.t]);
    LocalMoves(par, s, a);
    if a.EvalSucceeds? { AnswerEval(par, s, a.t, a.result); }
    else if a.Get? { AnswerGet(par, s, a.t); }
    else { AnswerMoves(par, s, a); }
    forall i | 0 <= i < |s'.threads| ensures CallOk(par, s', s'.threads[i]) {
      if i != a.t { CallOkGrows(par, s, s', s.threads[i]); }
      else if !a.EvalSucceeds? { CallOkGrows(par, s, s', s'.threads[i]); }
    }
  }

  lemma AnswerEnv<Q, K, R>(par: Params<Q, K, R>, s: State<Q, K, R>, a: Act<Q, R>)
    requires PublishInv(s) && AnswerInv(par, s) && Enabled(s, a) && (!IsThreadAct(a) || a.StartReload?)
    ensures AnswerInv(par, Apply(par, s, a))
  {
    var s' := Apply(par, s, a);
    OtherGrows(par, s, a);
    forall i | 0 <= i < |s'.threads| ensures CallOk(par, s', s'.threads[i]) {
      if i < |s.threads| { CallOkGrows(par, s, s', s.threads[i]); }
    }
  }

  lemma AnswerBody<Q, K, R>(par: Params<Q, K, R>, s: State<Q, K, R>, t: Tid)
    requires ControlInv(s) && PublishInv(s) && AnswerInv(par, s) && HoldsMutex(s, t)
    ensures AnswerInv(par, BodyStep(par, s, t))
  {
    var s' := BodyStep(par, s, t);
    BodyGrows(par, s, t);
    BodyMoves(par, s, t);
    BodyAnswers(par, s, t);
    forall i | 0 <= i < |s'.threads| ensures CallOk(par, s', s'.threads[i]) {
      CallOkGrows(par, s, s', s.threads[i]);
    }
  }

  lemma BodyAnswers<Q, K, R>(par: Params<Q, K, R>, s: State<Q, K, R>, t: Tid)
    requires HoldsMutex(s, t)
    ensures var pc := BodyStep(par, s, t).threads[t].pc;
            && !pc.Checkout? && !pc.Evaluate? && !pc.Store?
            && (AnswerOf(pc).Some? ==> AnswerOf(pc) == AnswerOf(s.threads[t].pc))
  {
    var sec := s.threads[t].pc.sec;
    if sec.Kick? { assert BodyStep(par, s, t) == KickBody(par, s, t, sec.cached); }
    else if sec.Ensure? { assert BodyStep(par, s, t) == EnsureBody(par, s, t); }
    else if sec.Finish? { assert BodyStep(par, s, t) == FinishBody(s, t, sec.failed); }
  }

  lemma AnswerStep<Q, K, R>(par: Params<Q, K, R>, s: State<Q, K, R>, a: Act<Q, R>)
    requires ControlInv(s) && PublishInv(s) && CacheInv(par, s) && AnswerInv(par, s) && Enabled(s, a)
    ensures AnswerInv(par, Apply(par, s, a))
  {
    if a.Body? { AnswerBody(par, s, a.t); }
    else if IsLocal(a) { AnswerLocal(par, s, a); }
    else { AnswerEnv(par, s, a); }
  }

  // ---------------------------------------------------------------- throttling of background reloads

  /** A first load, made by the caller itself. */
  ghost predicate ColdLoading<Q, R>(th: Thread<Q, R>) {
    th.role.Caller? && IsLoading(th.pc) && !th.pc.Spawn?
  }

  ghost predicate Spaced(ts: seq<int>, gap: int) {
    forall i, j :: 0 <= i < j < |ts| ==> ts[j] - ts[i] >= gap
  }

  ghost predicate StampedSince(softStarts: seq<int>, lastLoad: int) {
    forall i :: 0 <= i < |softStarts| ==> softStarts[i] <= lastLoad
  }

  ghost predicate ThrottleInv<Q, K, R>(par: Params<Q, K, R>, s: State<Q, K, R>) {
    && Spaced(s.softStarts, par.reloadInterval)
    && (forall i :: 0 <= i < |s.softStarts| ==> s.softStarts[i] <= s.now)
    && (s.softStarts != [] ==> s.published != [])
    && (!s.closed && !s.reloading ==> StampedSince(s.softStarts, s.lastLoad))
    && (forall t :: 0 <= t < |s.threads| ==>
          && (ColdLoading(s.threads[t]) ==> s.softStarts == [])
          && (!s.closed && (s.threads[t].pc.Await? || s.threads[t].pc.Inside?) && s.threads[t].pc.sec == Finish(false) ==>
                StampedSince(s.softStarts, s.lastLoad)))
  }

  lemma ThrottleLoading<Q, K, R>(par: Params<Q, K, R>, s: State<Q, K, R>, a: Act<Q, R>)
    requires ControlInv(s) && ThrottleInv(par, s) && Enabled(s, a)
    requires a.Acquire? || a.StartReload? || a.FetchFails? || a.FetchSucceeds?
    ensures ThrottleInv(par, Apply(par, s, a))
  {}

  lemma ThrottleCalling<Q, K, R>(par: Params<Q, K, R>, s: State<Q, K, R>, a: Act<Q, R>)
    requires ControlInv(s) && ThrottleInv(par, s) && Enabled(s, a)
    requires !a.Body? && !a.Acquire? && !a.StartReload? && !a.FetchFails? && !a.FetchSucceeds?
    ensures ThrottleInv(par, Apply(par, s, a))
  {
    if IsThreadAct(a) { ThrottleEvaluating(par, s, a); } else { ThrottleArriving(par, s, a); }
  }

  lemma ThrottleEvaluating<Q, K, R>(par: Params<Q, K, R>, s: State<Q, K, R>, a: Act<Q, R>)
    requires ThrottleInv(par, s) && Enabled(s, a) && IsLocal(a) && !a.Acquire? && !a.FetchFails? && !a.FetchSucceeds?
    ensures ThrottleInv(par, Apply(par, s, a))
  {}

  lemma ThrottleArriving<Q, K, R>(par: Params<Q, K, R>, s: State<Q, K, R>, a: Act<Q, R>)
    requires ThrottleInv(par, s) && Enabled(s, a) && !IsThreadAct(a)
    ensures ThrottleInv(par, Apply(par, s, a))
  {}

  lemma SpacedSnoc(ts: seq<int>, gap: int, lastLoad: int, now: int)
    requires Spaced(ts, gap) && StampedSince(ts, lastLoad) && now - lastLoad >= gap
    ensures Spaced(ts + [now], gap)
  {}

  lemma ThrottleStart<Q, K, R>(par: Params<Q, K, R>, s: State<Q, K, R>, t: Tid)
    requires ControlInv(s) && CloseInv(s) && PublishInv(s) && ThrottleInv(par, s) && HoldsMutex(s, t)
    requires s.threads[t].pc.sec.Kick? || s.threads[t].pc.sec.Ensure?
    ensures ThrottleInv(par, BodyStep(par, s, t))
  {
    if s.threads[t].pc.sec.Kick? { ThrottleKick(par, s, t); } else { ThrottleEnsure(par, s, t); }
  }

  lemma ThrottleKick<Q, K, R>(par: Params<Q, K, R>, s: State<Q, K, R>, t: Tid)
    requires ControlInv(s) && PublishInv(s) && ThrottleInv(par, s) && HoldsMutex(s, t) && s.threads[t].pc.sec.Kick?
    ensures ThrottleInv(par, BodyStep(par, s, t))
  {
    if !s.closed && !s.reloading && s.now - s.lastLoad >= par.reloadInterval {
      SpacedSnoc(s.softStarts, par.reloadInterval, s.lastLoad, s.now);
    }
  }

  lemma ThrottleEnsure<Q, K, R>(par: Params<Q, K, R>, s: State<Q, K, R>, t: Tid)
    requires ControlInv(s) && CloseInv(s) && PublishInv(s) && ThrottleInv(par, s) && HoldsMutex(s, t) && s.threads[t].pc.sec.Ensure?
    ensures ThrottleInv(par, BodyStep(par, s, t))
  {
    if !s.closed && !s.reloading && s.now - s.lastLoad >= par.reloadInterval {
      SpacedSnoc(s.softStarts, par.reloadInterval, s.lastLoad, s.now);
    }
  }

  lemma ThrottleBody<Q, K, R>(par: Params<Q, K, R>, s: State<Q, K, R>, t: Tid)
    requires ControlInv(s) && CloseInv(s) && PublishInv(s) && ThrottleInv(par, s) && HoldsMutex(s, t)
    requires !s.threads[t].pc.sec.Kick? && !s.threads[t].pc.sec.Ensure?
    ensures ThrottleInv(par, BodyStep(par, s, t))
  {
    if s.threads[t].pc.sec.Finish? { ThrottleFinish(par, s, t); } else { ThrottleSwap(par, s, t); }
  }

  lemma ThrottleFinish<Q, K, R>(par: Params<Q, K, R>, s: State<Q, K, R>, t: Tid)
    requires ControlInv(s) && CloseInv(s) && PublishInv(s) && ThrottleInv(par, s) && HoldsMutex(s, t)
    requires s.threads[t].pc.sec.Finish?
    ensures ThrottleInv(par, BodyStep(par, s, t))
  {}

  lemma ThrottleSwap<Q, K, R>(par: Params<Q, K, R>, s: State<Q, K, R>, t: Tid)
    requires ControlInv(s) && CloseInv(s) && PublishInv(s) && ThrottleInv(par, s) && HoldsMutex(s, t)
    requires !s.threads[t].pc.sec.Kick? && !s.threads[t].pc.sec.Ensure? && !s.threads[t].pc.sec.Finish?
    ensures ThrottleInv(par, BodyStep(par, s, t))
  {}

  // ---------------------------------------------------------------- all of it

  ghost predicate Inv<Q, K, R>(par: Params<Q, K, R>, s: State<Q, K, R>) {
    && ControlInv(s) && PublishInv(s) && CloseInv(s) && SlotInv(s)
    && CacheInv(par, s) && AnswerInv(par, s) && ThrottleInv(par, s)
  }

  lemma InitInv<Q, K, R>(par: Params<Q, K, R>, now: int)
    ensures Inv(par, Init(par, now))
  {
    var s := Init(par, now);
    assert s.threads == [] && s.pools == [] && s.published == [] && s.softStarts == [] && s.cache.order == [];
    assert ControlInv(s);
    assert PublishInv(s) && CloseInv(s);
    assert SlotInv(s);
    assert Coherent(s.cache);
    assert CacheInv(par, s);
    assert AnswerInv(par, s);
    assert ThrottleInv(par, s);
  }

  lemma PublishStep<Q, K, R>(par: Params<Q, K, R>, s: State<Q, K, R>, a: Act<Q, R>)
    requires ControlInv(s) && PublishInv(s) && CloseInv(s) && Enabled(s, a)
    ensures PublishInv(Apply(par, s, a)) && CloseInv(Apply(par, s, a))
  {
    if a.Body? {
      var sec := s.threads[a.t].pc.sec;
      if QuietBody(s, a.t) { PublishQuiet(par, s, a.t); }
      else if sec.SwapCheck? || sec.SwapGen? { PublishWindow(par, s, a.t); }
      else if sec.SwapStore? { PublishStore(par, s, a.t); }
      else if sec.SwapStamp? { PublishStamp(par, s, a.t); }
      else { PublishClose(par, s, a.t); }
    }
    else if IsLocal(a) { PublishLocal(par, s, Apply(par, s, a), a); }
    else { PublishEnv(par, s, a); }
  }

  lemma ThrottleStep<Q, K, R>(par: Params<Q, K, R>, s: State<Q, K, R>, a: Act<Q, R>)
    requires ControlInv(s) && CloseInv(s) && PublishInv(s) && ThrottleInv(par, s) && Enabled(s, a)
    ensures ThrottleInv(par, Apply(par, s, a))
  {
    if a.Acquire? || a.StartReload? || a.FetchFails? || a.FetchSucceeds? { ThrottleLoading(par, s, a); }
    else if !a.Body? { ThrottleCalling(par, s, a); }
    else if s.threads[a.t].pc.sec.Kick? || s.threads[a.t].pc.sec.Ensure? { ThrottleStart(par, s, a.t); }
    else { ThrottleBody(par, s, a.t); }
  }

  /** Every step of every thread keeps the invariant. */
  lemma StepKeepsInv<Q, K, R>(par: Params<Q, K, R>, s: State<Q, K, R>, a: Act<Q, R>)
    requires Inv(par, s) && Enabled(s, a)
    ensures Inv(par, Apply(par, s, a))
  {
    ControlStep(par, s, a);
    PublishStep(par, s, a);
    SlotStep(par, s, a);
    CacheStep(par, s, a);
    AnswerStep(par, s, a);
    ThrottleStep(par, s, a);
  }

  /** The invariant holds at every point of every run. */
  lemma {:induction false} RunInv<Q, K, R>(par: Params<Q, K, R>, ss: seq<State<Q, K, R>>, acts: seq<Act<Q, R>>, i: nat)
    requires Run(par, ss, acts) && i < |ss|
    ensures Inv(par, ss[i])
  {
    if i == 0 {
      InitInv(par, ss[0].now);
    } else {
      RunInv(par, ss, acts, i - 1);
      assert Linked(par, ss, acts, i - 1);
      StepKeepsInv(par, ss[i - 1], acts[i - 1]);
    }
  }
}
