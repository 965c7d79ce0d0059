/** Admitting requests: allocation, eviction of one victim, retry, and refusal. */
module EngineAdmission {
  import opened Prelude
  import opened Sampling
  import opened Decoding
  import opened EngineModel
  import opened EngineInvariant
  import CM = CacheModel
  import CI = CacheInvariant
  import CS = CacheSafety
  import SM = SchedulerModel
  import SH = SchedulerHistory

  /** A request that was just taken from the queue and is not in the batch. */
  ghost predicate Ready(e: Engine, p: Params) {
    Knows(e.scheduler, p.id) && SM.Filed(e.scheduler, p.id).params == p && p.id !in ActiveIds(e.active)
  }

  function Blocks(b: Backend, e: Engine, p: Params): nat {
    CM.TokensToBlocks(|Encode(b, p.prompt)|, e.cache.blockSize)
  }

  /** A prompt gets its blocks when they are free, or free once the least recently used sequence is evicted. */
  ghost predicate FitsNow(b: Backend, e: Engine, p: Params) {
    Blocks(b, e, p) <= |e.cache.free|
  }

  ghost predicate FitsAfterEviction(b: Backend, e: Engine, p: Params)
  {
    e.cache.order != [] && e.cache.order[0] in e.cache.tables
    && Blocks(b, e, p) <= |e.cache.free| + |e.cache.tables[e.cache.order[0]]|
  }

  lemma {:induction false} StartProgresses(b: Backend, p: Params)
    ensures InProgress(b, Start(p, Encode(b, p.prompt)))
  {
    hide SoloFrom, Encode, Greedy;
    assert [] + Solo(b, p) == Solo(b, p);
    assert Encode(b, p.prompt) + [] == Encode(b, p.prompt);
  }

  lemma {:induction false} JoinCoupled(b: Backend, e: Engine, p: Params, c: CM.Cache)
    requires Coupled(b, e) && p.id !in ActiveIds(e.active)
    requires CM.Wf(c) && CI.Inv(c) && CS.OthersKept(e.cache, c, p.id) && c.order == e.cache.order + [p.id]
    requires p.id in c.tables && |c.tables[p.id]| == CM.TokensToBlocks(|Encode(b, p.prompt)|, c.blockSize)
    requires CS.Tokens(c, p.id) == |Encode(b, p.prompt)|
    ensures Coupled(b, Join(e, p, Encode(b, p.prompt), c))
  {
    hide CI.Inv, CM.TokensToBlocks, Encode, CM.Wf, CS.Tokens;
    var start := Start(p, Encode(b, p.prompt));
    ActiveIdsSnoc(e.active, start);
    forall s | s in e.active + [start]
      ensures s.Id() in c.tables && |c.tables[s.Id()]| == CM.TokensToBlocks(|Encode(b, s.params.prompt)|, c.blockSize)
      ensures CS.Tokens(c, s.Id()) == |Encode(b, s.params.prompt)|
    {
      if s in e.active {
        IdIsActive(e.active, s.Id());
        assert s.Id() != p.id;
      }
    }
  }

  lemma {:induction false} JoinOnFile(e: Engine, p: Params, ids: seq<Token>, c: CM.Cache)
    requires OnFile(e) && Ready(e, p)
    ensures OnFile(Join(e, p, ids, c))
  {
  }

  lemma {:induction false} CoreParts(b: Backend, e: Engine)
    requires Core(b, e)
    ensures CM.Wf(e.cache) && CI.Inv(e.cache) && SH.Inv(e.scheduler) && NoDup(ActiveIds(e.active))
    ensures forall id :: id in e.cache.tables <==> id in ActiveIds(e.active)
    ensures e.cache.order == ActiveIds(e.active)
    ensures forall s | s in e.active :: Knows(e.scheduler, s.Id())
  {
  }

  lemma {:induction false} JoinKeeps(b: Backend, e: Engine, p: Params)
    requires Core(b, e) && Ready(e, p) && FitsNow(b, e, p)
    ensures var ids := Encode(b, p.prompt);
      var r := CM.Allocate(e.cache, p.id, |ids|);
      && r.Allocated?
      && Core(b, Join(e, p, ids, r.cache))
      && |r.cache.free| == |e.cache.free| - Blocks(b, e, p)
      && r.cache.blockSize == e.cache.blockSize && |r.cache.blocks| == |e.cache.blocks|
      && r.cache.totalEvicted == e.cache.totalEvicted
  {
    hide CI.Inv, CM.TokensToBlocks, CM.Allocate, SH.Inv, Outputs, InProgress, Encode, OnFile, Coupled, Named;
    var ids := Encode(b, p.prompt);
    CoreParts(b, e);
    CS.AllocateSafe(e.cache, p.id, |ids|);
    StartProgresses(b, p);
    var c := CM.Allocate(e.cache, p.id, |ids|).cache;
    JoinCoupled(b, e, p, c);
    JoinOnFile(e, p, ids, c);
  }

  lemma {:induction false} CoupledAfterEvict(b: Backend, e: Engine, e': Engine)
    requires Core(b, e) && e.active != [] && CM.Wf(e'.cache)
    requires CI.Inv(e'.cache) && CS.OthersKept(e.cache, e'.cache, e.active[0].Id())
    requires e'.cache.order == e.cache.order[1..] && e'.active == e.active[1..]
    requires forall s | s in e'.active :: s in e.active && s.Id() != e.active[0].Id()
    requires ActiveIds(e'.active) == e'.cache.order
    requires SameFiles(e.scheduler, e'.scheduler)
    ensures Coupled(b, e') && OnFile(e')
  {
    hide CI.Inv, CM.TokensToBlocks, SH.Inv, Outputs, InProgress;
  }

  /** Eviction takes the oldest sequence out of the batch, the cache and nothing else, and fails its request. */
  lemma {:induction false} EvictKeeps(b: Backend, e: Engine, now: real)
    requires Core(b, e)
    ensures var e' := Evict(e, now);
      && Core(b, e') && SameFiles(e.scheduler, e'.scheduler)
      && e' == e.(scheduler := e'.scheduler, cache := e'.cache, active := e'.active)
      && e'.cache.blockSize == e.cache.blockSize && |e'.cache.blocks| == |e.cache.blocks|
      && (e.active == [] ==> e' == e)
      && (e.active != [] ==>
            var victim := e.active[0].Id();
            && e'.active == e.active[1..] && victim in e.cache.tables
            && |e'.cache.free| == |e.cache.free| + |e.cache.tables[victim]|
            && StatusOf(e'.scheduler, victim) == SM.FAILED
            && e'.cache.totalEvicted == e.cache.totalEvicted + 1
            && (forall x | x != victim :: StatusOf(e'.scheduler, x) == StatusOf(e.scheduler, x)))
  {
    hide CI.Inv, CM.TokensToBlocks, SH.Inv, Outputs, InProgress, CM.EvictLru, SM.Fail, NoDup;
    CS.EvictSafe(e.cache);
    if e.active != [] {
      var victim := e.active[0].Id();
      var e' := Evict(e, now);
      assert e.cache.order[0] == victim;
      assert e.active[0] in e.active;
      assert victim.name != "" by { assert SM.Known(e.scheduler, victim); }
      MarkFailedEffect(b, e.scheduler, victim, EVICTED, now);
      SameFilesKnown(e.scheduler, e'.scheduler);
      CoupledDistinct(b, e);
      RemoveHead(e.active);
      CoupledAfterEvict(b, e, e');
    }
  }

  /** Eviction keeps the batch and the cache in step exactly when the victim's id is not empty: the code takes
      an empty id for no victim, so its blocks are freed while the sequence stays in the batch. */
  lemma {:induction false} EmptyIdEvicted(b: Backend, e: Engine, now: real)
    requires Coupled(b, e) && e.active != []
    ensures Coupled(b, Evict(e, now)) <==> e.active[0].Id().name != ""
  {
    hide CI.Inv, CM.TokensToBlocks, CM.EvictLru, Encode, MarkFailed, Remove;
    CS.EvictSafe(e.cache);
    CoupledDistinct(b, e);
    RemoveHead(e.active);
    var victim, e' := e.active[0].Id(), Evict(e, now);
    assert e.cache.order[0] == victim && |e'.cache.order| == |e.active| - 1;
    if victim.name == "" {
      assert e'.active == e.active;
    } else {
      assert victim in ActiveIds(e.active);
      assert e'.active == e.active[1..];
    }
  }

  lemma {:induction false} RefuseKeeps(b: Backend, e: Engine, p: Params, now: real)
    requires Core(b, e) && Ready(e, p)
    ensures var e' := Refuse(e, p, now);
      && Core(b, e') && SameFiles(e.scheduler, e'.scheduler) && e' == e.(scheduler := e'.scheduler)
      && StatusOf(e'.scheduler, p.id) == SM.FAILED
      && (forall x | x != p.id :: StatusOf(e'.scheduler, x) == StatusOf(e.scheduler, x))
  {
    hide CI.Inv, CM.TokensToBlocks, SH.Inv, Outputs, InProgress, SM.Fail;
    MarkFailedEffect(b, e.scheduler, p.id, NO_MEMORY, now);
    SameFilesKnown(e.scheduler, MarkFailed(e.scheduler, p.id, NO_MEMORY, now));
  }

  lemma {:induction false} PromptTokensKeep(b: Backend, e: Engine, p: Params)
    requires Core(b, e) && Ready(e, p)
    ensures var e' := e.(scheduler := SetPromptTokens(e.scheduler, p.id, |Encode(b, p.prompt)|));
      && Core(b, e') && Ready(e', p) && SameFiles(e.scheduler, e'.scheduler)
      && (forall x :: StatusOf(e'.scheduler, x) == StatusOf(e.scheduler, x))
  {
    hide CI.Inv, CM.TokensToBlocks, SH.Inv, Outputs, InProgress, SM.Amend;
    SetPromptTokensEffect(b, e.scheduler, p.id, |Encode(b, p.prompt)|);
    SameFilesKnown(e.scheduler, SetPromptTokens(e.scheduler, p.id, |Encode(b, p.prompt)|));
  }

  /** How the status of each filed request moves while p is being admitted: whoever leaves the batch or is
      refused is FAILED, everyone else keeps the status it had. */
  ghost predicate StatusMoves(e: Engine, e': Engine, p: Params) {
    forall x ::
      StatusOf(e'.scheduler, x) ==
        if (x == p.id || x in ActiveIds(e.active)) && x !in ActiveIds(e'.active) then SM.FAILED
        else StatusOf(e.scheduler, x)
  }

  ghost predicate SameShape(e: Engine, e': Engine) {
    e' == e.(scheduler := e'.scheduler, cache := e'.cache, active := e'.active)
    && e'.cache.blockSize == e.cache.blockSize && |e'.cache.blocks| == |e.cache.blocks|
    && SameFiles(e.scheduler, e'.scheduler)
  }

  /** Enough free blocks: p joins the batch and nothing else happens. */
  lemma {:induction false} AdmitFits(b: Backend, e: Engine, p: Params, now: real)
    requires Core(b, e) && Ready(e, p) && FitsNow(b, e, p)
    ensures var e' := AdmitOne(b, e, p, now);
      && Core(b, e') && SameShape(e, e') && StatusMoves(e, e', p)
      && e'.active == e.active + [Start(p, Encode(b, p.prompt))]
      && |e'.cache.free| == |e.cache.free| - Blocks(b, e, p)
      && e'.cache.totalEvicted == e.cache.totalEvicted
  {
    hide Core, CM.Allocate, CM.TokensToBlocks, Encode;
    var ids := Encode(b, p.prompt);
    assert CM.Wf(e.cache) by { CoreParts(b, e); }
    PromptTokensKeep(b, e, p);
    var e0 := e.(scheduler := SetPromptTokens(e.scheduler, p.id, |ids|));
    JoinKeeps(b, e0, p);
    ActiveIdsSnoc(e.active, Start(p, ids));
    var e' := AdmitOne(b, e, p, now);
    assert p.id in ActiveIds(e'.active);
    assert forall x | x in ActiveIds(e.active) :: x in ActiveIds(e'.active);
  }

  lemma {:induction false} AllocationOutcome(b: Backend, e: Engine, p: Params)
    requires CM.Wf(e.cache)
    ensures CM.Allocate(e.cache, p.id, |Encode(b, p.prompt)|).Allocated? <==> FitsNow(b, e, p)
  {
  }

  /** The three ways admission ends. */
  lemma {:induction false} AdmitOneCases(b: Backend, e: Engine, p: Params, now: real)
    requires CM.Wf(e.cache)
    ensures var ids, e' := Encode(b, p.prompt), AdmitOne(b, e, p, now);
      var e0 := e.(scheduler := SetPromptTokens(e.scheduler, p.id, |ids|));
      var e1 := Evict(e0, now);
      && (FitsNow(b, e, p) ==> e' == Join(e0, p, ids, CM.Allocate(e0.cache, p.id, |ids|).cache))
      && (!FitsNow(b, e, p) && FitsNow(b, e1, p) ==> e' == Join(e1, p, ids, CM.Allocate(e1.cache, p.id, |ids|).cache))
      && (!FitsNow(b, e, p) && !FitsNow(b, e1, p) ==> e' == Refuse(e1, p, now))
  {
    hide CM.Allocate, Encode, SetPromptTokens, Evict;
    var e0 := e.(scheduler := SetPromptTokens(e.scheduler, p.id, |Encode(b, p.prompt)|));
    AllocationOutcome(b, e0, p);
    AllocationOutcome(b, Evict(e0, now), p);
  }

  /** The victim, if there is one, and nobody else has failed. */
  ghost predicate OldestFailed(e: Engine, e': Engine) {
    && e'.active == (if e.active == [] then [] else e.active[1..])
    && forall x ::
         StatusOf(e'.scheduler, x) ==
           if x in ActiveIds(e.active) && x !in ActiveIds(e'.active) then SM.FAILED else StatusOf(e.scheduler, x)
  }

  lemma {:induction false} SameFit(b: Backend, e: Engine, s: SM.Scheduler, p: Params)
    ensures FitsNow(b, e.(scheduler := s), p) == FitsNow(b, e, p)
    ensures FitsAfterEviction(b, e.(scheduler := s), p) == FitsAfterEviction(b, e, p)
  {
  }

  /** After the eviction the retry fits exactly when the victim's blocks make up the difference. */
  lemma {:induction false} EvictedFits(b: Backend, e: Engine, e1: Engine, p: Params)
    requires Core(b, e) && Ready(e, p) && SameFiles(e.scheduler, e1.scheduler)
    requires e1.cache.blockSize == e.cache.blockSize && (e.active == [] ==> e1 == e)
    requires e.active != [] ==>
      (e1.active == e.active[1..] && e.active[0].Id() in e.cache.tables
       && |e1.cache.free| == |e.cache.free| + |e.cache.tables[e.active[0].Id()]|)
    ensures !FitsNow(b, e, p) ==> (FitsNow(b, e1, p) <==> FitsAfterEviction(b, e, p))
    ensures Ready(e1, p)
  {
    hide CM.TokensToBlocks, Encode;
    CoreParts(b, e);
    SameFilesKnown(e.scheduler, e1.scheduler);
    IdIsActive(e.active, p.id);
    IdIsActive(e1.active, p.id);
  }

  lemma {:induction false} HeadApart(ids: seq<Id>)
    requires NoDup(ids) && ids != []
    ensures forall x :: x in ids <==> x in ids[1..] || x == ids[0]
    ensures ids[0] !in ids[1..]
  {
    assert ids == [ids[0]] + ids[1..];
  }

  lemma {:induction false} TailIds(b: Backend, e: Engine)
    requires Core(b, e) && e.active != []
    ensures forall x :: x in ActiveIds(e.active) <==> x in ActiveIds(e.active[1..]) || x == e.active[0].Id()
    ensures e.active[0].Id() !in ActiveIds(e.active[1..])
  {
    hide Core, ActiveIds;
    CoreParts(b, e);
    RemoveHead(e.active);
    HeadApart(ActiveIds(e.active));
    assert e.active[0].Id() == ActiveIds(e.active)[0];
  }

  lemma {:induction false} OldestHasFailed(b: Backend, e: Engine, e0: Engine, now: real)
    requires Core(b, e0) && e0.active == e.active
    requires forall x :: StatusOf(e0.scheduler, x) == StatusOf(e.scheduler, x)
    ensures OldestFailed(e, Evict(e0, now))
  {
    hide Core, Evict, StatusOf, ActiveIds;
    EvictKeeps(b, e0, now);
    if e.active != [] {
      TailIds(b, e0);
    }
  }

  lemma {:induction false} EvictionMoves(b: Backend, e: Engine, p: Params, now: real)
    requires Core(b, e) && Ready(e, p) && !FitsNow(b, e, p)
    ensures var e1 := Evict(e.(scheduler := SetPromptTokens(e.scheduler, p.id, |Encode(b, p.prompt)|)), now);
      && Core(b, e1) && SameShape(e, e1) && Ready(e1, p) && OldestFailed(e, e1)
      && (FitsNow(b, e1, p) <==> FitsAfterEviction(b, e, p))
  {
    hide Core, CM.TokensToBlocks, Encode, SetPromptTokens, Evict, StatusOf, ActiveIds, FitsNow, FitsAfterEviction,
         Blocks, Ready, OldestFailed;
    assert CM.Wf(e.cache) by { CoreParts(b, e); }
    PromptTokensKeep(b, e, p);
    var e0 := e.(scheduler := SetPromptTokens(e.scheduler, p.id, |Encode(b, p.prompt)|));
    EvictKeeps(b, e0, now);
    EvictedFits(b, e0, Evict(e0, now), p);
    assert FitsAfterEviction(b, e0, p) == FitsAfterEviction(b, e, p) && FitsNow(b, e0, p) == FitsNow(b, e, p) by {
      SameFit(b, e, e0.scheduler, p);
    }
    OldestHasFailed(b, e, e0, now);
  }

  lemma {:induction false} RefusalMoves(e: Engine, e1: Engine, e': Engine, p: Params)
    requires OldestFailed(e, e1) && e'.active == e1.active
    requires p.id !in ActiveIds(e.active) && p.id !in ActiveIds(e1.active)
    requires StatusOf(e'.scheduler, p.id) == SM.FAILED
    requires forall x | x != p.id :: StatusOf(e'.scheduler, x) == StatusOf(e1.scheduler, x)
    ensures StatusMoves(e, e', p)
  {
    hide StatusOf;
  }

  lemma {:induction false} NotYetActive(e: Engine, p: Params)
    requires Ready(e, p)
    ensures p.id !in ActiveIds(e.active)
  {
  }

  /** Not enough blocks and nobody to evict, or still not enough afterwards: p is refused, the victim is gone. */
  lemma {:induction false} AdmitRefused(b: Backend, e: Engine, p: Params, now: real)
    requires Core(b, e) && Ready(e, p) && !FitsNow(b, e, p) && !FitsAfterEviction(b, e, p)
    ensures var e' := AdmitOne(b, e, p, now);
      && Core(b, e') && SameShape(e, e') && StatusMoves(e, e', p)
      && e'.active == (if e.active == [] then [] else e.active[1..])
  {
    hide Core, CM.TokensToBlocks, Encode, MarkFailed, SetPromptTokens, Evict, SM.Filed, StatusOf, AdmitOne, FitsNow,
         FitsAfterEviction, StatusMoves, ActiveIds, Ready;
    CoreParts(b, e);
    EvictionMoves(b, e, p, now);
    var e1 := Evict(e.(scheduler := SetPromptTokens(e.scheduler, p.id, |Encode(b, p.prompt)|)), now);
    RefuseKeeps(b, e1, p, now);
    AdmitOneCases(b, e, p, now);
    NotYetActive(e, p);
    NotYetActive(e1, p);
    RefusalMoves(e, e1, Refuse(e1, p, now), p);
  }

  /** Not enough blocks, but enough with the victim's: the victim leaves, p joins. */
  lemma {:induction false} AdmitAfterEviction(b: Backend, e: Engine, p: Params, now: real)
    requires Core(b, e) && Ready(e, p) && !FitsNow(b, e, p) && FitsAfterEviction(b, e, p)
    ensures var e' := AdmitOne(b, e, p, now);
      && Core(b, e') && SameShape(e, e') && StatusMoves(e, e', p)
      && e.active != [] && e'.active == e.active[1..] + [Start(p, Encode(b, p.prompt))]
  {
    hide Core, CM.Allocate, CM.TokensToBlocks, Encode, MarkFailed, SetPromptTokens, Evict, SM.Filed, StatusOf,
         AdmitOne, FitsNow, Ready;
    CoreParts(b, e);
    EvictionMoves(b, e, p, now);
    var e1 := Evict(e.(scheduler := SetPromptTokens(e.scheduler, p.id, |Encode(b, p.prompt)|)), now);
    JoinKeeps(b, e1, p);
    ActiveIdsSnoc(e1.active, Start(p, Encode(b, p.prompt)));
    AdmitOneCases(b, e, p, now);
    assert p.id !in ActiveIds(e.active) by { NotYetActive(e, p); }
  }

  /** One admission. The request joins the batch exactly when its blocks are free, or are free once the
      oldest sequence is evicted; the batch grows by one exactly when they were free at once. */
  lemma {:induction false} AdmissionOutcome(b: Backend, e: Engine, p: Params, now: real)
    requires CM.Wf(e.cache) && Core(b, e) && Ready(e, p)
    ensures var e' := AdmitOne(b, e, p, now);
      && Core(b, e') && SameShape(e, e') && StatusMoves(e, e', p)
      && (p.id in ActiveIds(e'.active) <==> FitsNow(b, e, p) || FitsAfterEviction(b, e, p))
      && |e'.active| <= |e.active| + 1
      && (|e'.active| == |e.active| + 1 <==> FitsNow(b, e, p))
      && (FitsNow(b, e, p) ==> e'.active == e.active + [Start(p, Encode(b, p.prompt))])
      && (FitsNow(b, e, p) ==> e'.cache.totalEvicted == e.cache.totalEvicted)
      && (forall s | s in e'.active :: s in e.active || s == Start(p, Encode(b, p.prompt)))
  {
    hide Core, AdmitOne, StatusMoves, SameShape, FitsNow, FitsAfterEviction, Encode;
    var start := Start(p, Encode(b, p.prompt));
    assert !(p.id in ActiveIds(e.active));
    if FitsNow(b, e, p) {
      AdmitFits(b, e, p, now);
      ActiveIdsSnoc(e.active, start);
    } else if FitsAfterEviction(b, e, p) {
      AdmitAfterEviction(b, e, p, now);
      ActiveIdsSnoc(e.active[1..], start);
    } else {
      AdmitRefused(b, e, p, now);
      var e' := AdmitOne(b, e, p, now);
      IdIsActive(e'.active, p.id);
      IdIsActive(e.active, p.id);
    }
  }

  ghost predicate ReadyAll(e: Engine, ps: seq<Params>) {
    && (forall i, j | 0 <= i < j < |ps| :: ps[i].id != ps[j].id)
    && (forall i | 0 <= i < |ps| :: Ready(e, ps[i]))
  }

  ghost function IdsOf(ps: seq<Params>): set<Id> { set i | 0 <= i < |ps| :: ps[i].id }

  ghost predicate StatusMovesAll(e: Engine, e': Engine, ids: set<Id>) {
    forall x ::
      StatusOf(e'.scheduler, x) ==
        if (x in ids || x in ActiveIds(e.active)) && x !in ActiveIds(e'.active) then SM.FAILED
        else StatusOf(e.scheduler, x)
  }

  ghost predicate FromBatch(b: Backend, active: seq<Sequence>, ps: seq<Params>, active': seq<Sequence>) {
    forall s | s in active' :: s in active || (s.params in ps && s == Start(s.params, Encode(b, s.params.prompt)))
  }

  lemma {:induction false} ComposeMoves(e: Engine, mid: Engine, e': Engine, ids: set<Id>, p: Params)
    requires StatusMovesAll(e, mid, ids) && StatusMoves(mid, e', p)
    requires p.id !in ids && p.id !in ActiveIds(e.active) && p.id !in ActiveIds(mid.active)
    requires forall x | x in ActiveIds(mid.active) :: x in ActiveIds(e.active) || x in ids
    requires forall x | x in ActiveIds(e'.active) :: x in ActiveIds(mid.active) || x == p.id
    ensures StatusMovesAll(e, e', ids + {p.id})
  {
  }

  lemma {:induction false} StillReady(b: Backend, e: Engine, mid: Engine, init: seq<Params>, p: Params)
    requires ReadyAll(e, init + [p]) && SameShape(e, mid) && FromBatch(b, e.active, init, mid.active)
    ensures Ready(mid, p) && p.id !in IdsOf(init)
  {
    hide Encode;
    assert (init + [p])[|init|] == p;
    assert forall i | 0 <= i < |init| :: (init + [p])[i] == init[i];
    SameFilesKnown(e.scheduler, mid.scheduler);
    IdIsActive(e.active, p.id);
    IdIsActive(mid.active, p.id);
  }

  lemma {:induction false} FromBatchIds(b: Backend, active: seq<Sequence>, ps: seq<Params>, active': seq<Sequence>)
    requires FromBatch(b, active, ps, active')
    ensures forall x | x in ActiveIds(active') :: x in ActiveIds(active) || x in IdsOf(ps)
  {
    hide Encode;
    forall x | x in ActiveIds(active') ensures x in ActiveIds(active) || x in IdsOf(ps) {
      IdIsActive(active', x);
      IdIsActive(active, x);
    }
  }

  lemma {:induction false} ComposeShapes(e: Engine, mid: Engine, e': Engine)
    requires SameShape(e, mid) && SameShape(mid, e')
    ensures SameShape(e, e')
  {
    SameFilesKnown(e.scheduler, mid.scheduler);
  }

  /** Admitting a whole batch of requests taken from the queue. */
  lemma {:induction false} AdmitAllKeeps(b: Backend, e: Engine, ps: seq<Params>, now: real)
    requires CM.Wf(e.cache) && Core(b, e) && ReadyAll(e, ps)
    ensures var e' := AdmitAll(b, e, ps, now);
      && Core(b, e') && SameShape(e, e') && StatusMovesAll(e, e', IdsOf(ps))
      && |e'.active| <= |e.active| + |ps|
      && FromBatch(b, e.active, ps, e'.active)
  {
    hide Core, AdmitOne, FitsNow, FitsAfterEviction, Encode;
    if ps == [] {
      assert forall x :: x in ActiveIds(e.active) ==> !(x !in ActiveIds(e.active));
    } else {
      var init, p := Init(ps), Last(ps);
      assert ps == init + [p];
      AdmitAllKeeps(b, e, init, now);
      var mid := AdmitAll(b, e, init, now);
      StillReady(b, e, mid, init, p);
      AdmissionOutcome(b, mid, p, now);
      var e' := AdmitAll(b, e, ps, now);
      assert IdsOf(ps) == IdsOf(init) + {p.id};
      FromBatchIds(b, e.active, init, mid.active);
      FromBatchIds(b, mid.active, [p], e'.active);
      ComposeMoves(e, mid, e', IdsOf(init), p);
      ComposeShapes(e, mid, e');
    }
  }
}
