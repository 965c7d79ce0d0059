/** A pool with room for a full batch of longest prompts never evicts and never refuses. */
module EngineSizing {
  import opened Prelude
  import opened Decoding
  import opened EngineModel
  import opened EngineInvariant
  import opened EngineAdmission
  import opened EngineSteps
  import opened EngineTheorems
  import opened EngineBounds
  import CM = CacheModel
  import CI = CacheInvariant
  import CG = CacheGrowth
  import SM = SchedulerModel
  import SH = SchedulerHistory
  import SB = SchedulerBatches

  function PromptBlocks(blockSize: Pos): nat { CM.TokensToBlocks(MAX_PROMPT, blockSize) }

  ghost predicate Sized(e: Engine) {
    |e.cache.blocks| >= e.maxBatchSize * PromptBlocks(e.cache.blockSize)
  }

  lemma {:induction false} MoreTokens(n: nat, m: nat, blockSize: Pos)
    requires n <= m
    ensures CM.TokensToBlocks(n, blockSize) <= CM.TokensToBlocks(m, blockSize)
  {
    CG.MoreTokensMoreBlocks(n, m - n, blockSize);
  }

  lemma {:induction false} Product(n: nat, k: nat)
    ensures (n + 1) * k == n * k + k
  {
  }

  lemma {:induction false} HeldAtMost(tables: map<Id, seq<nat>>, order: seq<Id>, k: nat)
    requires forall id | id in order :: id in tables && |tables[id]| <= k
    ensures |CI.Held(tables, order)| <= |order| * k
  {
    if order != [] {
      var init, id := Init(order), Last(order);
      assert order == init + [id];
      HeldAtMost(tables, init, k);
      Product(|init|, k);
    }
  }

  lemma {:induction false} Slots(used: nat, all: int, k: nat)
    requires used < all
    ensures all * k >= used * k + k
  {
    assert (used + 1) * k == used * k + k;
    assert all * k >= (used + 1) * k;
  }

  /** With a free slot in the batch there is room for any prompt. */
  lemma {:induction false} RoomForPrompt(b: Backend, e: Engine, p: Params)
    requires CM.Wf(e.cache) && Core(b, e) && Sized(e) && |e.active| < e.maxBatchSize
    ensures FitsNow(b, e, p)
  {
    hide CI.Held, CI.Universe, CM.TokensToBlocks, SH.Inv, Outputs, OnFile, InProgress, Encode, NoDup;
    var k := PromptBlocks(e.cache.blockSize);
    forall id | id in e.cache.order ensures id in e.cache.tables && |e.cache.tables[id]| <= k {
      IdIsActive(e.active, id);
      var s :| s in e.active && s.Id() == id;
      MoreTokens(|Encode(b, s.params.prompt)|, MAX_PROMPT, e.cache.blockSize);
    }
    HeldAtMost(e.cache.tables, e.cache.order, k);
    CI.BlockCount(e.cache);
    Slots(|e.active|, e.maxBatchSize, k);
    MoreTokens(|Encode(b, p.prompt)|, MAX_PROMPT, e.cache.blockSize);
  }

  lemma {:induction false} SizedAdmitAll(b: Backend, e: Engine, ps: seq<Params>, now: real)
    requires CM.Wf(e.cache) && Core(b, e) && ReadyAll(e, ps) && Sized(e) && |e.active| + |ps| <= e.maxBatchSize
    ensures |AdmitAll(b, e, ps, now).active| == |e.active| + |ps|
  {
    hide Core, AdmitOne, Encode, FitsNow, FitsAfterEviction, PromptBlocks;
    if ps != [] {
      var init, p := Init(ps), Last(ps);
      assert ps == init + [p];
      SizedAdmitAll(b, e, init, now);
      AdmitAllKeeps(b, e, init, now);
      var mid := AdmitAll(b, e, init, now);
      StillReady(b, e, mid, init, p);
      RoomForPrompt(b, mid, p);
      AdmissionOutcome(b, mid, p, now);
    }
  }

  lemma {:induction false} SizedAdmits(b: Backend, e: Engine, now: real)
    requires CM.Wf(e.cache) && Inv(b, e) && Sized(e)
    ensures AdmitsEveryone(b, e, now)
  {
    hide Core, AdmitAll, SM.GetNextBatch, PromptBlocks;
    var slots := e.maxBatchSize - |e.active|;
    if slots > 0 {
      var (s', batch) := SM.GetNextBatch(e.scheduler, now, slots);
      TakenKeeps(b, e, now, slots);
      SizedAdmitAll(b, e.(scheduler := s'), ParamsOf(batch), now);
    }
  }

  // ----- nothing fails -----

  ghost predicate NoneFailed(s: SM.Scheduler) {
    && (forall id | id in s.running :: s.running[id].status != SM.FAILED)
    && (forall id | id in s.completed :: s.completed[id].status != SM.FAILED)
  }

  lemma {:induction false} NoneFailedByStatus(b: Backend, e: Engine)
    requires Core(b, e)
    ensures NoneFailed(e.scheduler) <==> forall id | Knows(e.scheduler, id) :: StatusOf(e.scheduler, id) != SM.FAILED
  {
    var s := e.scheduler;
    assert forall id | id in s.running :: Knows(s, id) && StatusOf(s, id) == s.running[id].status;
    assert forall id | id in s.completed :: Knows(s, id) && StatusOf(s, id) == s.completed[id].status;
  }

  lemma {:induction false} StartIds(b: Backend, active: seq<Sequence>, ps: seq<Params>)
    ensures forall x | x in ActiveIds(active) || x in IdsOf(ps) :: x in ActiveIds(active + Starts(b, ps))
  {
    var all := active + Starts(b, ps);
    forall x | x in IdsOf(ps) ensures x in ActiveIds(all) {
      var i :| 0 <= i < |ps| && ps[i].id == x;
      assert ActiveIds(all)[|active| + i] == x;
    }
    assert ActiveIds(all)[..|active|] == ActiveIds(active);
  }

  lemma {:induction false} TakenFailsNone(s: SM.Scheduler, s': SM.Scheduler, batch: seq<SM.Request>)
    requires NoneFailed(s) && SB.FreshBatch(s, s', batch) && SB.CompletedGrows(s, s')
    ensures NoneFailed(s')
  {
    hide NoDup;
    forall id | id in s'.running ensures s'.running[id].status != SM.FAILED {
      if id !in s.running {
        SH.IdIn(batch, id);
      }
    }
  }

  lemma {:induction false} SizedAdmitFailsNone(b: Backend, e: Engine, now: real)
    requires CM.Wf(e.cache) && Inv(b, e) && Sized(e) && NoneFailed(e.scheduler)
    ensures var a := Admit(b, e, now); NoneFailed(a.scheduler) && a.cache.totalEvicted == e.cache.totalEvicted
  {
    hide Core, AdmitAll, SM.GetNextBatch, PromptBlocks, Encode, NoDup;
    var slots := e.maxBatchSize - |e.active|;
    if slots > 0 {
      var (s', batch) := SM.GetNextBatch(e.scheduler, now, slots);
      var taken, ps := e.(scheduler := s'), ParamsOf(batch);
      TakenKeeps(b, e, now, slots);
      TakenFailsNone(e.scheduler, s', batch);
      SizedAdmitAll(b, taken, ps, now);
      AllAdmitted(b, taken, ps, now);
      AdmitAllKeeps(b, taken, ps, now);
      StartIds(b, e.active, ps);
      var a := Admit(b, e, now);
      SameFilesKnown(s', a.scheduler);
      NoneFailedByStatus(b, taken);
      NoneFailedByStatus(b, a);
    }
  }

  lemma {:induction false} RetireFailsNone(b: Backend, e: Engine, done: seq<Sequence>, now: real)
    requires CM.Wf(e.cache) && NoneFailed(e.scheduler)
    ensures NoneFailed(RetireAll(b, e, done, now).scheduler)
  {
    if done != [] {
      RetireFailsNone(b, e, Init(done), now);
    }
  }

  lemma {:induction false} SizedStep(b: Backend, e: Engine, op: EngineOp)
    requires CM.Wf(e.cache) && Causal(b) && Tokenizes(b) && Inv(b, e) && FreshOp(e, op) && Sized(e)
    requires NoneFailed(e.scheduler)
    ensures var e' := Apply(b, e, op).0;
      NoneFailed(e'.scheduler) && e'.cache.totalEvicted == e.cache.totalEvicted && Sized(e')
  {
    hide Inv, PromptBlocks, Admit, RetireAll, SM.Known, SM.Drop;
    ApplyKeeps(b, e, op);
    match op
    case SubmitOp(r) =>
    case StepOp(now) =>
      SizedAdmitFailsNone(b, e, now);
      StepShape(b, e, now);
      var a := Admit(b, e, now);
      var d := Decode(b, a);
      DecodeFrame(b, a);
      RetireFailsNone(b, d, Finished(d.active), now);
    case CancelOp(id, now) =>
  }

  lemma {:induction false} SizedRun(b: Backend, e: Engine, ops: seq<EngineOp>)
    requires CM.Wf(e.cache) && Causal(b) && Tokenizes(b) && Inv(b, e) && FreshRun(b, e, ops) && Sized(e)
    requires NoneFailed(e.scheduler)
    ensures var e' := Run(b, e, ops).0;
      NoneFailed(e'.scheduler) && e'.cache.totalEvicted == e.cache.totalEvicted && Sized(e')
  {
    hide Inv, Sized, NoneFailed, Apply, FreshOp;
    if ops != [] {
      SizedRun(b, e, Init(ops));
      RunKeeps(b, e, Init(ops));
      SizedStep(b, Run(b, e, Init(ops)).0, Last(ops));
    }
  }

  /** A pool of maxBatchSize * ceil(1024 / blockSize) blocks is enough: no history ever evicts a sequence
      or fails a request. */
  lemma {:induction false} StaticSizing(b: Backend, maxBatchSize: nat, maxQueueSize: int, defaultTimeout: real,
                                        policy: string, numBlocks: nat, blockSize: Pos, ops: seq<EngineOp>)
    requires Causal(b) && Tokenizes(b)
    requires numBlocks >= maxBatchSize * ((1024 + blockSize - 1) / blockSize)
    requires FreshRun(b, FreshEngine(maxBatchSize, maxQueueSize, defaultTimeout, policy, numBlocks, blockSize), ops)
    ensures var e := Run(b, FreshEngine(maxBatchSize, maxQueueSize, defaultTimeout, policy, numBlocks, blockSize),
      ops).0;
      && e.cache.totalEvicted == 0
      && (forall id | id in e.scheduler.running :: e.scheduler.running[id].status != SM.FAILED)
      && (forall id | id in e.scheduler.completed :: e.scheduler.completed[id].status != SM.FAILED)
  {
    hide FreshRun, Inv, Run, CM.TokensToBlocks;
    var start := FreshEngine(maxBatchSize, maxQueueSize, defaultTimeout, policy, numBlocks, blockSize);
    FreshEngineInv(b, maxBatchSize, maxQueueSize, defaultTimeout, policy, numBlocks, blockSize);
    CI.TokensToBlocksFormula(MAX_PROMPT, blockSize);
    SizedRun(b, start, ops);
    RunKeeps(b, start, ops);
  }

  lemma {:induction false} SizedDrainAdmits(b: Backend, e: Engine, clock: nat -> real, i: nat, left: nat)
    requires CM.Wf(e.cache) && Causal(b) && Tokenizes(b) && Inv(b, e) && Sized(e)
    ensures DrainAdmits(b, e, clock, i, left)
    decreases left
  {
    hide Inv, Step, AdmitsEveryone, PromptBlocks;
    if left > 0 {
      SizedAdmits(b, e, clock(i));
      StepShape(b, e, clock(i));
      var e' := Step(b, e, clock(i)).0;
      if !Idle(e') {
        SizedDrainAdmits(b, e', clock, i + 1, left - 1);
      }
    }
  }

  /** In such a pool the list-scheduling bound needs no condition on memory. */
  lemma {:induction false} SizedDrainBound(b: Backend, e: Engine, clock: nat -> real)
    requires CM.Wf(e.cache) && Causal(b) && Tokenizes(b) && Inv(b, e) && e.maxBatchSize >= 1 && e.active == []
    requires Sized(e)
    ensures var (last, returned) := RunUntilEmpty(b, e, clock);
      e.maxBatchSize * (last.totalIterations - e.totalIterations)
        <= (last.totalTokens - e.totalTokens) + (e.maxBatchSize - 1) * Longest(last.active + returned)
  {
    hide Inv, Sized, Drain, DrainAdmits, Longest;
    SizedDrainAdmits(b, e, clock, 0, MAX_ITERATIONS);
    ListSchedulingBound(b, e, clock);
  }
}
