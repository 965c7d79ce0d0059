/** The promises of the engine, over every history of submissions, iterations and cancellations. */
module EngineTheorems {
  import opened Prelude
  import opened Decoding
  import opened EngineModel
  import opened EngineInvariant
  import opened EngineSteps
  import CM = CacheModel
  import CI = CacheInvariant
  import CS = CacheSafety
  import CH = CacheHistory
  import SM = SchedulerModel
  import SH = SchedulerHistory
  import ST = SchedulerTheorems

  lemma {:induction false} NewCacheShape(numBlocks: nat, blockSize: Pos)
    ensures var c := CM.NewCache(numBlocks, blockSize);
      c.order == [] && c.tables == map[] && c.blockSize == blockSize && |c.blocks| == numBlocks && c.totalEvicted == 0
  {
  }

  lemma {:induction false} FreshEngineInv(b: Backend, maxBatchSize: int, maxQueueSize: int, defaultTimeout: real,
                                          policy: string, numBlocks: nat, blockSize: Pos)
    ensures Inv(b, FreshEngine(maxBatchSize, maxQueueSize, defaultTimeout, policy, numBlocks, blockSize))
  {
    hide CI.Inv, SH.Inv, CM.NewCache;
    CH.NewCacheInv(numBlocks, blockSize);
    ST.NewKeeps(maxQueueSize, defaultTimeout, policy);
    NewCacheShape(numBlocks, blockSize);
  }

  lemma {:induction false} SubmitStep(b: Backend, e: Engine, r: SM.Request)
    requires CM.Wf(e.cache) && Inv(b, e) && FreshOp(e, SubmitOp(r))
    ensures Inv(b, e.(scheduler := SM.Submit(e.scheduler, r).0))
  {
    hide SH.Inv, CI.Inv, InProgress;
    SH.SubmitKeeps(e.scheduler, r);
    var s' := SM.Submit(e.scheduler, r).0;
    forall id | SM.Known(s', id) ensures id.name != "" {
      assert SM.Known(e.scheduler, id) || id == r.Id();
    }
  }

  lemma {:induction false} CancelOutputs(b: Backend, s: SM.Scheduler, id: Id, now: real)
    requires SH.Inv(s) && Outputs(b, s)
    ensures var s' := SM.Cancel(s, id, now).0;
      && Outputs(b, s')
      && (forall x | Knows(s, x) :: Knows(s', x) && SM.Filed(s', x).params == SM.Filed(s, x).params)
  {
    hide SH.Counted, SH.Staged, SM.Drop;
  }

  lemma {:induction false} CancelStep(b: Backend, e: Engine, id: Id, now: real)
    requires CM.Wf(e.cache) && Inv(b, e)
    ensures Inv(b, e.(scheduler := SM.Cancel(e.scheduler, id, now).0))
  {
    hide SH.Inv, CI.Inv, InProgress, SM.Cancel, SM.Known, Outputs;
    SH.CancelKeeps(e.scheduler, id, now);
    CancelOutputs(b, e.scheduler, id, now);
  }

  /** Every operation keeps the invariant, and what it returns is finished and, if greedy, decoded as if alone. */
  lemma {:induction false} ApplyKeeps(b: Backend, e: Engine, op: EngineOp)
    requires CM.Wf(e.cache) && Causal(b) && Tokenizes(b) && Inv(b, e) && FreshOp(e, op)
    ensures var (e', done) := Apply(b, e, op);
      && Inv(b, e') && (forall s | s in done :: s.finished && Decoded(b, s))
      && e'.maxBatchSize == e.maxBatchSize
      && e'.cache.blockSize == e.cache.blockSize && |e'.cache.blocks| == |e.cache.blocks|
  {
    hide Inv, Decoded, Step, SM.Known;
    match op
    case SubmitOp(r) => SubmitStep(b, e, r);
    case StepOp(now) => StepShape(b, e, now);
    case CancelOp(id, now) => CancelStep(b, e, id, now);
  }

  lemma {:induction false} RunKeeps(b: Backend, e: Engine, ops: seq<EngineOp>)
    requires CM.Wf(e.cache) && Causal(b) && Tokenizes(b) && Inv(b, e) && FreshRun(b, e, ops)
    ensures var (e', returned) := Run(b, e, ops);
      && Inv(b, e') && (forall s | s in returned :: s.finished && Decoded(b, s))
      && e'.maxBatchSize == e.maxBatchSize
      && e'.cache.blockSize == e.cache.blockSize && |e'.cache.blocks| == |e.cache.blocks|
  {
    hide Inv, Decoded, Apply, FreshOp;
    if ops != [] {
      RunKeeps(b, e, Init(ops));
      ApplyKeeps(b, Run(b, e, Init(ops)).0, Last(ops));
    }
  }

  // ----- batching is transparent -----

  /** Whatever joins, finishes, is cancelled or is evicted around it, and whatever the padding: a greedy
      sequence in the batch has generated a proper prefix of what it would generate alone, a finished one
      exactly that, and a completed request carries its text. */
  lemma {:induction false} BatchingIsTransparent(b: Backend, maxBatchSize: int, maxQueueSize: int,
                                                 defaultTimeout: real, policy: string,
                                                 numBlocks: nat, blockSize: Pos, ops: seq<EngineOp>)
    requires Causal(b) && Tokenizes(b)
    requires FreshRun(b, FreshEngine(maxBatchSize, maxQueueSize, defaultTimeout, policy, numBlocks, blockSize), ops)
    ensures var (e, returned) := Run(b,
      FreshEngine(maxBatchSize, maxQueueSize, defaultTimeout, policy, numBlocks, blockSize), ops);
      && (forall s | s in e.active && Greedy(s.params) :: s.generated < Solo(b, s.params))
      && (forall s | s in returned && Greedy(s.params) :: s.generated == Solo(b, s.params))
      && (forall id | id in e.scheduler.completed ::
            var r := e.scheduler.completed[id];
            r.status == SM.COMPLETED && Greedy(r.params) ==>
              r.outputText == b.decode(Solo(b, r.params), true) && r.generatedTokens == |Solo(b, r.params)|)
  {
    hide FreshRun, Coupled, SH.Inv, OnFile, Run;
    var start := FreshEngine(maxBatchSize, maxQueueSize, defaultTimeout, policy, numBlocks, blockSize);
    FreshEngineInv(b, maxBatchSize, maxQueueSize, defaultTimeout, policy, numBlocks, blockSize);
    RunKeeps(b, start, ops);
    var (e, returned) := Run(b, start, ops);
    forall s | s in e.active && Greedy(s.params) ensures s.generated < Solo(b, s.params) {
      SoloIsCut(b, s.params, s.inputIds, Budget(s.params) - |s.generated|);
    }
  }

  /** Over every history, for every request, sampled or greedy: each token of each sequence is a sample of the
      row that holds the prompt, cut at 1024 tokens, and the tokens before it, under the parameters of that
      request alone. A sequence in the batch has met neither EOS nor its limit; a returned one has just met one
      of them, gives it as its reason, and a completed request carries the text of such an output. */
  lemma {:induction false} EveryTokenIsSampled(b: Backend, maxBatchSize: int, maxQueueSize: int,
                                               defaultTimeout: real, policy: string,
                                               numBlocks: nat, blockSize: Pos, ops: seq<EngineOp>)
    requires Causal(b) && Tokenizes(b)
    requires FreshRun(b, FreshEngine(maxBatchSize, maxQueueSize, defaultTimeout, policy, numBlocks, blockSize), ops)
    ensures var (e, returned) := Run(b,
      FreshEngine(maxBatchSize, maxQueueSize, defaultTimeout, policy, numBlocks, blockSize), ops);
      && (forall s | s in e.active ::
            var ids := Truncated(b.encode(s.params.prompt));
            && s.inputIds == ids + s.generated && SampledFrom(b, s.params, ids, s.generated)
            && Open(b, s.params, s.generated))
      && (forall s | s in returned ::
            && SampledFrom(b, s.params, Truncated(b.encode(s.params.prompt)), s.generated)
            && Closed(b, s.params, s.generated)
            && s.reason == if b.eos == Some(Last(s.generated)) then "eos" else "length")
      && (forall id | id in e.scheduler.completed && e.scheduler.completed[id].status == SM.COMPLETED ::
            var r := e.scheduler.completed[id];
            exists out :: SampledFrom(b, r.params, Truncated(b.encode(r.params.prompt)), out)
                          && Closed(b, r.params, out)
                          && r.outputText == b.decode(out, true) && r.generatedTokens == |out|)
  {
    hide FreshRun, Coupled, SH.Inv, OnFile, Run, SampledFrom, Closed, Open, Solo, Encode, Truncated;
    var start := FreshEngine(maxBatchSize, maxQueueSize, defaultTimeout, policy, numBlocks, blockSize);
    FreshEngineInv(b, maxBatchSize, maxQueueSize, defaultTimeout, policy, numBlocks, blockSize);
    RunKeeps(b, start, ops);
    forall prompt ensures Encode(b, prompt) == Truncated(b.encode(prompt)) {
      EncodedIsTruncated(b, prompt);
    }
  }

  // ----- no block is leaked -----

  /** In every reachable state the batch, the block tables and the LRU order hold the same sequences in the
      same order, each table covers exactly its prompt, and an empty batch leaves the whole pool free. */
  lemma {:induction false} NoBlockIsLeaked(b: Backend, maxBatchSize: int, maxQueueSize: int, defaultTimeout: real,
                                           policy: string, numBlocks: nat, blockSize: Pos, ops: seq<EngineOp>)
    requires Causal(b) && Tokenizes(b)
    requires FreshRun(b, FreshEngine(maxBatchSize, maxQueueSize, defaultTimeout, policy, numBlocks, blockSize), ops)
    ensures var e := Run(b, FreshEngine(maxBatchSize, maxQueueSize, defaultTimeout, policy, numBlocks, blockSize),
      ops).0;
      && e.cache.order == ActiveIds(e.active) && NoDup(e.cache.order)
      && (forall id :: id in e.cache.tables <==> id in ActiveIds(e.active))
      && (forall s | s in e.active ::
            var n := Min(|b.encode(s.params.prompt)|, 1024);
            |e.cache.tables[s.Id()]| == (n + blockSize - 1) / blockSize && CS.Tokens(e.cache, s.Id()) == n)
      && |e.active| <= Max(maxBatchSize, 0)
      && (e.active == [] ==> |e.cache.free| == numBlocks && e.cache.tables == map[])
  {
    hide FreshRun, SH.Inv, OnFile, Run, Outputs, InProgress, CM.TokensToBlocks, CI.Universe, CI.Held, CI.TableOk,
         Encode;
    var start := FreshEngine(maxBatchSize, maxQueueSize, defaultTimeout, policy, numBlocks, blockSize);
    FreshEngineInv(b, maxBatchSize, maxQueueSize, defaultTimeout, policy, numBlocks, blockSize);
    RunKeeps(b, start, ops);
    var e := Run(b, start, ops).0;
    CoupledDistinct(b, e);
    CI.BlockCount(e.cache);
    forall s | s in e.active
      ensures s.Id() in e.cache.tables
      ensures var n := Min(|b.encode(s.params.prompt)|, 1024);
        |e.cache.tables[s.Id()]| == (n + blockSize - 1) / blockSize && CS.Tokens(e.cache, s.Id()) == n
    {
      CI.TokensToBlocksFormula(|Encode(b, s.params.prompt)|, blockSize);
      EncodeIsTruncation(b, s.params.prompt);
    }
  }
}
