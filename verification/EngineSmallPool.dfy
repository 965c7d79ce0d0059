/** A pool smaller than a full batch of longest prompts needs can fail: the sizing bound is necessary. */
module EngineSmallPool {
  import opened Prelude
  import opened Decoding
  import opened EngineModel
  import opened EngineInvariant
  import opened EngineAdmission
  import opened EngineSteps
  import opened EngineTheorems
  import opened EngineSizing
  import CM = CacheModel
  import CI = CacheInvariant
  import SM = SchedulerModel
  import SE = SchedulerEffects
  import SH = SchedulerHistory
  import ER = EngineRecords

  function Submits(rs: seq<SM.Request>): (ops: seq<EngineOp>)
    ensures |ops| == |rs|
  {
    seq(|rs|, i requires 0 <= i < |rs| => SubmitOp(rs[i]))
  }

  function QueuedAll(s: SM.Scheduler, rs: seq<SM.Request>): (qs: seq<SM.Request>)
    ensures |qs| == |rs| && forall i | 0 <= i < |rs| :: qs[i] == SM.Queued(s, rs[i])
  {
    seq(|rs|, i requires 0 <= i < |rs| => SM.Queued(s, rs[i]))
  }

  /** Distinct new requests with names, in their initial status, that a queue of this size takes all. */
  ghost predicate Submittable(rs: seq<SM.Request>, maxQueueSize: int) {
    && |rs| <= maxQueueSize && NoDup(SM.Ids(rs))
    && forall r | r in rs :: r.Id().name != "" && r.status == SM.PENDING
  }

  lemma {:induction false} SubmittableInit(rs: seq<SM.Request>, maxQueueSize: int)
    requires Submittable(rs, maxQueueSize) && rs != []
    ensures Submittable(Init(rs), maxQueueSize) && Last(rs).Id() !in SM.Ids(Init(rs))
  {
    SE.IdsSnoc(rs);
    assert rs == Init(rs) + [Last(rs)];
  }

  lemma {:induction false} LastSubmittable(rs: seq<SM.Request>, maxQueueSize: int)
    requires Submittable(rs, maxQueueSize) && rs != []
    ensures |rs| <= maxQueueSize && Last(rs).Id().name != "" && Last(rs).status == SM.PENDING
  {
    assert Last(rs) in rs;
  }

  /** The engine once these requests are queued. */
  function AllQueued(e: Engine, rs: seq<SM.Request>): Engine {
    e.(scheduler := e.scheduler.(pending := QueuedAll(e.scheduler, rs), totalSubmitted := |rs|))
  }

  lemma {:induction false} QueuedSnoc(s: SM.Scheduler, rs: seq<SM.Request>)
    requires rs != []
    ensures QueuedAll(s, rs) == QueuedAll(s, Init(rs)) + [SM.Queued(s, Last(rs))]
    ensures SM.Ids(QueuedAll(s, Init(rs))) == SM.Ids(Init(rs))
  {
  }

  lemma {:induction false} SubmitNext(b: Backend, e: Engine, rs: seq<SM.Request>)
    requires CM.Wf(e.cache) && rs != [] && Submittable(rs, e.scheduler.maxQueueSize)
    requires e.scheduler.running == map[] && e.scheduler.completed == map[]
    ensures var mid, op := AllQueued(e, Init(rs)), SubmitOp(Last(rs));
      FreshOp(mid, op) && Apply(b, mid, op).0 == AllQueued(e, rs)
  {
    hide Submittable, QueuedAll, SM.Ids;
    QueuedSnoc(e.scheduler, rs);
    SubmittableInit(rs, e.scheduler.maxQueueSize);
    LastSubmittable(rs, e.scheduler.maxQueueSize);
  }

  lemma {:induction false} SubmitsRun(b: Backend, e: Engine, rs: seq<SM.Request>)
    requires CM.Wf(e.cache) && Submittable(rs, e.scheduler.maxQueueSize)
    requires var s := e.scheduler;
      s.pending == [] && s.running == map[] && s.completed == map[] && s.totalSubmitted == 0
    ensures FreshRun(b, e, Submits(rs)) && Run(b, e, Submits(rs)).0 == AllQueued(e, rs)
  {
    hide Submittable, Apply, FreshOp;
    if rs == [] {
      assert QueuedAll(e.scheduler, rs) == [];
    } else {
      SubmittableInit(rs, e.scheduler.maxQueueSize);
      SubmitsRun(b, e, Init(rs));
      assert Init(Submits(rs)) == Submits(Init(rs)) && Last(Submits(rs)) == SubmitOp(Last(rs));
      SubmitNext(b, e, rs);
    }
  }

  /** With everybody on time and a place for each, the whole queue is taken. */
  lemma {:induction false} WholeQueueTaken(s: SM.Scheduler, now: real)
    requires SH.Inv(s) && forall r | r in s.pending :: !r.IsTimedOut(now)
    ensures var (s', batch) := SM.GetNextBatch(s, now, |s.pending|);
      && |batch| == |s.pending| && NoDup(SM.Ids(batch))
      && (forall r | r in batch :: exists q :: q in s.pending && q.params == r.params)
  {
    hide SM.GetNextBatch, SM.InOrder, SM.EnforceTimeouts, SM.AddAll, NoDup, Filter, SM.StartAll;
    SH.DistinctPending(s);
    SE.BatchEffect(s, now, |s.pending|);
    FilterAll(SE.OnTime(now), s.pending);
    SE.InOrderMembers(s.policy, s.pending);
    var queue := SM.InOrder(s.policy, s.pending);
    assert queue[..|queue|] == queue;
    var batch := SM.GetNextBatch(s, now, |s.pending|).1;
    assert SM.Ids(batch) == SM.Ids(queue);
    forall r | r in batch ensures exists q :: q in s.pending && q.params == r.params {
      var i :| 0 <= i < |batch| && batch[i] == r;
      assert queue[i] in s.pending && queue[i].params == r.params;
    }
  }

  lemma {:induction false} HeldExactly(tables: map<Id, seq<nat>>, order: seq<Id>, k: nat)
    requires forall id | id in order :: id in tables && |tables[id]| == k
    ensures |CI.Held(tables, order)| == |order| * k
  {
    if order != [] {
      var init, id := Init(order), Last(order);
      assert order == init + [id];
      HeldExactly(tables, init, k);
      Product(|init|, k);
    }
  }

  /** A batch of longest prompts holds that many blocks. */
  lemma {:induction false} FullBatchHolds(b: Backend, e: Engine)
    requires Core(b, e) && forall s | s in e.active :: |Encode(b, s.params.prompt)| == MAX_PROMPT
    ensures |e.active| * PromptBlocks(e.cache.blockSize) <= |e.cache.blocks|
  {
    hide CI.Held, CI.Universe, CM.TokensToBlocks, SH.Inv, Outputs, OnFile, InProgress, Encode, NoDup;
    var k := PromptBlocks(e.cache.blockSize);
    forall id | id in e.cache.order ensures id in e.cache.tables && |e.cache.tables[id]| == k {
      IdIsActive(e.active, id);
      var s :| s in e.active && s.Id() == id;
    }
    HeldExactly(e.cache.tables, e.cache.order, k);
    CI.BlockCount(e.cache);
  }

  lemma {:induction false} SmallSet(ids: seq<Id>, others: seq<Id>)
    requires NoDup(ids) && forall x | x in ids :: x in others
    ensures |ids| <= |others|
  {
    if ids != [] {
      var x := Last(ids);
      assert x in ids;
      var k :| 0 <= k < |others| && others[k] == x;
      var rest := others[..k] + others[k + 1..];
      forall y | y in Init(ids) ensures y in rest {
        var i :| 0 <= i < |Init(ids)| && Init(ids)[i] == y;
        assert ids[i] != x && ids[i] in ids;
        var j :| 0 <= j < |others| && others[j] == y;
        assert if j < k then rest[j] == y else rest[j - 1] == y;
      }
      SmallSet(Init(ids), rest);
    }
  }

  /** When admission failed nobody, everybody who was taken from the queue is in the batch. */
  lemma {:induction false} NobodyFailedAllIn(b: Backend, taken: Engine, a: Engine, batch: seq<SM.Request>)
    requires Core(b, a) && NoneFailed(a.scheduler) && NoDup(SM.Ids(batch)) && taken.active == []
    requires SameShape(taken, a) && StatusMovesAll(taken, a, IdsOf(ParamsOf(batch)))
    requires ReadyAll(taken, ParamsOf(batch))
    ensures |a.active| >= |batch|
  {
    hide Core, StatusOf;
    var ps := ParamsOf(batch);
    NoneFailedByStatus(b, a);
    SameFilesKnown(taken.scheduler, a.scheduler);
    forall x | x in SM.Ids(batch) ensures x in ActiveIds(a.active) {
      var i :| 0 <= i < |batch| && SM.Ids(batch)[i] == x;
      assert ps[i].id == x && x in IdsOf(ps);
      assert Ready(taken, ps[i]);
    }
    SmallSet(SM.Ids(batch), ActiveIds(a.active));
  }

  /** A failure of admission is still on record after the iteration. */
  lemma {:induction false} FailureStays(b: Backend, e: Engine, now: real)
    requires CM.Wf(e.cache) && Causal(b) && Tokenizes(b) && Inv(b, e)
    requires forall id | id in ActiveIds(Admit(b, e, now).active) ::
               StatusOf(Admit(b, e, now).scheduler, id) != SM.FAILED
    requires NoneFailed(Step(b, e, now).0.scheduler)
    ensures NoneFailed(Admit(b, e, now).scheduler)
  {
    hide Core, Base, Admit, Decode, RetireAll, InProgress, Decoded;
    AdmitKeeps(b, e, now);
    var a := Admit(b, e, now);
    if a.active != [] {
      DecodeKeeps(b, a);
      var d := Decode(b, a);
      DecodeFrame(b, a);
      assert NoDup(ActiveIds(d.active)) by { BaseDistinct(b, d); }
      FinishedDistinct(d.active);
      ER.CoreApart(b, a);
      ER.RetireRecords(b, d, Finished(d.active), now);
      SeqIdsMembers(Finished(d.active));
      var s' := Step(b, e, now).0.scheduler;
      forall id | id in a.scheduler.running ensures a.scheduler.running[id].status != SM.FAILED {
        if id in SeqIds(Finished(d.active)) {
          assert StatusOf(a.scheduler, id) == a.scheduler.running[id].status;
        } else {
          assert s'.running[id] == a.scheduler.running[id];
        }
      }
    }
  }

  /** Everything about a batch that was taken whole and admitted. */
  lemma {:induction false} TakenActive(b: Backend, taken: Engine, a: Engine, batch: seq<SM.Request>,
                                       pending: seq<SM.Request>)
    requires taken.active == [] && FromBatch(b, [], ParamsOf(batch), a.active)
    requires StatusMovesAll(taken, a, IdsOf(ParamsOf(batch)))
    requires forall r | r in batch ::
               r.status == SM.RUNNING && r.Id() in taken.scheduler.running && taken.scheduler.running[r.Id()] == r
    requires forall r | r in batch :: exists q :: q in pending && q.params == r.params
    requires forall q | q in pending :: |Encode(b, q.params.prompt)| == MAX_PROMPT
    ensures forall s | s in a.active :: |Encode(b, s.params.prompt)| == MAX_PROMPT
    ensures forall id | id in ActiveIds(a.active) :: StatusOf(a.scheduler, id) != SM.FAILED
  {
    hide Encode;
    var ps := ParamsOf(batch);
    forall s | s in a.active ensures |Encode(b, s.params.prompt)| == MAX_PROMPT {
      var i :| 0 <= i < |ps| && ps[i] == s.params;
      assert batch[i] in batch;
    }
    FromBatchIds(b, [], ps, a.active);
    forall id | id in ActiveIds(a.active) ensures StatusOf(a.scheduler, id) != SM.FAILED {
      assert id !in ActiveIds([]);
      var i :| 0 <= i < |ps| && ps[i].id == id;
      assert batch[i] in batch;
      assert StatusOf(a.scheduler, id) == StatusOf(taken.scheduler, id);
    }
  }

  /** One iteration on a full queue of longest prompts fails a request if the pool cannot hold them all. */
  lemma {:induction false} StepFails(b: Backend, e: Engine, now: real)
    requires CM.Wf(e.cache) && Causal(b) && Tokenizes(b) && Inv(b, e)
    requires e.active == [] && 1 <= e.maxBatchSize == |e.scheduler.pending|
    requires forall q | q in e.scheduler.pending :: |Encode(b, q.params.prompt)| == MAX_PROMPT && !q.IsTimedOut(now)
    requires |e.cache.blocks| < e.maxBatchSize * PromptBlocks(e.cache.blockSize)
    ensures !NoneFailed(Step(b, e, now).0.scheduler)
  {
    hide Core, SM.GetNextBatch, AdmitAll, Step, NoneFailed, PromptBlocks, Encode, StatusOf, NoDup;
    var slots := e.maxBatchSize;
    var (s', batch) := SM.GetNextBatch(e.scheduler, now, slots);
    var taken, a := e.(scheduler := s'), Admit(b, e, now);
    assert SH.Inv(e.scheduler) by { CoreParts(b, e); }
    WholeQueueTaken(e.scheduler, now);
    TakenKeeps(b, e, now, slots);
    AdmitAllKeeps(b, taken, ParamsOf(batch), now);
    TakenActive(b, taken, a, batch, e.scheduler.pending);
    if NoneFailed(Step(b, e, now).0.scheduler) {
      FailureStays(b, e, now);
      NobodyFailedAllIn(b, taken, a, batch);
      FullBatchHolds(b, a);
      assert false;
    }
  }

  lemma {:induction false} LastStep(b: Backend, e: Engine, ops: seq<EngineOp>)
    requires CM.Wf(e.cache) && ops != [] && Last(ops).StepOp? && FreshRun(b, e, Init(ops))
    ensures FreshRun(b, e, ops) && Run(b, e, ops).0 == Step(b, Run(b, e, Init(ops)).0, Last(ops).now).0
  {
    hide Step;
  }

  lemma {:induction false} QueuedPrompts(b: Backend, s: SM.Scheduler, rs: seq<SM.Request>, now: real)
    requires forall r | r in rs :: |Encode(b, r.params.prompt)| == MAX_PROMPT && !SM.Queued(s, r).IsTimedOut(now)
    ensures forall q | q in QueuedAll(s, rs) :: |Encode(b, q.params.prompt)| == MAX_PROMPT && !q.IsTimedOut(now)
  {
    hide Encode;
    var qs := QueuedAll(s, rs);
    forall q | q in qs ensures |Encode(b, q.params.prompt)| == MAX_PROMPT && !q.IsTimedOut(now) {
      var i :| 0 <= i < |qs| && qs[i] == q;
      assert rs[i] in rs;
    }
  }

  /** The bound is necessary: submitting a full batch of longest prompts to a smaller pool and stepping once
      fails a request. */
  lemma {:induction false} SmallerPoolFails(b: Backend, maxBatchSize: nat, maxQueueSize: int, defaultTimeout: real,
                                            policy: string, numBlocks: nat, blockSize: Pos,
                                            rs: seq<SM.Request>, now: real)
    requires Causal(b) && Tokenizes(b) && Submittable(rs, maxQueueSize) && |rs| == maxBatchSize >= 1
    requires forall r | r in rs :: |b.encode(r.params.prompt)| >= 1024
    requires forall r | r in rs ::
      now <= r.createdAt + (if r.timeoutSeconds == 0.0 then defaultTimeout else r.timeoutSeconds)
    requires numBlocks < maxBatchSize * ((1024 + blockSize - 1) / blockSize)
    ensures var start := FreshEngine(maxBatchSize, maxQueueSize, defaultTimeout, policy, numBlocks, blockSize);
      var ops := Submits(rs) + [StepOp(now)];
      FreshRun(b, start, ops) && !NoneFailed(Run(b, start, ops).0.scheduler)
  {
    hide FreshRun, Run, Inv, Submittable, NoneFailed, CM.TokensToBlocks, Step, Encode, CM.NewCache;
    forall r | r in rs ensures |Encode(b, r.params.prompt)| == MAX_PROMPT {
      EncodeIsTruncation(b, r.params.prompt);
    }
    var start := FreshEngine(maxBatchSize, maxQueueSize, defaultTimeout, policy, numBlocks, blockSize);
    var ops := Submits(rs) + [StepOp(now)];
    FreshEngineInv(b, maxBatchSize, maxQueueSize, defaultTimeout, policy, numBlocks, blockSize);
    SubmitsRun(b, start, rs);
    RunKeeps(b, start, Submits(rs));
    var e := Run(b, start, Submits(rs)).0;
    NewCacheShape(numBlocks, blockSize);
    CI.TokensToBlocksFormula(MAX_PROMPT, blockSize);
    assert Init(ops) == Submits(rs) && Last(ops) == StepOp(now);
    LastStep(b, start, ops);
    QueuedPrompts(b, start.scheduler, rs, now);
    StepFails(b, e, now);
  }
}
