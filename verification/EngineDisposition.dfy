/** What becomes of every request: completed and returned once, cancelled, or failed for memory. */
module EngineDisposition {
  import opened Prelude
  import opened Decoding
  import opened EngineModel
  import opened EngineInvariant
  import opened EngineAdmission
  import opened EngineSteps
  import opened EngineTheorems
  import opened EngineDrain
  import CM = CacheModel
  import SM = SchedulerModel
  import SH = SchedulerHistory
  import SB = SchedulerBatches
  import SE = SchedulerEffects

  /** The running requests are those of the batch, those just taken from the queue, and failed ones; the
      filed-away requests are cancelled ones and exactly those returned so far, each returned once. */
  ghost predicate DisposedWith(e: Engine, waiting: set<Id>, returned: seq<Id>) {
    var s := e.scheduler;
    && (forall id | id in ActiveIds(e.active) :: id in s.running)
    && (forall id | id in s.running ::
          s.running[id].status == if id in ActiveIds(e.active) || id in waiting then SM.RUNNING else SM.FAILED)
    && (forall id | id in s.completed ::
         s.completed[id].status == SM.COMPLETED || s.completed[id].status == SM.CANCELLED)
    && NoDup(returned)
    && (forall id :: id in returned <==> id in s.completed && s.completed[id].status == SM.COMPLETED)
    && e.totalRequests == |returned| == s.totalCompleted
  }

  ghost predicate Disposed(e: Engine, returned: seq<Id>) {
    DisposedWith(e, {}, returned)
  }

  // ----- admission -----

  lemma {:induction false} TakenDisposes(b: Backend, e: Engine, s': SM.Scheduler, batch: seq<SM.Request>,
                                         returned: seq<Id>)
    requires SB.FreshBatch(e.scheduler, s', batch) && SB.CompletedGrows(e.scheduler, s')
    requires s'.totalCompleted == e.scheduler.totalCompleted && Disposed(e, returned)
    ensures DisposedWith(e.(scheduler := s'), IdsOf(ParamsOf(batch)), returned)
  {
    hide NoDup;
    var ps := ParamsOf(batch);
    forall id | id in IdsOf(ps) ensures id !in e.scheduler.running {
      var i :| 0 <= i < |ps| && ps[i].id == id;
      assert batch[i] in batch;
    }
    forall id | id in s'.running
      ensures s'.running[id].status == if id in ActiveIds(e.active) || id in IdsOf(ps) then SM.RUNNING else SM.FAILED
    {
      if id !in e.scheduler.running {
        SH.IdIn(batch, id);
        var r :| r in batch && r.Id() == id;
        var i :| 0 <= i < |batch| && batch[i] == r;
        assert ps[i].id == id;
      }
    }
  }

  lemma {:induction false} BatchTotals(s: SM.Scheduler, now: real, k: nat)
    requires SH.Inv(s)
    ensures SM.GetNextBatch(s, now, k).0.totalCompleted == s.totalCompleted
  {
    hide SM.AddAll, SM.InOrder, Filter, SM.EnforceTimeouts, SM.GetNextBatch, NoDup;
    SE.BatchEffect(s, now, k);
    SE.EnforceEffect(s, now);
  }

  lemma {:induction false} ByFile(b: Backend, e: Engine)
    requires Core(b, e)
    ensures var s := e.scheduler;
      && (forall id | id in s.running :: StatusOf(s, id) == s.running[id].status && id !in s.completed)
      && (forall id | id in s.completed :: StatusOf(s, id) == s.completed[id].status)
  {
  }

  lemma {:induction false} AdmittedDisposes(b: Backend, e: Engine, e': Engine, ps: seq<Params>, returned: seq<Id>)
    requires Core(b, e) && Core(b, e') && DisposedWith(e, IdsOf(ps), returned)
    requires forall id | id in IdsOf(ps) :: id in e.scheduler.running
    requires SameShape(e, e') && StatusMovesAll(e, e', IdsOf(ps)) && FromBatch(b, e.active, ps, e'.active)
    ensures Disposed(e', returned)
  {
    hide Core, NoDup;
    FromBatchIds(b, e.active, ps, e'.active);
    ByFile(b, e);
    ByFile(b, e');
    var s, s' := e.scheduler, e'.scheduler;
    assert forall id :: id in s'.running.Keys <==> id in s.running;
    assert forall id :: id in s'.completed.Keys <==> id in s.completed;
    forall id | id in s'.completed ensures s'.completed[id].status == s.completed[id].status {
      assert StatusOf(s', id) == StatusOf(s, id);
    }
    forall id | id in s'.running
      ensures s'.running[id].status == if id in ActiveIds(e'.active) then SM.RUNNING else SM.FAILED
    {
      assert StatusOf(s', id) == s'.running[id].status && StatusOf(s, id) == s.running[id].status;
    }
  }

  lemma {:induction false} AdmitDisposes(b: Backend, e: Engine, now: real, returned: seq<Id>)
    requires CM.Wf(e.cache) && Inv(b, e) && Disposed(e, returned)
    ensures Disposed(Admit(b, e, now), returned)
  {
    hide Core, SM.GetNextBatch, AdmitAll, DisposedWith, NoDup;
    var slots := e.maxBatchSize - |e.active|;
    if slots > 0 {
      var (s', batch) := SM.GetNextBatch(e.scheduler, now, slots);
      var taken, ps := e.(scheduler := s'), ParamsOf(batch);
      TakenKeeps(b, e, now, slots);
      assert SH.Inv(e.scheduler) by { CoreParts(b, e); }
      BatchTotals(e.scheduler, now, slots);
      TakenDisposes(b, e, s', batch, returned);
      AdmitAllKeeps(b, taken, ps, now);
      forall id | id in IdsOf(ps) ensures id in s'.running {
        var i :| 0 <= i < |ps| && ps[i].id == id;
        assert batch[i] in batch;
      }
      AdmittedDisposes(b, taken, AdmitAll(b, taken, ps, now), ps, returned);
    }
  }

  // ----- retiring -----

  lemma {:induction false} BaseByFile(b: Backend, e: Engine, id: Id)
    requires Base(b, e) && id in e.scheduler.running
    ensures id !in e.scheduler.completed
  {
  }

  lemma {:induction false} NoDupSnoc(s: seq<Id>, x: Id)
    requires NoDup(s) && x !in s
    ensures NoDup(s + [x])
  {
  }

  lemma {:induction false} RetireDisposes(b: Backend, e: Engine, s: Sequence, now: real, returned: seq<Id>)
    requires CM.Wf(e.cache) && Base(b, e) && s in e.active && s.finished && Decoded(b, s) && Disposed(e, returned)
    ensures Disposed(RetireOne(b, e, s, now), returned + [s.Id()])
  {
    hide Base, Decoded, CM.Free, NoDup;
    var id := s.Id();
    var e' := RetireOne(b, e, s, now);
    IdIsActive(e.active, id);
    RemoveIds(e.active, id);
    WithoutMembers(ActiveIds(e.active), id);
    assert id !in e.scheduler.completed by { BaseByFile(b, e, id); }
    assert id !in returned;
    assert NoDup(returned + [id]) by { NoDupSnoc(returned, id); }
  }

  lemma {:induction false} RetireAllDisposes(b: Backend, e: Engine, done: seq<Sequence>, now: real, returned: seq<Id>)
    requires CM.Wf(e.cache) && Base(b, e) && NoDup(ActiveIds(done)) && Disposed(e, returned)
    requires forall s | s in done :: s in e.active && s.finished && Decoded(b, s)
    ensures Disposed(RetireAll(b, e, done, now), returned + ActiveIds(done))
  {
    hide Base, Decoded, Disposed, RetireOne, Filter;
    if done == [] {
      assert returned + ActiveIds(done) == returned;
    } else {
      var init, s := Init(done), Last(done);
      DistinctInit(done);
      RetireAllKeeps(b, e, init, now);
      RetireAllDisposes(b, e, init, now, returned);
      FilterMembers(IdNotIn(SeqIds(init)), e.active);
      RetireDisposes(b, RetireAll(b, e, init, now), s, now, returned + ActiveIds(init));
      assert returned + ActiveIds(done) == returned + ActiveIds(init) + [s.Id()];
    }
  }

  lemma {:induction false} DecodeDisposes(b: Backend, e: Engine, returned: seq<Id>)
    requires Disposed(e, returned) && ActiveIds(Decode(b, e).active) == ActiveIds(e.active)
    ensures Disposed(Decode(b, e), returned)
  {
    hide NoDup;
    DecodeFrame(b, e);
  }

  lemma {:induction false} StepDisposes(b: Backend, e: Engine, now: real, returned: seq<Id>)
    requires CM.Wf(e.cache) && Causal(b) && Tokenizes(b) && Inv(b, e) && Disposed(e, returned)
    ensures var (e', done) := Step(b, e, now); Disposed(e', returned + ActiveIds(done))
  {
    hide Core, Admit, Decode, RetireAll, Disposed;
    AdmitKeeps(b, e, now);
    AdmitDisposes(b, e, now, returned);
    var a := Admit(b, e, now);
    if a.active == [] {
      assert returned + ActiveIds([]) == returned;
    } else {
      DecodeKeeps(b, a);
      var d := Decode(b, a);
      DecodeFrame(b, a);
      DecodeDisposes(b, a, returned);
      assert NoDup(ActiveIds(d.active)) by { BaseDistinct(b, d); }
      FinishedDistinct(d.active);
      RetireAllDisposes(b, d, Finished(d.active), now, returned);
    }
  }

  // ----- cancelling -----

  lemma {:induction false} PendingApart(b: Backend, e: Engine)
    requires Inv(b, e)
    ensures forall id | id in SM.Ids(e.scheduler.pending) :: id !in e.scheduler.running && id !in e.scheduler.completed
    ensures forall id | id in e.scheduler.running :: id !in e.scheduler.completed
  {
  }

  /** Cancelling keeps the disposition exactly when the request is not in the batch: a running sequence
      decodes on after its request was filed away, and its completion is then ignored. */
  lemma {:induction false} CancelDisposes(b: Backend, e: Engine, id: Id, now: real, returned: seq<Id>)
    requires Inv(b, e) && Disposed(e, returned)
    ensures Disposed(e.(scheduler := SM.Cancel(e.scheduler, id, now).0), returned) <==> id !in ActiveIds(e.active)
  {
    hide Base, NoDup, SM.Drop;
    PendingApart(b, e);
  }

  // ----- whole histories -----

  ghost predicate Quiet(e: Engine, op: EngineOp) {
    op.CancelOp? ==> op.id !in ActiveIds(e.active)
  }

  /** No cancellation of a request whose sequence is in the batch. */
  ghost predicate QuietRun(b: Backend, e: Engine, ops: seq<EngineOp>)
    requires CM.Wf(e.cache)
  {
    ops == [] || (QuietRun(b, e, Init(ops)) && Quiet(Run(b, e, Init(ops)).0, Last(ops)))
  }

  lemma {:induction false} ApplyDisposes(b: Backend, e: Engine, op: EngineOp, returned: seq<Id>)
    requires CM.Wf(e.cache) && Causal(b) && Tokenizes(b) && Inv(b, e) && Disposed(e, returned) && Quiet(e, op)
    ensures var (e', done) := Apply(b, e, op); Disposed(e', returned + ActiveIds(done))
  {
    hide Inv, Step, NoDup, SM.Cancel;
    assert returned + ActiveIds([]) == returned;
    match op
    case SubmitOp(r) =>
    case StepOp(now) => StepDisposes(b, e, now, returned);
    case CancelOp(id, now) => CancelDisposes(b, e, id, now, returned);
  }

  lemma {:induction false} IdsOfConcat(a: seq<Sequence>, b: seq<Sequence>)
    ensures ActiveIds(a + b) == ActiveIds(a) + ActiveIds(b)
  {
  }

  lemma {:induction false} IdsInTwo(returned: seq<Id>, a: seq<Sequence>, b: seq<Sequence>)
    ensures returned + ActiveIds(a) + ActiveIds(b) == returned + ActiveIds(a + b)
  {
    IdsOfConcat(a, b);
  }

  lemma {:induction false} RunDisposes(b: Backend, e: Engine, ops: seq<EngineOp>)
    requires CM.Wf(e.cache) && Causal(b) && Tokenizes(b) && Inv(b, e) && FreshRun(b, e, ops) && QuietRun(b, e, ops)
    requires Disposed(e, [])
    ensures var (e', done) := Run(b, e, ops); Disposed(e', ActiveIds(done))
  {
    hide Inv, Disposed, Apply, FreshOp, Quiet;
    if ops == [] {
      assert ActiveIds([]) == [];
    } else {
      RunDisposes(b, e, Init(ops));
      RunKeeps(b, e, Init(ops));
      var (mid, returned) := Run(b, e, Init(ops));
      ApplyDisposes(b, mid, Last(ops), ActiveIds(returned));
      IdsOfConcat(returned, Apply(b, mid, Last(ops)).1);
    }
  }

  lemma {:induction false} DrainDisposes(b: Backend, e: Engine, clock: nat -> real, i: nat, left: nat,
                                         returned: seq<Id>)
    requires CM.Wf(e.cache) && Causal(b) && Tokenizes(b) && Inv(b, e) && Disposed(e, returned)
    ensures var (e', done) := Drain(b, e, clock, i, left); Disposed(e', returned + ActiveIds(done))
    decreases left
  {
    hide Inv, Disposed, Step;
    if left == 0 {
      assert returned + ActiveIds([]) == returned;
    } else {
      StepShape(b, e, clock(i));
      StepDisposes(b, e, clock(i), returned);
      var (e', done) := Step(b, e, clock(i));
      if !Idle(e') {
        DrainDisposes(b, e', clock, i + 1, left - 1, returned + ActiveIds(done));
        IdsInTwo(returned, done, Drain(b, e', clock, i + 1, left - 1).1);
      }
    }
  }

  lemma {:induction false} DrainKnown(b: Backend, e: Engine, clock: nat -> real, i: nat, left: nat)
    requires CM.Wf(e.cache) && Causal(b) && Tokenizes(b) && Inv(b, e)
    ensures var e' := Drain(b, e, clock, i, left).0;
      forall id :: SM.Known(e'.scheduler, id) <==> SM.Known(e.scheduler, id)
    decreases left
  {
    hide Inv, Step, SM.Known;
    if left > 0 {
      StepShape(b, e, clock(i));
      var e' := Step(b, e, clock(i)).0;
      if !Idle(e') {
        DrainKnown(b, e', clock, i + 1, left - 1);
      }
    }
  }

  lemma {:induction false} FailedForMemory(b: Backend, e: Engine)
    requires Inv(b, e)
    ensures forall id | id in e.scheduler.running :: MemoryFailure(e.scheduler.running[id])
  {
  }

  /** After any quiet history and a full drain, every request ever accepted is exactly one of: completed and
      returned, once; cancelled; failed for memory, and then still filed as running. The engine and the queue
      count the same completions. */
  lemma {:induction false} EveryRequestIsDisposed(b: Backend, maxBatchSize: int, maxQueueSize: int,
                                                  defaultTimeout: real, policy: string,
                                                  numBlocks: nat, blockSize: Pos, ops: seq<EngineOp>,
                                                  clock: nat -> real)
    requires Causal(b) && Tokenizes(b) && maxBatchSize >= 1
    requires FreshRun(b, FreshEngine(maxBatchSize, maxQueueSize, defaultTimeout, policy, numBlocks, blockSize), ops)
    requires QuietRun(b, FreshEngine(maxBatchSize, maxQueueSize, defaultTimeout, policy, numBlocks, blockSize), ops)
    requires var initial := FreshEngine(maxBatchSize, maxQueueSize, defaultTimeout, policy, numBlocks, blockSize);
      Left(Run(b, initial, ops).0) <= 10000
    ensures var initial := FreshEngine(maxBatchSize, maxQueueSize, defaultTimeout, policy, numBlocks, blockSize);
      var (e, early) := Run(b, initial, ops);
      var (last, late) := RunUntilEmpty(b, e, clock);
      var returned := ActiveIds(early + late);
      && NoDup(returned) && last.totalRequests == |returned| == last.scheduler.totalCompleted
      && (forall id :: SM.Known(last.scheduler, id) <==> SM.Known(e.scheduler, id))
      && (forall id | SM.Known(last.scheduler, id) ::
            if id in last.scheduler.running then
              (id !in returned && last.scheduler.running[id].status == SM.FAILED
               && (last.scheduler.running[id].error == Some("Evicted due to memory pressure")
                    || last.scheduler.running[id].error == Some("Insufficient KV-cache memory")))
            else
              (id in last.scheduler.completed
               && last.scheduler.completed[id].status == (if id in returned then SM.COMPLETED else SM.CANCELLED)))
  {
    hide Inv, FreshRun, QuietRun, Run, Drain, Left;
    var start := FreshEngine(maxBatchSize, maxQueueSize, defaultTimeout, policy, numBlocks, blockSize);
    FreshEngineInv(b, maxBatchSize, maxQueueSize, defaultTimeout, policy, numBlocks, blockSize);
    assert Disposed(start, []) by { assert ActiveIds(start.active) == []; }
    RunKeeps(b, start, ops);
    RunDisposes(b, start, ops);
    var (e, early) := Run(b, start, ops);
    var (last, late) := RunUntilEmpty(b, e, clock);
    DrainEmpties(b, e, clock, 0, MAX_ITERATIONS);
    DrainDisposes(b, e, clock, 0, MAX_ITERATIONS, ActiveIds(early));
    DrainKnown(b, e, clock, 0, MAX_ITERATIONS);
    IdsOfConcat(early, late);
    PendingApart(b, last);
    FailedForMemory(b, last);
    assert ActiveIds(last.active) == [] && SM.Ids(last.scheduler.pending) == [];
  }
}
