/** What is on record for the requests that an iteration returns. */
module EngineRecords {
  import opened Prelude
  import opened Decoding
  import opened EngineModel
  import opened EngineInvariant
  import opened EngineAdmission
  import opened EngineSteps
  import CM = CacheModel
  import SM = SchedulerModel
  import SB = SchedulerBatches

  /** The request of a finished sequence is filed as completed now, with the text and the length of its output. */
  ghost predicate Recorded(b: Backend, s: SM.Scheduler, t: Sequence, now: real) {
    t.Id() in s.completed &&
    var r := s.completed[t.Id()];
    && r.status == SM.COMPLETED && r.completedAt == Some(now)
    && r.outputText == b.decode(t.generated, true) && r.generatedTokens == |t.generated|
  }

  ghost predicate Apart(s: SM.Scheduler) {
    forall id | id in s.running :: id !in s.completed
  }

  /** Retiring records what was running, and leaves alone what was filed away before. */
  ghost predicate RetiresTo(b: Backend, s: SM.Scheduler, done: seq<Sequence>, s': SM.Scheduler,
                             now: real) {
    && Apart(s')
    && (forall id :: id in s'.running <==> id in s.running && id !in SeqIds(done))
    && (forall id | id in s'.running :: s'.running[id] == s.running[id])
    && (forall id | id in s.completed :: id in s'.completed && s'.completed[id] == s.completed[id])
    && (forall t | t in done && t.Id() in s.running :: Recorded(b, s', t, now))
  }

  lemma {:induction false} RetireOneRecords(b: Backend, s: SM.Scheduler, init: seq<Sequence>, mid: SM.Scheduler,
                                            t: Sequence, now: real)
    requires RetiresTo(b, s, init, mid, now) && t.Id() !in SeqIds(init)
    ensures RetiresTo(b, s, init + [t], SM.Complete(mid, t.Id(), b.decode(t.generated, true), |t.generated|, now), now)
  {
    var done := init + [t];
    assert Init(done) == init;
    var s' := SM.Complete(mid, t.Id(), b.decode(t.generated, true), |t.generated|, now);
    SeqIdsMembers(init);
    forall x | x in done && x.Id() in s.running ensures Recorded(b, s', x, now) {
      if x in init {
        assert Recorded(b, mid, x, now);
      }
    }
  }

  lemma {:induction false} NoneRetired(b: Backend, s: SM.Scheduler, now: real)
    requires Apart(s)
    ensures RetiresTo(b, s, [], s, now)
  {
  }

  lemma {:induction false} RetireRecords(b: Backend, e: Engine, done: seq<Sequence>, now: real)
    requires CM.Wf(e.cache) && NoDup(ActiveIds(done)) && Apart(e.scheduler)
    ensures RetiresTo(b, e.scheduler, done, RetireAll(b, e, done, now).scheduler, now)
  {
    hide RetiresTo, SM.Complete, CM.Free;
    if done == [] {
      NoneRetired(b, e.scheduler, now);
    } else {
      var init, t := Init(done), Last(done);
      assert done == init + [t];
      DistinctInit(done);
      RetireRecords(b, e, init, now);
      RetireOneRecords(b, e.scheduler, init, RetireAll(b, e, init, now).scheduler, t, now);
    }
  }

  /** After admission a sequence in the batch has a running request, unless the request was filed away before
      the iteration; then it has kept its status. */
  ghost predicate AdmittedOnFile(s: SM.Scheduler, a: Engine) {
    && Apart(a.scheduler)
    && forall id | id in ActiveIds(a.active) ::
         if id in s.completed then
           id in a.scheduler.completed && id !in a.scheduler.running
           && a.scheduler.completed[id].status == s.completed[id].status
         else id in a.scheduler.running
  }

  lemma {:induction false} CoreApart(b: Backend, e: Engine)
    requires Core(b, e)
    ensures Apart(e.scheduler)
    ensures forall id | id in ActiveIds(e.active) :: Knows(e.scheduler, id) && id !in SM.Ids(e.scheduler.pending)
  {
    forall id | id in ActiveIds(e.active) ensures Knows(e.scheduler, id) && id !in SM.Ids(e.scheduler.pending) {
      IdIsActive(e.active, id);
      DisjointFiles(e.scheduler, id);
    }
  }

  lemma {:induction false} TakenOnFile(b: Backend, e: Engine, s': SM.Scheduler, batch: seq<SM.Request>, a: Engine)
    requires Core(b, e) && Core(b, e.(scheduler := s')) && Core(b, a)
    requires SB.FreshBatch(e.scheduler, s', batch) && SB.CompletedGrows(e.scheduler, s')
    requires var ps := ParamsOf(batch);
      && SameShape(e.(scheduler := s'), a) && StatusMovesAll(e.(scheduler := s'), a, IdsOf(ps))
      && FromBatch(b, e.active, ps, a.active)
    ensures AdmittedOnFile(e.scheduler, a)
  {
    hide Core, NoDup;
    var s, ps := e.scheduler, ParamsOf(batch);
    CoreApart(b, e);
    CoreApart(b, e.(scheduler := s'));
    CoreApart(b, a);
    FromBatchIds(b, e.active, ps, a.active);
    assert forall id :: id in a.scheduler.running.Keys <==> id in s'.running;
    assert forall id :: id in a.scheduler.completed.Keys <==> id in s'.completed;
    forall id | id in ActiveIds(a.active)
      ensures if id in s.completed then
                id in a.scheduler.completed && id !in a.scheduler.running
                && a.scheduler.completed[id].status == s.completed[id].status
              else id in a.scheduler.running
    {
      assert StatusOf(a.scheduler, id) == StatusOf(s', id);
      if id in IdsOf(ps) {
        var i :| 0 <= i < |ps| && ps[i].id == id;
        assert batch[i] in batch;
      }
    }
  }

  lemma {:induction false} AdmitOnFile(b: Backend, e: Engine, now: real)
    requires CM.Wf(e.cache) && Inv(b, e)
    ensures AdmittedOnFile(e.scheduler, Admit(b, e, now))
  {
    hide Core, SM.GetNextBatch, AdmitAll;
    var slots := e.maxBatchSize - |e.active|;
    CoreApart(b, e);
    if slots > 0 {
      var (s', batch) := SM.GetNextBatch(e.scheduler, now, slots);
      TakenKeeps(b, e, now, slots);
      AdmitAllKeeps(b, e.(scheduler := s'), ParamsOf(batch), now);
      TakenOnFile(b, e, s', batch, Admit(b, e, now));
    }
  }

  /** Every request an iteration returns is filed away. One that was not cancelled is COMPLETED and carries its
      output; one that was filed away before the iteration, by a cancellation, keeps its status. */
  lemma {:induction false} ReturnedAreRecorded(b: Backend, e: Engine, now: real)
    requires CM.Wf(e.cache) && Causal(b) && Tokenizes(b) && Inv(b, e)
    ensures var (e', done) := Step(b, e, now);
      forall t | t in done ::
        if t.Id() in e.scheduler.completed then
          t.Id() in e'.scheduler.completed
          && e'.scheduler.completed[t.Id()].status == e.scheduler.completed[t.Id()].status
        else Recorded(b, e'.scheduler, t, now)
  {
    hide Core, Base, Admit, Decode, RetireAll, InProgress, Decoded;
    AdmitKeeps(b, e, now);
    AdmitOnFile(b, e, now);
    var a := Admit(b, e, now);
    if a.active != [] {
      DecodeKeeps(b, a);
      var d := Decode(b, a);
      DecodeFrame(b, a);
      assert NoDup(ActiveIds(d.active)) by { BaseDistinct(b, d); }
      FinishedDistinct(d.active);
      RetireRecords(b, d, Finished(d.active), now);
      forall t | t in Finished(d.active) ensures t.Id() in ActiveIds(a.active) {
        IdIsActive(d.active, t.Id());
      }
    }
  }
}
