/** The three phases of an iteration, each with what it keeps and what it achieves. */
module EngineSteps {
  import opened Prelude
  import opened Sampling
  import opened Decoding
  import opened EngineModel
  import opened EngineInvariant
  import opened EngineAdmission
  import CM = CacheModel
  import CI = CacheInvariant
  import CS = CacheSafety
  import SM = SchedulerModel
  import SH = SchedulerHistory
  import SB = SchedulerBatches

  // ----- admission from the queue -----

  lemma {:induction false} TakenReady(e: Engine, e': Engine, batch: seq<SM.Request>)
    requires SB.FreshBatch(e.scheduler, e'.scheduler, batch) && OnFile(e) && e'.active == e.active
    ensures ReadyAll(e', ParamsOf(batch))
  {
    var ps := ParamsOf(batch);
    forall i, j | 0 <= i < j < |ps| ensures ps[i].id != ps[j].id {
      assert SM.Ids(batch)[i] != SM.Ids(batch)[j];
    }
    forall i | 0 <= i < |ps| ensures Ready(e', ps[i]) {
      assert batch[i] in batch;
      IdIsActive(e.active, ps[i].id);
    }
  }

  lemma {:induction false} DisjointFiles(s: SM.Scheduler, id: Id)
    requires SH.Inv(s)
    ensures id in s.running ==> id !in s.completed
    ensures id in SM.Ids(s.pending) ==> !Knows(s, id)
  {
  }

  lemma {:induction false} TakenOutputs(b: Backend, s: SM.Scheduler, s': SM.Scheduler, batch: seq<SM.Request>)
    requires Outputs(b, s) && SB.FreshBatch(s, s', batch) && SB.CompletedGrows(s, s')
    ensures Outputs(b, s')
  {
    hide NoDup;
    forall id | id in s'.running ensures GoodRecord(b, s'.running[id]) {
      if id !in s.running {
        SH.IdIn(batch, id);
      }
    }
  }

  /** After the queue handed over a batch and before anyone is admitted. */
  lemma {:induction false} TakenKeeps(b: Backend, e: Engine, now: real, slots: nat)
    requires CM.Wf(e.cache) && Core(b, e)
    ensures var (s', batch) := SM.GetNextBatch(e.scheduler, now, slots);
      var e' := e.(scheduler := s');
      && Core(b, e') && ReadyAll(e', ParamsOf(batch)) && |batch| <= slots
      && SB.FreshBatch(e.scheduler, s', batch) && SB.CompletedGrows(e.scheduler, s')
      && (forall id :: SM.Known(s', id) <==> SM.Known(e.scheduler, id))
  {
    hide SH.Inv, CI.Inv, CM.TokensToBlocks, InProgress, SM.GetNextBatch, NoDup;
    var (s', batch) := SM.GetNextBatch(e.scheduler, now, slots);
    var e' := e.(scheduler := s');
    SB.BatchIsFresh(e.scheduler, now, slots);
    SH.BatchKeeps(e.scheduler, now, slots);
    assert Outputs(b, s') by { TakenOutputs(b, e.scheduler, s', batch); }
    forall s | s in e'.active
      ensures Knows(s', s.Id()) && SM.Filed(s', s.Id()).params == s.params
    {
      DisjointFiles(e.scheduler, s.Id());
      DisjointFiles(s', s.Id());
    }
    TakenReady(e, e', batch);
  }

  /** Admission as a whole. */
  lemma {:induction false} AdmitKeeps(b: Backend, e: Engine, now: real)
    requires CM.Wf(e.cache) && Inv(b, e)
    ensures var e' := Admit(b, e, now);
      && Inv(b, e')
      && e' == e.(scheduler := e'.scheduler, cache := e'.cache, active := e'.active)
      && e'.cache.blockSize == e.cache.blockSize && |e'.cache.blocks| == |e.cache.blocks|
      && (forall id :: SM.Known(e'.scheduler, id) <==> SM.Known(e.scheduler, id))
  {
    hide Core, SM.GetNextBatch, SM.Known, AdmitAll;
    var slots := e.maxBatchSize - |e.active|;
    if slots > 0 {
      var (s', batch) := SM.GetNextBatch(e.scheduler, now, slots);
      TakenKeeps(b, e, now, slots);
      var taken := e.(scheduler := s');
      AdmitAllKeeps(b, taken, ParamsOf(batch), now);
      SameFilesKnown(s', AdmitAll(b, taken, ParamsOf(batch), now).scheduler);
    }
  }

  // ----- decoding -----

  /** A sequence after a pass: still in progress, or finished for the reason it gives with an output it may end
      with; if greedy, exactly its solo decode. */
  ghost predicate Decoded(b: Backend, s: Sequence) {
    if s.finished then
      && Genuine(b, s.params, s.generated)
      && s.reason == (if b.eos == Some(Last(s.generated)) then "eos" else "length")
      && (Greedy(s.params) ==> s.generated == Solo(b, s.params))
    else InProgress(b, s)
  }

  lemma {:induction false} LongestRow(active: seq<Sequence>) returns (k: nat)
    requires active != []
    ensures k < |active| && MaxLen(active) == |active[k].inputIds|
  {
    k := |active| - 1;
    if |active| > 1 && MaxLen(Init(active)) > |Last(active).inputIds| {
      k := LongestRow(Init(active));
    } else if |active| == 1 {
      assert Init(active) == [];
    }
  }

  /** The rows of a pass are as long as the longest input; each begins with its own input, and the rest is the pad
      token of the tokenizer, or 0 if it has none. */
  lemma {:induction false} RowsMeaning(b: Backend, active: seq<Sequence>) returns (longest: nat)
    requires active != []
    ensures longest < |active| && |Rows(b, active)| == |active|
    ensures forall i | 0 <= i < |active| ::
      var row, ids := Rows(b, active)[i], active[i].inputIds;
      && |ids| <= |row| == |active[longest].inputIds| && row[..|ids|] == ids
      && forall j | |ids| <= j < |row| :: row[j] == if b.pad.Some? then b.pad.value else 0
  {
    longest := LongestRow(active);
  }

  /** A pass over the padded batch samples each sequence, greedy or not, at the end of its own unpadded row,
      under its own parameters and with its own draw. */
  lemma {:induction false} BatchTokenIsOwn(b: Backend, active: seq<Sequence>, draws: nat, i: nat)
    requires Causal(b) && i < |active| && active[i].inputIds != []
    ensures NextTokens(b, active, draws)[i]
         == Sample(b, active[i].params, At(b.forward(active[i].inputIds), |active[i].inputIds| - 1), draws + i)
    ensures SampledAfter(b, active[i].params, active[i].inputIds, NextTokens(b, active, draws)[i])
  {
    hide Sample;
    var s := active[i];
    var padding := Rows(b, active)[i][|s.inputIds|..];
    assert Rows(b, active)[i] == s.inputIds + padding;
    PaddingInvisible(b, s.inputIds, padding);
    assert NextTokens(b, active, draws)[i] == Sample(b, s.params, EndLogits(b, s.inputIds), draws + i);
  }

  /** For a greedy sequence, that is the token it would get alone. */
  lemma {:induction false} BatchTokenIsSolo(b: Backend, active: seq<Sequence>, draws: nat, i: nat)
    requires Causal(b) && i < |active| && active[i].inputIds != [] && Greedy(active[i].params)
    ensures NextTokens(b, active, draws)[i] == NextToken(b, active[i].params, active[i].inputIds)
  {
    hide Sample;
    var s := active[i];
    BatchTokenIsOwn(b, active, draws, i);
    GreedyIgnoresDraw(b, s.params, At(b.forward(s.inputIds), |s.inputIds| - 1), draws + i);
  }

  lemma {:induction false} AdvanceKeeps(b: Backend, s: Sequence, t: Token)
    requires InProgress(b, s) && SampledAfter(b, s.params, s.inputIds, t)
    requires Greedy(s.params) ==> t == NextToken(b, s.params, s.inputIds)
    ensures Decoded(b, Advance(b, s, t))
    ensures var s' := Advance(b, s, t);
      && s'.params == s.params && s'.generated == s.generated + [t]
      && (s'.finished <==> IsEos(b, t) || |s'.generated| == Budget(s.params))
  {
    hide NextToken, Encode, Solo, Greedy, SampledFrom, SampledAfter;
    var left := Budget(s.params) - |s.generated|;
    var s' := Advance(b, s, t);
    SampledSnoc(b, s.params, Encode(b, s.params.prompt), s.generated, t);
    assert s'.inputIds == Encode(b, s.params.prompt) + s'.generated;
    if Greedy(s.params) {
      var rest := SoloFrom(b, s.params, s.inputIds, left);
      if IsEos(b, t) {
        assert rest == [t];
      } else {
        var more := SoloFrom(b, s.params, s.inputIds + [t], left - 1);
        assert rest == [t] + more;
        assert s.generated + ([t] + more) == s'.generated + more;
      }
    }
  }

  lemma {:induction false} DecodeKeeps(b: Backend, e: Engine)
    requires Causal(b) && Tokenizes(b) && Core(b, e)
    ensures var e' := Decode(b, e);
      && Base(b, e') && ActiveIds(e'.active) == ActiveIds(e.active)
      && (forall s | s in e'.active :: Decoded(b, s))
      && |e'.active| == |e.active|
      && (forall i | 0 <= i < |e.active| ::
            e'.active[i].params == e.active[i].params && |e'.active[i].generated| == |e.active[i].generated| + 1)
  {
    hide Sample, Rows, Encode, Solo, SoloFrom, SH.Inv, CI.Inv, Outputs, NextToken, IsGreedy, CM.TokensToBlocks, Advance;
    var tokens := NextTokens(b, e.active, e.totalTokens);
    var e' := Decode(b, e);
    forall i | 0 <= i < |e.active|
      ensures Decoded(b, e'.active[i]) && e'.active[i].params == e.active[i].params
      ensures |e'.active[i].generated| == |e.active[i].generated| + 1
    {
      var s := e.active[i];
      assert s in e.active;
      EncodeNonEmpty(b, s.params.prompt);
      BatchTokenIsOwn(b, e.active, e.totalTokens, i);
      if Greedy(s.params) {
        BatchTokenIsSolo(b, e.active, e.totalTokens, i);
      }
      AdvanceKeeps(b, s, tokens[i]);
    }
    assert ActiveIds(e'.active) == ActiveIds(e.active);
    forall s | s in e'.active
      ensures s.Id() in e.cache.tables
      ensures |e.cache.tables[s.Id()]| == CM.TokensToBlocks(|Encode(b, s.params.prompt)|, e.cache.blockSize)
      ensures CS.Tokens(e.cache, s.Id()) == |Encode(b, s.params.prompt)|
      ensures Knows(e.scheduler, s.Id()) && SM.Filed(e.scheduler, s.Id()).params == s.params
      ensures Decoded(b, s)
    {
      var i :| 0 <= i < |e'.active| && e'.active[i] == s;
      assert e.active[i] in e.active;
    }
  }

  // ----- retiring -----

  /** A request completed with an output it may end with is a good record. */
  lemma {:induction false} CompletedRecord(b: Backend, r: SM.Request, generated: seq<Token>, now: real)
    requires Genuine(b, r.params, generated) && (Greedy(r.params) ==> generated == Solo(b, r.params))
    ensures GoodRecord(b, r.Completed(b.decode(generated, true), |generated|, now))
  {
    hide Solo, Genuine, Greedy;
  }

  lemma {:induction false} CompleteOutputs(b: Backend, s: SM.Scheduler, id: Id, generated: seq<Token>, now: real)
    requires Outputs(b, s) && id in s.running && Genuine(b, s.running[id].params, generated)
    requires Greedy(s.running[id].params) ==> generated == Solo(b, s.running[id].params)
    ensures Outputs(b, SM.Complete(s, id, b.decode(generated, true), |generated|, now))
  {
    hide GoodRecord, Genuine, Solo, Greedy;
    CompletedRecord(b, s.running[id], generated, now);
  }

  lemma {:induction false} CompleteEffect(b: Backend, s: SM.Scheduler, id: Id, params: Params, generated: seq<Token>,
                                          now: real)
    requires SH.Inv(s) && Outputs(b, s) && Knows(s, id) && SM.Filed(s, id).params == params
    requires Genuine(b, params, generated) && (Greedy(params) ==> generated == Solo(b, params))
    ensures var s' := SM.Complete(s, id, b.decode(generated, true), |generated|, now);
      && SH.Inv(s') && Outputs(b, s') && s'.pending == s.pending && s'.policy == s.policy
      && (forall x :: SM.Known(s', x) <==> SM.Known(s, x))
      && (forall x | Knows(s, x) :: Knows(s', x) && SM.Filed(s', x).params == SM.Filed(s, x).params)
      && s'.running == s.running - {id}
      && (forall x | x != id :: StatusOf(s', x) == StatusOf(s, x))
      && (if id in s.running then StatusOf(s', id) == SM.COMPLETED && s'.totalCompleted == s.totalCompleted + 1
          else s' == s)
      && s'.completed.Keys == s.completed.Keys + {id}
  {
    hide Solo, SH.Counted, SH.Staged, Outputs, Genuine, Greedy;
    SH.CompleteKeeps(s, id, b.decode(generated, true), |generated|, now);
    if id in s.running {
      CompleteOutputs(b, s, id, generated, now);
    }
  }

  lemma {:induction false} RetireKeeps(b: Backend, e: Engine, s: Sequence, now: real)
    requires CM.Wf(e.cache) && Base(b, e) && s in e.active && s.finished && Decoded(b, s)
    ensures var e' := RetireOne(b, e, s, now);
      && Base(b, e') && e'.active == Remove(e.active, s.Id())
      && (forall x :: SM.Known(e'.scheduler, x) <==> SM.Known(e.scheduler, x))
      && e'.cache.blockSize == e.cache.blockSize && |e'.cache.blocks| == |e.cache.blocks|
      && e'.cache.totalEvicted == e.cache.totalEvicted
  {
    hide SH.Inv, CI.Inv, Outputs, SM.Complete, CM.Free, CM.TokensToBlocks, Solo, Remove, Encode, SM.Known;
    CompleteEffect(b, e.scheduler, s.Id(), s.params, s.generated, now);
    CS.FreeSafe(e.cache, s.Id());
    RemoveIds(e.active, s.Id());
  }

  ghost function SeqIds(done: seq<Sequence>): set<Id> {
    if done == [] then {} else SeqIds(Init(done)) + {Last(done).Id()}
  }

  function IdNotIn(ids: set<Id>): Sequence -> bool { (s: Sequence) => s.Id() !in ids }

  function Unfinished(): Sequence -> bool { (s: Sequence) => !s.finished }

  lemma {:induction false} SeqIdsMembers(done: seq<Sequence>)
    ensures forall id :: id in SeqIds(done) <==> id in ActiveIds(done)
  {
    if done != [] {
      SeqIdsMembers(Init(done));
      assert ActiveIds(done) == ActiveIds(Init(done)) + [Last(done).Id()];
    }
  }

  lemma {:induction false} DistinctInit(done: seq<Sequence>)
    requires done != [] && NoDup(ActiveIds(done))
    ensures NoDup(ActiveIds(Init(done))) && Last(done).Id() !in SeqIds(Init(done))
    ensures forall s | s in Init(done) :: s in done
  {
    SeqIdsMembers(Init(done));
    assert forall i | 0 <= i < |done| - 1 :: ActiveIds(Init(done))[i] == ActiveIds(done)[i];
    assert done == Init(done) + [Last(done)];
  }

  ghost predicate RetiredFrom(e: Engine, e': Engine) {
    && e'.maxBatchSize == e.maxBatchSize && e'.totalTokens == e.totalTokens && e'.totalIterations == e.totalIterations
    && e'.cache.blockSize == e.cache.blockSize && |e'.cache.blocks| == |e.cache.blocks|
    && e'.cache.totalEvicted == e.cache.totalEvicted
    && e'.scheduler.pending == e.scheduler.pending
    && (forall x :: SM.Known(e'.scheduler, x) <==> SM.Known(e.scheduler, x))
  }

  lemma {:induction false} CompletePending(s: SM.Scheduler, id: Id, text: string, n: nat, now: real)
    ensures SM.Complete(s, id, text, n, now).pending == s.pending
  {
  }

  lemma {:induction false} RetireAllKeeps(b: Backend, e: Engine, done: seq<Sequence>, now: real)
    requires CM.Wf(e.cache) && Base(b, e) && NoDup(ActiveIds(done))
    requires forall s | s in done :: s in e.active && s.finished && Decoded(b, s)
    ensures var e' := RetireAll(b, e, done, now);
      && Base(b, e') && RetiredFrom(e, e')
      && e'.active == Filter(IdNotIn(SeqIds(done)), e.active)
      && e'.totalRequests == e.totalRequests + |done|
  {
    hide Base, Decoded, SM.Known, SM.Complete;
    if done == [] {
      FilterAll(IdNotIn({}), e.active);
    } else {
      var init, s := Init(done), Last(done);
      DistinctInit(done);
      RetireAllKeeps(b, e, init, now);
      var mid := RetireAll(b, e, init, now);
      FilterMembers(IdNotIn(SeqIds(init)), e.active);
      RetireKeeps(b, mid, s, now);
      FilterTwice(IdNotIn(SeqIds(init)), OtherThan(s.Id()), IdNotIn(SeqIds(done)), e.active);
      assert RetireAll(b, e, done, now).scheduler.pending == mid.scheduler.pending by {
        CompletePending(mid.scheduler, s.Id(), b.decode(s.generated, true), |s.generated|, now);
      }
    }
  }

  lemma {:induction false} FinishedDistinct(active: seq<Sequence>)
    requires NoDup(ActiveIds(active))
    ensures NoDup(ActiveIds(Finished(active)))
    ensures forall s | s in Finished(active) :: s in active && s.finished
    ensures forall id | id in ActiveIds(Finished(active)) :: id in ActiveIds(active)
  {
    FilterMembers(IsFinished(), active);
    if active != [] {
      var init, x := Init(active), Last(active);
      assert forall i | 0 <= i < |init| :: ActiveIds(init)[i] == ActiveIds(active)[i];
      FinishedDistinct(init);
      assert ActiveIds(active) == ActiveIds(init) + [x.Id()];
      assert x.Id() !in ActiveIds(init);
      ActiveIdsSnoc(Finished(init), x);
    }
  }

  /** Retiring removes exactly the finished sequences. */
  lemma {:induction false} FinishedOut(active: seq<Sequence>)
    requires NoDup(ActiveIds(active))
    ensures Filter(IdNotIn(SeqIds(Finished(active))), active) == Filter(Unfinished(), active)
  {
    var done := Finished(active);
    FinishedDistinct(active);
    FilterMembers(IsFinished(), active);
    SeqIdsMembers(done);
    forall s | s in active ensures s.Id() !in SeqIds(done) <==> !s.finished {
      IdIsActive(done, s.Id());
      if s.Id() in SeqIds(done) {
        var t :| t in done && t.Id() == s.Id();
        OneWithId(active, s, t);
      }
    }
    FilterAgree(IdNotIn(SeqIds(done)), Unfinished(), active);
  }

  // ----- a whole iteration -----

  lemma {:induction false} DecodeFrame(b: Backend, e: Engine)
    ensures var d := Decode(b, e);
      && d == e.(active := d.active, totalTokens := e.totalTokens + |e.active|,
           totalIterations := e.totalIterations + 1)
  {
  }

  lemma {:induction false} BaseDistinct(b: Backend, e: Engine)
    requires Base(b, e)
    ensures NoDup(ActiveIds(e.active))
  {
  }

  /** The batch as one iteration leaves it, and the sequences it finished. */
  lemma {:induction false} StepShape(b: Backend, e: Engine, now: real)
    requires CM.Wf(e.cache) && Causal(b) && Tokenizes(b) && Inv(b, e)
    ensures var a := Admit(b, e, now);
      var (e', done) := Step(b, e, now);
      && Inv(b, e') && e'.maxBatchSize == e.maxBatchSize
      && e'.cache.blockSize == e.cache.blockSize && |e'.cache.blocks| == |e.cache.blocks|
      && e'.cache.totalEvicted == a.cache.totalEvicted
      && (forall id :: SM.Known(e'.scheduler, id) <==> SM.Known(e.scheduler, id))
      && e'.scheduler.pending == a.scheduler.pending
      && (a.active == [] ==> e' == a && done == [])
      && (a.active != [] ==>
            && e'.active == Filter(Unfinished(), Decode(b, a).active)
            && done == Finished(Decode(b, a).active)
            && e'.totalIterations == a.totalIterations + 1 && e'.totalTokens == a.totalTokens + |a.active|)
      && (forall s | s in done :: s.finished && Decoded(b, s))
      && e'.totalRequests == e.totalRequests + |done|
  {
    hide Base, InProgress, Solo, SM.Known, Admit, Decode, RetireAll;
    AdmitKeeps(b, e, now);
    var a := Admit(b, e, now);
    if a.active != [] {
      DecodeKeeps(b, a);
      var d := Decode(b, a);
      DecodeFrame(b, a);
      assert NoDup(ActiveIds(d.active)) by { BaseDistinct(b, d); }
      FinishedDistinct(d.active);
      RetireAllKeeps(b, d, Finished(d.active), now);
      FinishedOut(d.active);
      FilterMembers(Unfinished(), d.active);
      FilterMembers(IsFinished(), d.active);
    }
  }
}
