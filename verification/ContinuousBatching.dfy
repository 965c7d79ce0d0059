/** The continuous-batching engine over its scheduler and cache manager, updated in place; every method is tied
    to the engine on values. */
module ContinuousBatching {
  import opened Prelude
  import opened Sampling
  import opened Decoding
  import opened EngineModel
  import opened RequestScheduling
  import opened TokenSampler
  import CM = CacheModel
  import SM = SchedulerModel
  import CacheManagement

  class SequenceState {
    const request: ScheduledRequest
    var inputIds: seq<Token>
    var generatedIds: seq<Token>
    var isFinished: bool
    var finishReason: string

    ghost function Value(): Sequence
      reads this
    {
      Sequence(request.params, inputIds, generatedIds, isFinished, finishReason)
    }

    constructor (request: ScheduledRequest, inputIds: seq<Token>)
      ensures this.request == request && Value() == Start(request.params, inputIds)
    {
      this.request, this.inputIds := request, inputIds;
      generatedIds, isFinished, finishReason := [], false, "";
    }

    function Id(): Id { request.params.id }

    /** Take one sampled token and check for completion. */
    method Append(backend: Backend, token: Token)
      modifies this
      ensures Value() == Advance(backend, old(Value()), token)
    {
      generatedIds := generatedIds + [token];
      inputIds := inputIds + [token];
      if IsEos(backend, token) {
        isFinished := true;
        finishReason := "eos";
      } else if |generatedIds| >= request.params.maxTokens {
        isFinished := true;
        finishReason := "length";
      }
    }
  }

  ghost function States(ss: seq<SequenceState>): (vs: seq<Sequence>)
    reads ss
    ensures |vs| == |ss| && forall i | 0 <= i < |vs| :: vs[i] == ss[i].Value()
  {
    seq(|ss|, i requires 0 <= i < |ss| reads ss => ss[i].Value())
  }

  function RequestsOf(ss: seq<SequenceState>): (rs: seq<ScheduledRequest>)
    ensures |rs| == |ss| && forall i | 0 <= i < |ss| :: rs[i] == ss[i].request
  {
    seq(|ss|, i requires 0 <= i < |ss| => ss[i].request)
  }

  ghost function Objects(ss: seq<SequenceState>): set<SequenceState> {
    set s | s in ss
  }

  lemma {:induction false} RemoveAt(active: seq<Sequence>, k: nat)
    requires k < |active| && forall i, j | 0 <= i < j < |active| :: active[i].Id() != active[j].Id()
    ensures Remove(active, active[k].Id()) == active[..k] + active[k + 1..]
  {
    var init := Init(active);
    if k == |active| - 1 {
      FilterAll(OtherThan(active[k].Id()), init);
    } else {
      RemoveAt(init, k);
      assert init[..k] + init[k + 1..] + [Last(active)] == active[..k] + active[k + 1..];
    }
  }

  lemma {:induction false} DrainEnd(b: Backend, e: Engine, clock: nat -> real, i: nat)
    requires CM.Wf(e.cache)
    ensures Drain(b, e, clock, i, 0) == (e, [])
  {
  }

  lemma {:induction false} CutOne(ss: seq<SequenceState>, k: nat)
    requires k < |ss| && forall i, j | 0 <= i < j < |ss| :: ss[i].Id() != ss[j].Id()
    ensures Objects(ss[..k] + ss[k + 1..]) == Objects(ss) - {ss[k]}
  {
    var cut := ss[..k] + ss[k + 1..];
    forall s | s in ss && s != ss[k] ensures s in cut {
      var i :| 0 <= i < |ss| && ss[i] == s;
      assert i < k ==> cut[i] == s;
      assert i > k ==> cut[i - 1] == s;
    }
  }

  /** One iteration of a drain that has returned the sequences `returned` so far and will end in `all`. */
  lemma {:induction false} DrainNext(b: Backend, e: Engine, clock: nat -> real, i: nat, left: nat,
                                     all: (Engine, seq<Sequence>), returned: seq<Sequence>)
    requires CM.Wf(e.cache) && left > 0
    requires var (last, more) := Drain(b, e, clock, i, left); all.0 == last && all.1 == returned + more
    ensures var (e', done) := EngineModel.Step(b, e, clock(i));
      if Idle(e') then all.0 == e' && all.1 == returned + done
      else var (last, more) := Drain(b, e', clock, i + 1, left - 1); all.0 == last && all.1 == returned + done + more
  {
    hide EngineModel.Step, Idle;
    var (e', done) := EngineModel.Step(b, e, clock(i));
    if !Idle(e') {
      var more := Drain(b, e', clock, i + 1, left - 1).1;
      assert returned + (done + more) == returned + done + more;
    }
  }

  /** `active` is the insertion-ordered dictionary of the batch, as the sequence of its values. */
  class ContinuousBatchingEngine {
    const backend: Backend
    const scheduler: RequestScheduler
    const cacheManager: CacheManagement.CacheManager
    const maxBatchSize: int
    var active: seq<SequenceState>
    var totalRequests: nat
    var totalTokensGenerated: nat
    var totalIterations: nat

    /** The objects in the batch. */
    ghost function Batch(): set<SequenceState>
      reads `active
    {
      Objects(active)
    }

    /** Each id is in the batch once, its request is filed by the scheduler, and no evictable id is without a table. */
    ghost predicate Valid()
      reads this, scheduler, cacheManager, cacheManager.blocks, cacheManager.blockTables.Values
    {
      && scheduler.Valid() && cacheManager.Valid() && cacheManager.Listed()
      && (forall i, j | 0 <= i < j < |active| :: active[i].Id() != active[j].Id())
      && forall s | s in Batch() :: scheduler.IsFiled(s.request)
    }

    ghost function View(): (e: Engine)
      requires Valid()
      reads this, active, scheduler, scheduler.requests, cacheManager, cacheManager.blocks,
        cacheManager.blockTables.Values
      ensures CM.Wf(e.cache) && e.maxBatchSize == maxBatchSize && |e.active| == |active|
    {
      Engine(maxBatchSize, scheduler.View(), cacheManager.View(), States(active), totalRequests,
        totalTokensGenerated, totalIterations)
    }

    constructor (backend: Backend, scheduler: RequestScheduler, cacheManager: CacheManagement.CacheManager,
                 maxBatchSize: int)
      requires scheduler.Valid() && cacheManager.Valid() && cacheManager.Listed()
      ensures this.scheduler == scheduler && this.cacheManager == cacheManager && this.backend == backend
      ensures this.maxBatchSize == maxBatchSize && active == []
      ensures Valid() && View() == NewEngine(maxBatchSize, scheduler.View(), cacheManager.View())
    {
      this.backend, this.scheduler, this.cacheManager, this.maxBatchSize := backend, scheduler, cacheManager,
        maxBatchSize;
      active := [];
      totalRequests, totalTokensGenerated, totalIterations := 0, 0, 0;
    }

    function BatchSize(): nat
      reads this
    {
      |active|
    }

    method SubmitRequest(request: ScheduledRequest) returns (accepted: bool)
      requires Valid() && scheduler.IsUnfiled(request)
      modifies scheduler, request
      ensures scheduler.Owned() && (Valid() <==> !accepted || !old(scheduler.IsKnown(request.Id())))
      ensures (scheduler.View(), accepted) == SM.Submit(old(View()).scheduler, old(request.Value()))
      ensures Valid() ==> View() == EngineModel.Apply(backend, old(View()), SubmitOp(old(request.Value()))).0
    {
      hide RequestScheduler.View, CacheManagement.CacheManager.View, States;
      accepted := scheduler.Submit(request);
    }

    method SetPromptTokens(request: ScheduledRequest, n: nat)
      requires Valid() && scheduler.IsFiled(request)
      modifies request
      ensures Valid()
      ensures View() == old(View()).(scheduler := EngineModel.SetPromptTokens(old(View()).scheduler, request.Id(), n))
    {
      hide RequestScheduler.Valid, RequestScheduler.Owned, RequestScheduler.View, RequestScheduler.IsFiled,
           CacheManagement.CacheManager.Valid, CacheManagement.CacheManager.View, States, SM.Amend, SM.Filed;
      scheduler.FiledValue(request);
      request.promptTokens := n;
      scheduler.FiledChange(request);
    }

    method FailRequest(request: ScheduledRequest, why: string, now: real)
      requires Valid() && scheduler.IsFiled(request)
      modifies request
      ensures Valid()
      ensures View() == old(View()).(scheduler := MarkFailed(old(View()).scheduler, request.Id(), why, now))
    {
      hide RequestScheduler.Valid, RequestScheduler.Owned, RequestScheduler.View, RequestScheduler.IsFiled,
           CacheManagement.CacheManager.Valid, CacheManagement.CacheManager.View, States, SM.Fail;
      scheduler.FiledValue(request);
      scheduler.FailRequest(request, why, now);
    }

    /** Position of an id in the batch, or its size. */
    method ActiveIndex(id: Id) returns (k: nat)
      requires Valid()
      ensures k <= |active| && (k < |active| ==> active[k].Id() == id)
      ensures k < |active| <==> id in ActiveIds(View().active)
      ensures k < |active| <==> exists s :: s in active && s.Id() == id
    {
      k := 0;
      while k < |active| && active[k].Id() != id
        invariant k <= |active| && forall j | 0 <= j < k :: active[j].Id() != id
        decreases |active| - k
      {
        k := k + 1;
      }
      assert forall j | 0 <= j < |active| :: ActiveIds(States(active))[j] == active[j].Id();
    }

    lemma {:induction false} ValidParts()
      requires Valid()
      ensures scheduler.Valid() && cacheManager.Valid() && cacheManager.Listed()
      ensures forall i, j | 0 <= i < j < |active| :: active[i].Id() != active[j].Id()
    {
    }

    /** Only the batch changed, to one with distinct ids whose sequences were already there or are on file. */
    twostate lemma BatchValid()
      requires old(Valid()) && unchanged(scheduler)
      requires scheduler.Valid() && cacheManager.Valid() && cacheManager.Listed()
      requires forall i, j | 0 <= i < j < |active| :: active[i].Id() != active[j].Id()
      requires forall s | s in Batch() :: s in old(Batch()) || scheduler.IsFiled(s.request)
      ensures Valid()
    {
      hide RequestScheduler.Valid, RequestScheduler.Owned, CacheManagement.CacheManager.Valid, RequestScheduler.IsFiled;
    }

    lemma {:induction false} StateOnFile(state: SequenceState)
      requires Valid() && state in Batch()
      ensures scheduler.IsFiled(state.request) && state.request in scheduler.requests
    {
      scheduler.FiledValue(state.request);
    }

    /** Take a sequence out of the batch. */
    method DropActive(k: nat)
      requires Valid() && k < |active|
      modifies this`active
      ensures Valid() && Batch() == old(Batch()) - {old(active)[k]}
      ensures View() == old(View()).(active := Remove(old(View()).active, old(active)[k].Id()))
    {
      hide RequestScheduler.View, RequestScheduler.Valid, RequestScheduler.Owned, RequestScheduler.IsFiled,
           CacheManagement.CacheManager.View, CacheManagement.CacheManager.Valid, CacheManagement.CacheManager.Listed,
           ContinuousBatchingEngine.Valid, Objects, Remove;
      ValidParts();
      RemoveAt(States(active), k);
      CutOne(active, k);
      active := active[..k] + active[k + 1..];
      BatchValid();
      assert States(active) == old(States(active))[..k] + old(States(active))[k + 1..];
    }

    method DropState(state: SequenceState)
      requires Valid() && state in Batch()
      modifies this`active
      ensures Valid() && Batch() == old(Batch()) - {state}
      ensures View() == old(View()).(active := Remove(old(View()).active, state.Id()))
    {
      hide ContinuousBatchingEngine.View, ContinuousBatchingEngine.Valid, Remove;
      ValidParts();
      var k := ActiveIndex(state.Id());
      DropActive(k);
    }

    /** What a method that works on the batch and the cache leaves in place, besides objects it made itself. */
    twostate predicate SameObjects()
      reads this, scheduler, cacheManager
    {
      && scheduler.requests == old(scheduler.requests) && cacheManager.blocks == old(cacheManager.blocks)
      && fresh(cacheManager.blockTables.Values - old(cacheManager.blockTables.Values))
      && fresh(Batch() - old(Batch()))
    }

    // ----- admission -----

    /** False is the MemoryError. */
    method AllocateBlocks(id: Id, numTokens: nat) returns (ok: bool)
      requires Valid()
      modifies cacheManager, cacheManager.blocks, cacheManager.blockTables.Values
      ensures Valid() && SameObjects()
      ensures match CM.Allocate(old(View()).cache, id, numTokens)
        case OutOfMemory => !ok && View() == old(View())
        case Allocated(cache, _) => ok && View() == old(View()).(cache := cache)
    {
      hide CM.Allocate, RequestScheduler.View, RequestScheduler.Valid, RequestScheduler.Owned,
           RequestScheduler.IsFiled, CacheManagement.CacheManager.View, CacheManagement.CacheManager.Valid,
           CacheManagement.CacheManager.Listed, States;
      var table := cacheManager.AllocateSequence(id, numTokens);
      ok := table.Some?;
    }

    method EvictBlocks() returns (outcome: CM.EvictOutcome)
      requires Valid()
      modifies cacheManager, cacheManager.blocks
      ensures Valid() && SameObjects()
      ensures var (cache, victim) := CM.EvictLru(old(View()).cache);
        outcome == victim && !victim.VictimUnknown? && View() == old(View()).(cache := cache)
    {
      hide CM.EvictLru, RequestScheduler.View, RequestScheduler.Valid, RequestScheduler.Owned,
           RequestScheduler.IsFiled, CacheManagement.CacheManager.View, CacheManagement.CacheManager.Valid,
           CacheManagement.CacheManager.Listed, States;
      outcome := cacheManager.EvictLru();
    }

    /** Take an evicted sequence out of the batch and fail its request. */
    method FailVictim(victim: Id, now: real)
      requires Valid()
      modifies this`active, scheduler.requests
      ensures Valid() && SameObjects() && Batch() <= old(Batch())
      ensures var e := old(View());
        View() == if victim in ActiveIds(e.active)
                  then e.(active := Remove(e.active, victim),
                          scheduler := MarkFailed(e.scheduler, victim, EVICTED, now))
                  else e
    {
      hide MarkFailed, Remove, ContinuousBatchingEngine.View, ContinuousBatchingEngine.Valid, RequestScheduler.IsFiled;
      var k := ActiveIndex(victim);
      if k < |active| {
        var state := active[k];
        StateOnFile(state);
        DropState(state);
        FailRequest(state.request, EVICTED, now);
      }
    }

    /** Make room by evicting the least recently used sequence. */
    method EvictVictim(now: real)
      requires Valid()
      modifies this`active, scheduler.requests, cacheManager, cacheManager.blocks
      ensures Valid() && SameObjects() && Batch() <= old(Batch())
      ensures View() == EngineModel.Evict(old(View()), now)
    {
      hide CM.EvictLru, MarkFailed, Remove, ContinuousBatchingEngine.View, ContinuousBatchingEngine.Valid, ActiveIds;
      var outcome := EvictBlocks();
      if outcome.Evicted? && outcome.victim.name != "" {
        FailVictim(outcome.victim, now);
      }
    }

    /** Allocate; out of memory, evict one sequence and try once more. */
    method FindRoom(id: Id, numTokens: nat, now: real) returns (ok: bool)
      requires Valid()
      modifies this`active, scheduler.requests, cacheManager, cacheManager.blocks, cacheManager.blockTables.Values
      ensures Valid() && SameObjects() && Batch() <= old(Batch())
      ensures match CM.Allocate(old(View()).cache, id, numTokens)
        case Allocated(cache, _) => ok && View() == old(View()).(cache := cache)
        case OutOfMemory =>
          var e := EngineModel.Evict(old(View()), now);
          match CM.Allocate(e.cache, id, numTokens)
          case Allocated(cache, _) => ok && View() == e.(cache := cache)
          case OutOfMemory => !ok && View() == e
    {
      hide EngineModel.Evict, CM.Allocate, ContinuousBatchingEngine.View;
      ok := AllocateBlocks(id, numTokens);
      if !ok {
        EvictVictim(now);
        ok := AllocateBlocks(id, numTokens);
      }
    }

    method AddState(state: SequenceState)
      requires Valid() && scheduler.IsFiled(state.request) && forall s | s in Batch() :: s.Id() != state.Id()
      modifies this`active
      ensures Valid() && Batch() == old(Batch()) + {state}
      ensures View() == old(View()).(active := old(View()).active + [state.Value()])
    {
      hide RequestScheduler.IsFiled, RequestScheduler.View, RequestScheduler.Valid, RequestScheduler.Owned,
           CacheManagement.CacheManager.View, CacheManagement.CacheManager.Valid, CacheManagement.CacheManager.Listed,
           ContinuousBatchingEngine.Valid;
      ValidParts();
      active := active + [state];
      BatchValid();
      assert States(active) == old(States(active)) + [state.Value()];
    }

    method JoinBatch(request: ScheduledRequest, inputIds: seq<Token>)
      requires Valid() && scheduler.IsFiled(request) && forall s | s in Batch() :: s.Id() != request.Id()
      modifies this`active
      ensures Valid() && SameObjects() && forall s | s in Batch() :: s in old(Batch()) || s.Id() == request.Id()
      ensures View() == old(View()).(active := old(View()).active + [Start(request.params, inputIds)])
    {
      hide RequestScheduler.IsFiled, RequestScheduler.View, CacheManagement.CacheManager.View, RequestScheduler.Valid,
           RequestScheduler.Owned, CacheManagement.CacheManager.Valid, States, ContinuousBatchingEngine.Batch;
      var state := new SequenceState(request, inputIds);
      AddState(state);
    }

    /** A request whose prompt is encoded joins the batch if there is room for it, and fails otherwise. */
    method PlaceRequest(request: ScheduledRequest, inputIds: seq<Token>, now: real)
      requires Valid() && scheduler.IsFiled(request) && forall s | s in Batch() :: s.Id() != request.Id()
      modifies this`active, scheduler.requests, cacheManager, cacheManager.blocks, cacheManager.blockTables.Values
      ensures Valid() && SameObjects() && forall s | s in Batch() :: s in old(Batch()) || s.Id() == request.Id()
      ensures match CM.Allocate(old(View()).cache, request.Id(), |inputIds|)
        case Allocated(cache, _) => View() == Join(old(View()), request.params, inputIds, cache)
        case OutOfMemory =>
          var e := EngineModel.Evict(old(View()), now);
          match CM.Allocate(e.cache, request.Id(), |inputIds|)
          case Allocated(cache, _) => View() == Join(e, request.params, inputIds, cache)
          case OutOfMemory => View() == Refuse(e, request.params, now)
    {
      hide MarkFailed, EngineModel.Evict, CM.Allocate, ContinuousBatchingEngine.View,
           CacheManagement.CacheManager.Valid;
      var ok := FindRoom(request.Id(), |inputIds|, now);
      if ok {
        JoinBatch(request, inputIds);
      } else {
        FailRequest(request, NO_MEMORY, now);
      }
    }

    /** One round of the admission loop. */
    method AdmitRequest(request: ScheduledRequest, now: real)
      requires Valid() && scheduler.IsFiled(request) && forall s | s in Batch() :: s.Id() != request.Id()
      modifies this`active, scheduler.requests, cacheManager, cacheManager.blocks, cacheManager.blockTables.Values
      ensures Valid() && SameObjects() && forall s | s in Batch() :: s in old(Batch()) || s.Id() == request.Id()
      ensures View() == AdmitOne(backend, old(View()), request.params, now)
    {
      hide Encode, EngineModel.SetPromptTokens, MarkFailed, EngineModel.Evict, CM.Allocate,
           ContinuousBatchingEngine.View, CacheManagement.CacheManager.Valid, Join, Refuse;
      var inputIds := Encode(backend, request.params.prompt);
      SetPromptTokens(request, |inputIds|);
      PlaceRequest(request, inputIds, now);
    }

    /** Pull the next batch; its requests are on file and none of them is in the batch yet. */
    /** The sequences of the batch are on file, and none waits in the queue. */
    lemma {:induction false} WaitingApart()
      requires Valid()
      ensures forall s | s in Batch() :: s.request in scheduler.requests && scheduler.IsFiled(s.request)
      ensures forall r, s | r in scheduler.pending && s in Batch() :: s.Id() != r.Id()
    {
    }

    method TakeBatch(now: real, slots: nat) returns (batch: seq<ScheduledRequest>)
      requires Valid()
      modifies scheduler, scheduler.requests
      ensures Valid() && SameObjects() && scheduler.StaysFiled()
      ensures var (s, rs) := SM.GetNextBatch(old(View()).scheduler, now, slots);
        && View() == old(View()).(scheduler := s)
        && |batch| == |rs| && forall i | 0 <= i < |batch| :: batch[i].params == rs[i].params
      ensures forall r | r in batch :: scheduler.IsFiled(r) && forall s | s in Batch() :: s.Id() != r.Id()
      ensures forall i, j | 0 <= i < j < |batch| :: batch[i].Id() != batch[j].Id()
    {
      hide SM.GetNextBatch, RequestScheduler.View, RequestScheduler.Valid, RequestScheduler.Owned,
           CacheManagement.CacheManager.View, CacheManagement.CacheManager.Valid, CacheManagement.CacheManager.Listed,
           States;
      WaitingApart();
      batch := scheduler.GetNextBatch(now, slots);
    }

    method AdmitBatch(batch: seq<ScheduledRequest>, now: real, ghost ps: seq<Params>)
      requires Valid() && |ps| == |batch| && forall i | 0 <= i < |batch| :: batch[i].params == ps[i]
      requires forall r | r in batch :: scheduler.IsFiled(r) && forall s | s in Batch() :: s.Id() != r.Id()
      requires forall i, j | 0 <= i < j < |batch| :: batch[i].Id() != batch[j].Id()
      modifies this`active, scheduler.requests, cacheManager, cacheManager.blocks, cacheManager.blockTables.Values
      ensures Valid() && SameObjects()
      ensures View() == AdmitAll(backend, old(View()), ps, now)
    {
      hide AdmitOne, ContinuousBatchingEngine.View, RequestScheduler.IsFiled;
      for i := 0 to |batch|
        invariant Valid() && SameObjects()
        invariant forall j | i <= j < |batch| :: forall s | s in Batch() :: s.Id() != batch[j].Id()
        invariant View() == AdmitAll(backend, old(View()), ps[..i], now)
      {
        assert Init(ps[..i + 1]) == ps[..i];
        AdmitRequest(batch[i], now);
      }
      assert ps[..|ps|] == ps;
    }

    /** Fill the free places of the batch from the queue. */
    method AdmitNewSequences(now: real)
      requires Valid()
      modifies this`active, scheduler, scheduler.requests, cacheManager, cacheManager.blocks,
        cacheManager.blockTables.Values
      ensures Valid() && SameObjects() && scheduler.StaysFiled()
      ensures View() == Admit(backend, old(View()), now)
    {
      hide AdmitAll, SM.GetNextBatch, ContinuousBatchingEngine.View;
      var slots := maxBatchSize - BatchSize();
      if slots <= 0 {
        return;
      }
      var batch := TakeBatch(now, slots);
      AdmitBatch(batch, now, ParamsOf(SM.GetNextBatch(old(View()).scheduler, now, slots).1));
    }

    // ----- one forward pass -----

    /** Right-pad the active rows to a common length. */
    method PrepareBatchInputs() returns (rows: seq<seq<Token>>)
      requires Valid()
      ensures rows == Rows(backend, View().active)
    {
      hide ContinuousBatchingEngine.Valid, RequestScheduler.View, CacheManagement.CacheManager.View;
      ghost var vs := States(active);
      var maxLen := 0;
      for i := 0 to |active|
        invariant maxLen == MaxLen(vs[..i])
      {
        assert Init(vs[..i + 1]) == vs[..i];
        maxLen := Max(maxLen, |active[i].inputIds|);
      }
      assert vs[..|vs|] == vs;
      rows := [];
      for i := 0 to |active|
        invariant |rows| == i && forall j | 0 <= j < i :: rows[j] == Pad(vs[j].inputIds, maxLen, PadToken(backend))
      {
        var ids := active[i].inputIds;
        rows := rows + [ids + seq(CM.Monus(maxLen, |ids|), k => PadToken(backend))];
      }
    }

    method SampleToken(p: Params, logits: seq<real>, drawIndex: nat) returns (token: Token)
      ensures token == Sample(backend, p, logits, drawIndex)
    {
      var probs := NextDistribution(backend.exp, logits, p.temperature, p.topK, p.topP);
      if Clamp(p.temperature) < GREEDY_BELOW {
        token := ArgmaxOf(probs);
      } else {
        token := backend.draw(drawIndex, probs);
      }
    }

    /** Sample one row at its last real position, with the parameters of its own request. */
    method SampleRow(i: nat, logits: seq<seq<real>>) returns (token: Token)
      requires Valid() && i < |active| && logits == backend.forward(Rows(backend, View().active)[i])
      ensures token == RowToken(backend, View().active, View().totalTokens, i)
    {
      hide Sample, Rows, At, RequestScheduler.View, CacheManagement.CacheManager.View, ContinuousBatchingEngine.Valid;
      token := SampleToken(active[i].request.params, At(logits, |active[i].inputIds| - 1), totalTokensGenerated + i);
    }

    method SampleTokens(logits: seq<seq<seq<real>>>) returns (tokens: seq<Token>)
      requires Valid() && |logits| == |active|
      requires forall i | 0 <= i < |active| :: logits[i] == backend.forward(Rows(backend, View().active)[i])
      ensures tokens == NextTokens(backend, View().active, View().totalTokens)
    {
      hide RowToken, Rows, ContinuousBatchingEngine.Valid, ContinuousBatchingEngine.View;
      tokens := [];
      for i := 0 to |active|
        invariant |tokens| == i
        invariant forall j | 0 <= j < i :: tokens[j] == RowToken(backend, View().active, View().totalTokens, j)
      {
        var token := SampleRow(i, logits[i]);
        tokens := tokens + [token];
      }
    }

    /** Hand each sequence its token. */
    method AppendTokens(tokens: seq<Token>)
      requires |tokens| == |active| && forall i, j | 0 <= i < j < |active| :: active[i] != active[j]
      modifies this`totalTokensGenerated, Batch()
      ensures States(active) == AdvanceAll(backend, old(States(active)), tokens)
      ensures totalTokensGenerated == old(totalTokensGenerated) + |tokens|
    {
      hide Advance;
      for i := 0 to |active|
        invariant totalTokensGenerated == old(totalTokensGenerated) + i
        invariant forall j | 0 <= j < i :: active[j].Value() == Advance(backend, old(active[j].Value()), tokens[j])
        invariant forall j | i <= j < |active| :: active[j].Value() == old(active[j].Value())
      {
        active[i].Append(backend, tokens[i]);
        totalTokensGenerated := totalTokensGenerated + 1;
      }
    }

    method ProcessTokens(tokens: seq<Token>)
      requires Valid() && |tokens| == |active|
      modifies this`totalTokensGenerated, Batch()
      ensures Valid() && SameObjects() && active == old(active)
      ensures View() == old(View()).(
        active := AdvanceAll(backend, old(View()).active, tokens), totalTokens := old(View()).totalTokens + |tokens|)
    {
      hide AdvanceAll, RequestScheduler.View, CacheManagement.CacheManager.View, RequestScheduler.Valid,
           RequestScheduler.Owned, CacheManagement.CacheManager.Valid, CacheManagement.CacheManager.Listed, States,
           RequestScheduler.IsFiled;
      AppendTokens(tokens);
    }

    method CountIteration()
      requires Valid()
      modifies this`totalIterations
      ensures Valid() && View() == old(View()).(totalIterations := old(View()).totalIterations + 1)
    {
      hide RequestScheduler.Valid, RequestScheduler.Owned, RequestScheduler.View, CacheManagement.CacheManager.Valid,
           CacheManagement.CacheManager.View, States;
      totalIterations := totalIterations + 1;
    }

    method DecodeBatch()
      requires Valid()
      modifies this`totalIterations, this`totalTokensGenerated, Batch()
      ensures Valid() && SameObjects() && active == old(active)
      ensures View() == EngineModel.Decode(backend, old(View()))
    {
      hide Rows, NextTokens, AdvanceAll, ContinuousBatchingEngine.View, ContinuousBatchingEngine.Valid, Objects;
      CountIteration();
      var rows := PrepareBatchInputs();
      var logits := seq(|rows|, i requires 0 <= i < |rows| => backend.forward(rows[i]));
      var tokens := SampleTokens(logits);
      ProcessTokens(tokens);
    }

    // ----- retiring finished sequences -----

    method FinishedStates() returns (done: seq<SequenceState>)
      requires Valid()
      ensures States(done) == Finished(View().active)
      ensures forall s | s in done :: s in Batch()
      ensures forall i, j | 0 <= i < j < |done| :: done[i] != done[j]
    {
      ghost var vs := States(active);
      done := [];
      for i := 0 to |active|
        invariant States(done) == Filter(IsFinished(), vs[..i])
        invariant forall s | s in done :: s in active[..i]
        invariant forall k, j | 0 <= k < j < |done| :: done[k] != done[j]
      {
        assert Init(vs[..i + 1]) == vs[..i];
        if active[i].isFinished {
          assert active[i] !in active[..i];
          done := done + [active[i]];
        }
      }
      assert vs[..|vs|] == vs;
    }

    method CompleteRequest(id: Id, text: string, tokens: nat, now: real)
      requires Valid()
      modifies scheduler, scheduler.requests
      ensures Valid() && SameObjects() && scheduler.StaysFiled()
      ensures View() == old(View()).(scheduler := SM.Complete(old(View()).scheduler, id, text, tokens, now))
    {
      hide RequestScheduler.View, RequestScheduler.Valid, RequestScheduler.Owned, RequestScheduler.IsFiled,
           CacheManagement.CacheManager.View, CacheManagement.CacheManager.Valid, CacheManagement.CacheManager.Listed,
           States;
      forall s | s in Batch() ensures s.request in scheduler.requests {
        StateOnFile(s);
      }
      scheduler.CompleteRequest(id, text, tokens, now);
    }

    method FreeBlocks(id: Id)
      requires Valid()
      modifies cacheManager, cacheManager.blocks
      ensures Valid() && SameObjects()
      ensures View() == old(View()).(cache := CM.Free(old(View()).cache, id))
    {
      hide RequestScheduler.View, RequestScheduler.Valid, RequestScheduler.Owned, RequestScheduler.IsFiled,
           CacheManagement.CacheManager.View, CacheManagement.CacheManager.Valid, CacheManagement.CacheManager.Listed,
           States, CM.Free;
      cacheManager.FreeSequence(id);
    }

    method CountRequest()
      requires Valid()
      modifies this`totalRequests
      ensures Valid() && View() == old(View()).(totalRequests := old(View()).totalRequests + 1)
    {
      hide RequestScheduler.Valid, RequestScheduler.Owned, RequestScheduler.View, CacheManagement.CacheManager.Valid,
           CacheManagement.CacheManager.View, States;
      totalRequests := totalRequests + 1;
    }

    /** File a finished request, give its blocks back and count it. */
    method SettleRequest(id: Id, text: string, tokens: nat, now: real)
      requires Valid()
      modifies this`totalRequests, scheduler, scheduler.requests, cacheManager, cacheManager.blocks
      ensures Valid() && SameObjects() && scheduler.StaysFiled()
      ensures View() == old(View()).(
        scheduler := SM.Complete(old(View()).scheduler, id, text, tokens, now),
        cache := CM.Free(old(View()).cache, id),
        totalRequests := old(View()).totalRequests + 1)
    {
      hide ContinuousBatchingEngine.View, CM.Free, SM.Complete, RequestScheduler.IsFiled, RequestScheduler.Valid,
           RequestScheduler.Owned, CacheManagement.CacheManager.Valid;
      CompleteRequest(id, text, tokens, now);
      FreeBlocks(id);
      CountRequest();
    }

    /** Pop one finished sequence, complete its request and give its blocks back. */
    method RetireSequence(state: SequenceState, now: real)
      requires Valid() && state in Batch()
      modifies this`active, this`totalRequests, scheduler, scheduler.requests, cacheManager, cacheManager.blocks
      ensures Valid() && SameObjects() && scheduler.StaysFiled() && Batch() == old(Batch()) - {state}
      ensures View() == RetireOne(backend, old(View()), state.Value(), now)
    {
      hide ContinuousBatchingEngine.View, ContinuousBatchingEngine.Valid, ContinuousBatchingEngine.Batch, CM.Free,
           SM.Complete, Remove;
      DropState(state);
      SettleRequest(state.Id(), backend.decode(state.generatedIds, true), |state.generatedIds|, now);
    }

    /** The requests of the sequences in the batch are on file. */
    lemma {:induction false} BatchIsFiled(ss: seq<SequenceState>)
      requires Valid() && forall s | s in ss :: s in Batch()
      ensures scheduler.AllFiled(RequestsOf(ss))
    {
    }

    lemma {:induction false} RetireNone(e: Engine, now: real)
      requires CM.Wf(e.cache)
      ensures RetireAll(backend, e, [], now) == e
    {
    }

    lemma {:induction false} RetireOneMore(e: Engine, done: seq<Sequence>, i: nat, now: real)
      requires CM.Wf(e.cache) && i < |done|
      ensures RetireAll(backend, e, done[..i + 1], now)
           == RetireOne(backend, RetireAll(backend, e, done[..i], now), done[i], now)
    {
      assert Init(done[..i + 1]) == done[..i];
    }

    method RetireEach(finished: seq<SequenceState>, now: real, ghost done: seq<Sequence>)
      requires Valid() && done == States(finished)
      requires forall s | s in finished :: s in Batch()
      requires forall i, j | 0 <= i < j < |finished| :: finished[i] != finished[j]
      modifies this`active, this`totalRequests, scheduler, scheduler.requests, cacheManager, cacheManager.blocks
      ensures Valid() && SameObjects() && scheduler.StaysFiled() && scheduler.AllFiled(RequestsOf(finished))
      ensures View() == RetireAll(backend, old(View()), done, now)
    {
      hide ContinuousBatchingEngine.View, ContinuousBatchingEngine.Valid, ContinuousBatchingEngine.Batch, RetireOne,
           RetireAll, RequestScheduler.AllFiled, RequestScheduler.IsFiled, RequestsOf;
      BatchIsFiled(finished);
      RetireNone(View(), now);
      for i := 0 to |finished|
        invariant Valid() && SameObjects() && scheduler.StaysFiled()
        invariant forall j | i <= j < |finished| :: finished[j] in Batch()
        invariant View() == RetireAll(backend, old(View()), done[..i], now)
      {
        RetireOneMore(old(View()), done, i, now);
        RetireSequence(finished[i], now);
      }
      assert done[..|done|] == done;
      scheduler.AllStayFiled(RequestsOf(finished));
    }

    /** These are the requests of those sequences, in order, and each is the object on record. */
    ghost predicate Answers(completed: seq<ScheduledRequest>, done: seq<Sequence>)
      reads scheduler
    {
      && |completed| == |done| && (forall i | 0 <= i < |done| :: completed[i].params == done[i].params)
      && scheduler.AllFiled(completed)
    }

    method RetireFinished(now: real) returns (completed: seq<ScheduledRequest>)
      requires Valid()
      modifies this`active, this`totalRequests, scheduler, scheduler.requests, cacheManager, cacheManager.blocks
      ensures Valid() && SameObjects() && scheduler.StaysFiled()
      ensures var done := Finished(old(View()).active);
        View() == RetireAll(backend, old(View()), done, now) && Answers(completed, done)
    {
      hide ContinuousBatchingEngine.View, ContinuousBatchingEngine.Valid, RetireAll, Finished,
           RequestScheduler.AllFiled, RequestScheduler.IsFiled;
      var finished := FinishedStates();
      RetireEach(finished, now, States(finished));
      completed := RequestsOf(finished);
    }

    // ----- iterations -----

    /** One iteration: admit, decode one token for each active sequence, retire what finished. */
    method Step(now: real) returns (completed: seq<ScheduledRequest>)
      requires Valid()
      modifies this, Batch(), scheduler, scheduler.requests, cacheManager, cacheManager.blocks,
        cacheManager.blockTables.Values
      ensures Valid() && SameObjects() && scheduler.StaysFiled()
      ensures var (e, done) := EngineModel.Step(backend, old(View()), now);
        View() == e && Answers(completed, done)
    {
      hide RequestScheduler.IsFiled, Admit, EngineModel.Decode, RetireAll, Finished, ContinuousBatchingEngine.View;
      AdmitNewSequences(now);
      if active == [] {
        return [];
      }
      DecodeBatch();
      completed := RetireFinished(now);
    }

    lemma {:induction false} AnswersAppend(xs: seq<ScheduledRequest>, ys: seq<ScheduledRequest>, done: seq<Sequence>,
                                           more: seq<Sequence>)
      requires Answers(xs, done) && Answers(ys, more)
      ensures Answers(xs + ys, done + more)
    {
    }

    method IsIdle() returns (idle: bool)
      requires Valid()
      ensures idle == Idle(View())
    {
      idle := |scheduler.pending| == 0 && BatchSize() == 0;
    }

    /** Step once and put what it completed behind what was completed before. */
    method StepAndCollect(now: real, sofar: seq<ScheduledRequest>, ghost returned: seq<Sequence>)
      returns (all: seq<ScheduledRequest>)
      requires Valid() && Answers(sofar, returned)
      modifies this, Batch(), scheduler, scheduler.requests, cacheManager, cacheManager.blocks,
        cacheManager.blockTables.Values
      ensures Valid() && SameObjects()
      ensures var (e, done) := EngineModel.Step(backend, old(View()), now);
        View() == e && Answers(all, returned + done)
    {
      hide EngineModel.Step, ContinuousBatchingEngine.View, ContinuousBatchingEngine.Valid,
           RequestScheduler.StaysFiled, RequestScheduler.AllFiled;
      ghost var done := EngineModel.Step(backend, View(), now).1;
      var completed := Step(now);
      scheduler.AllStayFiled(sofar);
      AnswersAppend(sofar, completed, returned, done);
      all := sofar + completed;
    }

    lemma {:induction false} NoAnswers()
      ensures Answers([], [])
    {
    }

    /** Step until nothing is pending or active, at most ten thousand times; iteration i happens at clock(i). */
    method RunUntilEmpty(clock: nat -> real) returns (allCompleted: seq<ScheduledRequest>)
      requires Valid()
      modifies this, Batch(), scheduler, scheduler.requests, cacheManager, cacheManager.blocks,
        cacheManager.blockTables.Values
      ensures Valid() && SameObjects()
      ensures var (e, returned) := EngineModel.RunUntilEmpty(backend, old(View()), clock);
        View() == e && Answers(allCompleted, returned)
    {
      hide EngineModel.Step, ContinuousBatchingEngine.View, ContinuousBatchingEngine.Answers,
           RequestScheduler.StaysFiled, Drain, Idle, ContinuousBatchingEngine.Valid;
      allCompleted := [];
      ghost var all := EngineModel.RunUntilEmpty(backend, View(), clock);
      ghost var returned: seq<Sequence> := [];
      NoAnswers();
      assert all.1 == [] + all.1;
      for i := 0 to MAX_ITERATIONS
        invariant Valid() && SameObjects() && Answers(allCompleted, returned)
        invariant var (e, more) := Drain(backend, View(), clock, i, MAX_ITERATIONS - i);
          all.0 == e && all.1 == returned + more
      {
        DrainNext(backend, View(), clock, i, MAX_ITERATIONS - i, all, returned);
        ghost var done := EngineModel.Step(backend, View(), clock(i)).1;
        allCompleted := StepAndCollect(clock(i), allCompleted, returned);
        returned := returned + done;
        var idle := IsIdle();
        if idle {
          return;
        }
      }
      DrainEnd(backend, View(), clock, MAX_ITERATIONS);
      assert returned + [] == returned;
    }
  }
}
