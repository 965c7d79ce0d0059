/** What one admission writes on the requests and gives to the batch and the cache, in terms of the tokenizer. */
module EngineRequests {
  import opened Prelude
  import opened Decoding
  import opened EngineModel
  import opened EngineInvariant
  import opened EngineAdmission
  import opened EngineSteps
  import CM = CacheModel
  import CI = CacheInvariant
  import CS = CacheSafety
  import SM = SchedulerModel
  import SB = SchedulerBatches
  import SF = SchedulerFields
  import SH = SchedulerHistory

  /** The request that has left the queue under an id. */
  function Record(s: SM.Scheduler, id: Id): Option<SM.Request> {
    if id in s.running then Some(s.running[id])
    else if id in s.completed then Some(s.completed[id])
    else None
  }

  function FailedAt(r: Option<SM.Request>, why: string, now: real): Option<SM.Request> {
    if r.None? then None
    else Some(r.value.(status := SM.FAILED, completedAt := Some(now), error := Some(why)))
  }

  lemma {:induction false} PromptRecord(s: SM.Scheduler, id: Id, n: nat)
    requires Knows(s, id)
    ensures forall x ::
      Record(SetPromptTokens(s, id, n), x) ==
        if x == id then Some(Record(s, id).value.(promptTokens := n)) else Record(s, x)
  {
  }

  lemma {:induction false} FailedRecord(s: SM.Scheduler, id: Id, why: string, now: real)
    requires Knows(s, id)
    ensures forall x ::
      Record(MarkFailed(s, id, why, now), x) == if x == id then FailedAt(Record(s, id), why, now) else Record(s, x)
  {
  }

  lemma {:induction false} EvictionMarks(b: Backend, e: Engine, now: real)
    requires CM.Wf(e.cache) && Core(b, e)
    ensures e.active == [] ==> Evict(e, now).scheduler == e.scheduler
    ensures e.active != [] ==>
      Knows(e.scheduler, e.active[0].Id()) &&
      Evict(e, now).scheduler == MarkFailed(e.scheduler, e.active[0].Id(), "Evicted due to memory pressure", now)
  {
    hide CI.Inv, CM.TokensToBlocks, SH.Inv, Outputs, InProgress, CM.EvictLru, MarkFailed, NoDup;
    CS.EvictSafe(e.cache);
    if e.active != [] {
      var victim := e.active[0].Id();
      assert e.cache.order[0] == victim && e.active[0] in e.active;
      assert victim.name != "" by { assert SM.Known(e.scheduler, victim); }
      IdIsActive(e.active, victim);
    }
  }

  lemma {:induction false} EvictionRecords(b: Backend, e: Engine, now: real)
    requires CM.Wf(e.cache) && Core(b, e)
    ensures forall x ::
      Record(Evict(e, now).scheduler, x) ==
        if e.active != [] && x == e.active[0].Id()
        then FailedAt(Record(e.scheduler, x), "Evicted due to memory pressure", now)
        else Record(e.scheduler, x)
  {
    hide Core, Evict, MarkFailed, Record, FailedAt;
    EvictionMarks(b, e, now);
    if e.active != [] {
      FailedRecord(e.scheduler, e.active[0].Id(), "Evicted due to memory pressure", now);
    }
  }

  /** Blocks for a token count, and the blocks of the sequence that an eviction would take. */
  function BlocksFor(n: nat, blockSize: Pos): nat { (n + blockSize - 1) / blockSize }

  function OldestBlocks(e: Engine): nat {
    if e.active != [] && e.active[0].Id() in e.cache.tables then |e.cache.tables[e.active[0].Id()]| else 0
  }

  /** The batch after an admission that asks for `need` blocks, and who left it. */
  ghost predicate BatchAfter(e: Engine, e': Engine, start: Sequence, need: nat) {
    var rest := if e.active == [] then [] else e.active[1..];
    e'.active == if need <= |e.cache.free| then e.active + [start]
                 else if e.active != [] && need <= |e.cache.free| + OldestBlocks(e) then rest + [start]
                 else rest
  }

  /** The record of every request after the admission. */
  ghost predicate RecordsAfter(e: Engine, e': Engine, p: Params, n: nat, need: nat, now: real) {
    var full := need > |e.cache.free|;
    var refused := full && (e.active == [] || need > |e.cache.free| + OldestBlocks(e));
    var asked := if Record(e.scheduler, p.id).Some? then Some(Record(e.scheduler, p.id).value.(promptTokens := n))
                 else None;
    forall x ::
      Record(e'.scheduler, x) ==
        if x == p.id then if refused then FailedAt(asked, "Insufficient KV-cache memory", now) else asked
        else if full && e.active != [] && x == e.active[0].Id()
          then FailedAt(Record(e.scheduler, x), "Evicted due to memory pressure", now)
        else Record(e.scheduler, x)
  }

  lemma {:induction false} FitLiterally(b: Backend, e: Engine, p: Params)
    requires CM.Wf(e.cache) && Core(b, e)
    ensures var need := BlocksFor(Min(|b.encode(p.prompt)|, 1024), e.cache.blockSize);
      && (FitsNow(b, e, p) <==> need <= |e.cache.free|)
      && (FitsAfterEviction(b, e, p) <==> e.active != [] && need <= |e.cache.free| + OldestBlocks(e))
  {
    hide Encode, CM.TokensToBlocks, Core, CI.Inv, CM.Wf;
    EncodeIsTruncation(b, p.prompt);
    CI.TokensToBlocksFormula(|Encode(b, p.prompt)|, e.cache.blockSize);
    CoreParts(b, e);
    if e.active != [] {
      assert e.cache.order[0] == e.active[0].Id() && ActiveIds(e.active)[0] == e.active[0].Id();
    }
  }

  lemma {:induction false} AdmittedRecords(b: Backend, e: Engine, p: Params, now: real)
    requires CM.Wf(e.cache) && Core(b, e) && Ready(e, p)
    ensures var n := Min(|b.encode(p.prompt)|, 1024);
      RecordsAfter(e, AdmitOne(b, e, p, now), p, n, BlocksFor(n, e.cache.blockSize), now)
  {
    hide Core, Encode, CM.Allocate, SetPromptTokens, MarkFailed, Evict, FailedAt, FitsNow, FitsAfterEviction,
         AdmitOne, OldestBlocks, BlocksFor;
    EncodeIsTruncation(b, p.prompt);
    FitLiterally(b, e, p);
    var n := |Encode(b, p.prompt)|;
    var e0 := e.(scheduler := SetPromptTokens(e.scheduler, p.id, n));
    PromptRecord(e.scheduler, p.id, n);
    PromptTokensKeep(b, e, p);
    EvictionRecords(b, e0, now);
    AdmitOneCases(b, e, p, now);
    NotYetActive(e, p);
    if e.active != [] {
      assert ActiveIds(e.active)[0] == e.active[0].Id();
    }
    if !FitsNow(b, e, p) {
      EvictionMoves(b, e, p, now);
      var e1 := Evict(e0, now);
      FailedRecord(e1.scheduler, p.id, "Insufficient KV-cache memory", now);
    }
  }

  lemma {:induction false} StoredPrompt(b: Backend, e: Engine, p: Params, now: real)
    requires CM.Wf(e.cache) && Core(b, e) && Ready(e, p)
    ensures var e', n := AdmitOne(b, e, p, now), Min(|b.encode(p.prompt)|, 1024);
      p.id in ActiveIds(e'.active) ==>
        p.id in e'.cache.tables && |e'.cache.tables[p.id]| == BlocksFor(n, e.cache.blockSize)
        && CS.Tokens(e'.cache, p.id) == n
  {
    hide InProgress, SH.Inv, CI.Inv, Outputs, AdmitOne, FitsNow, FitsAfterEviction, Encode, CM.TokensToBlocks,
         CS.Tokens;
    EncodeIsTruncation(b, p.prompt);
    AdmissionOutcome(b, e, p, now);
    NotYetActive(e, p);
    CI.TokensToBlocksFormula(|Encode(b, p.prompt)|, e.cache.blockSize);
    var e' := AdmitOne(b, e, p, now);
    if p.id in ActiveIds(e'.active) {
      IdIsActive(e'.active, p.id);
      var s :| s in e'.active && s.Id() == p.id;
      IdIsActive(e.active, p.id);
    }
  }

  /** One admission in full. The request asks for the blocks of its prompt, cut at 1024 tokens, and starts from
      exactly that prompt. It joins when they are free, or once the oldest sequence is evicted; the evicted and
      the refused request are failed, each with its own error, and no other record changes. */
  lemma {:induction false} AdmissionInFull(b: Backend, e: Engine, p: Params, now: real)
    requires CM.Wf(e.cache) && Core(b, e) && Ready(e, p)
    ensures var e', ids := AdmitOne(b, e, p, now), b.encode(p.prompt);
      var n := Min(|ids|, 1024);
      var need := BlocksFor(n, e.cache.blockSize);
      && BatchAfter(e, e', Sequence(p, ids[..n], [], false, ""), need)
      && RecordsAfter(e, e', p, n, need, now)
      && (p.id in ActiveIds(e'.active) ==>
            p.id in e'.cache.tables && |e'.cache.tables[p.id]| == need && CS.Tokens(e'.cache, p.id) == n)
  {
    hide Core, Encode, AdmitOne, FitsNow, FitsAfterEviction, OldestBlocks, BlocksFor, RecordsAfter, StatusMoves,
         SameShape, CM.TokensToBlocks, CS.Tokens;
    EncodeIsTruncation(b, p.prompt);
    FitLiterally(b, e, p);
    AdmittedRecords(b, e, p, now);
    AdmissionOutcome(b, e, p, now);
    if FitsNow(b, e, p) {
      AdmitFits(b, e, p, now);
    } else if FitsAfterEviction(b, e, p) {
      AdmitAfterEviction(b, e, p, now);
    } else {
      AdmitRefused(b, e, p, now);
    }
    assert Encode(b, p.prompt) == b.encode(p.prompt)[..|Encode(b, p.prompt)|];
    StoredPrompt(b, e, p, now);
  }

  /** A full engine admits nobody and asks the queue for nothing. */
  lemma {:induction false} FullAdmitsNobody(b: Backend, e: Engine, now: real)
    requires CM.Wf(e.cache) && |e.active| >= e.maxBatchSize
    ensures Admit(b, e, now) == e
  {
  }

  lemma {:induction false} JoinedOrFailed(e: Engine, e': Engine, ps: seq<Params>)
    requires StatusMovesAll(e, e', IdsOf(ps))
    ensures forall i | 0 <= i < |ps| ::
      ps[i].id in ActiveIds(e'.active) || StatusOf(e'.scheduler, ps[i].id) == SM.FAILED
  {
    hide StatusOf;
    forall i | 0 <= i < |ps|
      ensures ps[i].id in ActiveIds(e'.active) || StatusOf(e'.scheduler, ps[i].id) == SM.FAILED
    {
      assert ps[i].id in IdsOf(ps);
    }
  }

  lemma {:induction false} Newcomers(b: Backend, active: seq<Sequence>, ps: seq<Params>, active': seq<Sequence>)
    requires FromBatch(b, active, ps, active')
    ensures forall s | s in active' && s !in active ::
      && s == Sequence(s.params, Truncated(b.encode(s.params.prompt)), [], false, "")
      && exists i :: 0 <= i < |ps| && ps[i] == s.params
  {
    hide Encode, Truncated;
    forall s | s in active' && s !in active
      ensures s == Sequence(s.params, Truncated(b.encode(s.params.prompt)), [], false, "")
    {
      EncodedIsTruncated(b, s.params.prompt);
    }
  }

  /** The queue hands over the first of those in time, in the order of service, one for each free slot. Each of
      them joins the batch or is failed; the others wait on; and whoever joins starts from its own prompt with
      nothing generated. */
  lemma {:induction false} AdmitInFull(b: Backend, e: Engine, now: real) returns (queue: seq<SM.Request>)
    requires CM.Wf(e.cache) && Inv(b, e) && |e.active| < e.maxBatchSize
    ensures var e', n := Admit(b, e, now), Min(e.maxBatchSize - |e.active|, |queue|);
      && SF.ServiceOrderOf(e.scheduler.policy, Filter(SF.InTime(now), e.scheduler.pending), queue)
      && e'.scheduler.pending == queue[n..]
      && (forall i | 0 <= i < n ::
            queue[i].Id() in ActiveIds(e'.active) || StatusOf(e'.scheduler, queue[i].Id()) == SM.FAILED)
      && (forall s | s in e'.active ::
            s in e.active ||
            (s == Sequence(s.params, Truncated(b.encode(s.params.prompt)), [], false, "") &&
             exists i :: 0 <= i < n && queue[i].params == s.params))
  {
    hide Core, SM.GetNextBatch, AdmitAll, Encode, Truncated, ReadyAll, SF.ServiceOrderOf, StatusOf, Filter,
         StatusMovesAll, FromBatch, SB.FreshBatch, SB.CompletedGrows;
    var slots := e.maxBatchSize - |e.active|;
    var (s', batch) := SM.GetNextBatch(e.scheduler, now, slots);
    var taken, ps := e.(scheduler := s'), ParamsOf(batch);
    TakenKeeps(b, e, now, slots);
    AdmitAllKeeps(b, taken, ps, now);
    assert SH.Inv(e.scheduler) by { CoreParts(b, e); }
    queue := SF.ServedInOrder(e.scheduler, now, slots);
    var e' := Admit(b, e, now);
    JoinedOrFailed(taken, e', ps);
    Newcomers(b, e.active, ps, e'.active);
  }
}
