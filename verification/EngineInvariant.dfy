/** What every state between engine steps satisfies, and the queue and cache edits that keep it. */
module EngineInvariant {
  import opened Prelude
  import opened Decoding
  import opened EngineModel
  import CM = CacheModel
  import CI = CacheInvariant
  import CS = CacheSafety
  import SM = SchedulerModel
  import SH = SchedulerHistory

  /** The batch and the cache hold the same sequences in the same order, and each block table stores exactly
      the prompt. */
  ghost predicate Coupled(b: Backend, e: Engine) {
    && CM.Wf(e.cache) && CI.Inv(e.cache)
    && ActiveIds(e.active) == e.cache.order
    && forall s | s in e.active ::
         s.Id() in e.cache.tables &&
         |e.cache.tables[s.Id()]| == CM.TokensToBlocks(|Encode(b, s.params.prompt)|, e.cache.blockSize) &&
         CS.Tokens(e.cache, s.Id()) == |Encode(b, s.params.prompt)|
  }

  /** The request of each sequence in the batch has left the queue and is filed with the same parameters. */
  ghost predicate OnFile(e: Engine) {
    forall s | s in e.active ::
      Knows(e.scheduler, s.Id()) && SM.Filed(e.scheduler, s.Id()).params == s.params
  }

  ghost predicate Named(s: SM.Scheduler) {
    forall id | SM.Known(s, id) :: id.name != ""
  }

  /** Where a sequence in the batch stands: its input is the prompt and what it generated, each token sampled
      after the ones before it; it has neither met EOS nor its limit, and a greedy one is on the way to what
      it would generate alone. */
  ghost predicate InProgress(b: Backend, s: Sequence) {
    && s.inputIds == Encode(b, s.params.prompt) + s.generated
    && SampledFrom(b, s.params, Encode(b, s.params.prompt), s.generated) && Open(b, s.params, s.generated)
    && !s.finished && |s.generated| < Budget(s.params)
    && (Greedy(s.params) ==>
          Solo(b, s.params) == s.generated + SoloFrom(b, s.params, s.inputIds, Budget(s.params) - |s.generated|))
  }

  /** A completed request carries the text of an output it may end with; a greedy one, that of decoding its
      prompt alone. */
  ghost predicate OwnOutput(b: Backend, r: SM.Request) {
    r.status == SM.COMPLETED ==>
      exists out :: Genuine(b, r.params, out) && r.outputText == b.decode(out, true) && r.generatedTokens == |out|
                    && (Greedy(r.params) ==> out == Solo(b, r.params))
  }

  /** A failed request failed for memory. */
  ghost predicate MemoryFailure(r: SM.Request) {
    r.status == SM.FAILED ==>
      r.error == Some("Evicted due to memory pressure") || r.error == Some("Insufficient KV-cache memory")
  }

  ghost predicate GoodRecord(b: Backend, r: SM.Request) {
    OwnOutput(b, r) && MemoryFailure(r)
  }

  ghost predicate Outputs(b: Backend, s: SM.Scheduler) {
    && (forall id | id in s.running :: GoodRecord(b, s.running[id]))
    && (forall id | id in s.completed :: GoodRecord(b, s.completed[id]))
  }

  /** The parts that speak of the queue and the cache. */
  ghost predicate Base(b: Backend, e: Engine) {
    && SH.Inv(e.scheduler) && Named(e.scheduler)
    && Coupled(b, e) && OnFile(e)
    && Outputs(b, e.scheduler)
  }

  /** Everything but the size of the batch. */
  ghost predicate Core(b: Backend, e: Engine) {
    Base(b, e) && forall s | s in e.active :: InProgress(b, s)
  }

  ghost predicate Inv(b: Backend, e: Engine) {
    Core(b, e) && |e.active| <= Max(e.maxBatchSize, 0)
  }

  // ----- edits of filed requests -----

  /** s' differs from s only inside filed requests, whose ids and parameters are the same. */
  ghost predicate SameFiles(s: SM.Scheduler, s': SM.Scheduler) {
    && s'.pending == s.pending && s'.policy == s.policy && s'.totalCompleted == s.totalCompleted
    && s'.running.Keys == s.running.Keys && s'.completed.Keys == s.completed.Keys
    && (forall id | Knows(s, id) :: SM.Filed(s', id).params == SM.Filed(s, id).params)
  }

  /** Status of a request that has left the queue. */
  ghost function StatusOf(s: SM.Scheduler, id: Id): SM.Status {
    if Knows(s, id) then SM.Filed(s, id).status else SM.PENDING
  }

  lemma {:induction false} SameFilesKnown(s: SM.Scheduler, s': SM.Scheduler)
    requires SameFiles(s, s')
    ensures forall id :: SM.Known(s', id) <==> SM.Known(s, id)
    ensures Named(s) ==> Named(s')
    ensures forall id :: Knows(s', id) <==> Knows(s, id)
  {
  }

  /** An edit of a filed request that keeps its parameters is seen under its id and nowhere else. */
  lemma {:induction false} AmendSeen(s: SM.Scheduler, id: Id, r: SM.Request)
    requires Knows(s, id) && r.params == SM.Filed(s, id).params
    ensures var s' := SM.Amend(s, id, r);
      && SameFiles(s, s') && StatusOf(s', id) == r.status
      && (forall x | x != id :: StatusOf(s', x) == StatusOf(s, x))
  {
  }

  lemma {:induction false} AmendOutputs(b: Backend, s: SM.Scheduler, id: Id, r: SM.Request)
    requires Outputs(b, s) && GoodRecord(b, r)
    ensures Outputs(b, SM.Amend(s, id, r))
  {
    hide GoodRecord;
  }

  lemma {:induction false} FiledParts(b: Backend, s: SM.Scheduler, id: Id)
    requires SH.Inv(s) && Outputs(b, s) && Knows(s, id)
    ensures SM.Filed(s, id).Id() == id && GoodRecord(b, SM.Filed(s, id))
    ensures id in s.running ==> SM.Filed(s, id).status == SM.RUNNING || SM.Filed(s, id).status == SM.FAILED
    ensures id in s.completed ==> SM.Filed(s, id).status != SM.PENDING && SM.Filed(s, id).status != SM.RUNNING
  {
    hide GoodRecord, NoDup;
  }

  lemma {:induction false} MarkFailedEffect(b: Backend, s: SM.Scheduler, id: Id, why: string, now: real)
    requires SH.Inv(s) && Outputs(b, s) && Knows(s, id) && (why == EVICTED || why == NO_MEMORY)
    ensures var s' := MarkFailed(s, id, why, now);
      && SH.Inv(s') && Outputs(b, s') && SameFiles(s, s')
      && StatusOf(s', id) == SM.FAILED
      && (forall x | x != id :: StatusOf(s', x) == StatusOf(s, x))
  {
    hide SH.Inv, Outputs, SM.Amend, SameFiles, StatusOf;
    var r := SM.Filed(s, id).Failed(why, now);
    FiledParts(b, s, id);
    SH.FailKeeps(s, id, why, now);
    AmendSeen(s, id, r);
    AmendOutputs(b, s, id, r);
  }

  lemma {:induction false} SetPromptTokensEffect(b: Backend, s: SM.Scheduler, id: Id, n: nat)
    requires SH.Inv(s) && Outputs(b, s) && Knows(s, id)
    ensures var s' := SetPromptTokens(s, id, n);
      && SH.Inv(s') && Outputs(b, s') && SameFiles(s, s')
      && (forall x :: StatusOf(s', x) == StatusOf(s, x))
  {
    hide SH.Inv, Outputs, SM.Amend, SameFiles;
    var r := SM.Filed(s, id).(promptTokens := n);
    FiledParts(b, s, id);
    SH.AmendKeeps(s, id, r);
    AmendSeen(s, id, r);
    AmendOutputs(b, s, id, r);
  }

  // ----- lists of sequences -----

  lemma {:induction false} ActiveIdsSnoc(active: seq<Sequence>, s: Sequence)
    ensures ActiveIds(active + [s]) == ActiveIds(active) + [s.Id()]
  {
  }

  lemma {:induction false} RemoveIds(active: seq<Sequence>, id: Id)
    ensures ActiveIds(Remove(active, id)) == Without(ActiveIds(active), id)
    ensures forall s :: s in Remove(active, id) <==> s in active && s.Id() != id
    ensures |Remove(active, id)| <= |active|
  {
    FilterMembers(OtherThan(id), active);
    if active != [] {
      var init, x := Init(active), Last(active);
      RemoveIds(init, id);
      assert active == init + [x];
      ActiveIdsSnoc(init, x);
      assert Init(ActiveIds(active)) == ActiveIds(init);
      ActiveIdsSnoc(Remove(init, id), x);
    }
  }

  lemma {:induction false} DropHead(active: seq<Sequence>, id: Id)
    requires active != [] && active[0].Id() == id && forall i | 1 <= i < |active| :: active[i].Id() != id
    ensures Remove(active, id) == active[1..]
  {
    var init := Init(active);
    if init == [] {
      assert Remove(init, id) == [];
    } else {
      DropHead(init, id);
      assert init[1..] + [Last(active)] == active[1..];
    }
  }

  lemma {:induction false} RemoveHead(active: seq<Sequence>)
    requires active != [] && NoDup(ActiveIds(active))
    ensures Remove(active, active[0].Id()) == active[1..]
    ensures ActiveIds(active[1..]) == ActiveIds(active)[1..]
    ensures forall s | s in active[1..] :: s in active && s.Id() != active[0].Id()
  {
    var first, rest := active[0], active[1..];
    forall s | s in rest ensures s in active && s.Id() != first.Id() {
      var i :| 0 <= i < |rest| && rest[i] == s;
      assert active[i + 1] == s;
      assert ActiveIds(active)[i + 1] != ActiveIds(active)[0];
    }
    assert forall i | 1 <= i < |active| :: ActiveIds(active)[i] != ActiveIds(active)[0];
    DropHead(active, first.Id());
  }

  lemma {:induction false} IdIsActive(active: seq<Sequence>, id: Id)
    ensures id in ActiveIds(active) <==> exists s :: s in active && s.Id() == id
  {
    if id in ActiveIds(active) {
      var i :| 0 <= i < |active| && ActiveIds(active)[i] == id;
      assert active[i] in active;
    }
    if s :| s in active && s.Id() == id {
      var i :| 0 <= i < |active| && active[i] == s;
      assert ActiveIds(active)[i] == id;
    }
  }

  lemma {:induction false} OneWithId(active: seq<Sequence>, s: Sequence, t: Sequence)
    requires NoDup(ActiveIds(active)) && s in active && t in active && s.Id() == t.Id()
    ensures s == t
  {
    var i :| 0 <= i < |active| && active[i] == s;
    var j :| 0 <= j < |active| && active[j] == t;
    assert ActiveIds(active)[i] == ActiveIds(active)[j];
  }

  /** In a coupled state no two sequences share an id. */
  lemma {:induction false} CoupledDistinct(b: Backend, e: Engine)
    requires Coupled(b, e)
    ensures NoDup(ActiveIds(e.active))
    ensures forall id :: id in e.cache.tables <==> id in ActiveIds(e.active)
  {
  }
}
