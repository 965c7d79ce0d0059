/** The continuous-batching engine on values: one iteration, and a drain. */
module EngineModel {
  import opened Prelude
  import opened Sampling
  import opened Decoding
  import CM = CacheModel
  import SM = SchedulerModel

  type Params = SM.Params

  /** The generation state of one sequence in the batch. */
  datatype Sequence = Sequence(
    params: Params,
    inputIds: seq<Token>,
    generated: seq<Token>,
    finished: bool,
    reason: string)
  {
    function Id(): Id { params.id }
  }

  /** `active` is the insertion-ordered dictionary of the batch, as the sequence of its values. */
  datatype Engine = Engine(
    maxBatchSize: int,
    scheduler: SM.Scheduler,
    cache: CM.Cache,
    active: seq<Sequence>,
    totalRequests: nat,
    totalTokens: nat,
    totalIterations: nat)

  function ActiveIds(active: seq<Sequence>): (ids: seq<Id>)
    ensures |ids| == |active| && forall i | 0 <= i < |active| :: ids[i] == active[i].Id()
  {
    seq(|active|, i requires 0 <= i < |active| => active[i].Id())
  }

  function OtherThan(id: Id): Sequence -> bool { (s: Sequence) => s.Id() != id }

  function Remove(active: seq<Sequence>, id: Id): seq<Sequence> { Filter(OtherThan(id), active) }

  // ----- admission -----

  const EVICTED := "Evicted due to memory pressure"
  const NO_MEMORY := "Insufficient KV-cache memory"

  function Knows(s: SM.Scheduler, id: Id): bool { id in s.running || id in s.completed }

  function MarkFailed(s: SM.Scheduler, id: Id, why: string, now: real): SM.Scheduler {
    if Knows(s, id) then SM.Fail(s, id, why, now) else s
  }

  function SetPromptTokens(s: SM.Scheduler, id: Id, n: nat): SM.Scheduler {
    if Knows(s, id) then SM.Amend(s, id, SM.Filed(s, id).(promptTokens := n)) else s
  }

  function Start(p: Params, ids: seq<Token>): Sequence {
    Sequence(p, ids, [], false, "")
  }

  function Join(e: Engine, p: Params, ids: seq<Token>, cache: CM.Cache): Engine {
    e.(cache := cache, active := e.active + [Start(p, ids)])
  }

  /** Evict the least recently used sequence and, if it is in the batch, drop and fail it.
      An empty id counts as no victim. So does a victim without a table, where the code raises KeyError;
      an engine whose tables cover the LRU order never meets it, and that order stays covered. */
  function Evict(e: Engine, now: real): (r: Engine)
    requires CM.Wf(e.cache)
    ensures CM.Wf(r.cache)
  {
    var (cache, outcome) := CM.EvictLru(e.cache);
    var e' := e.(cache := cache);
    if outcome.Evicted? && outcome.victim.name != "" && outcome.victim in ActiveIds(e.active) then
      e'.(active := Remove(e.active, outcome.victim),
          scheduler := MarkFailed(e.scheduler, outcome.victim, EVICTED, now))
    else e'
  }

  function Refuse(e: Engine, p: Params, now: real): Engine {
    e.(scheduler := MarkFailed(e.scheduler, p.id, NO_MEMORY, now))
  }

  function AdmitOne(b: Backend, e: Engine, p: Params, now: real): (r: Engine)
    requires CM.Wf(e.cache)
    ensures CM.Wf(r.cache)
  {
    var ids := Encode(b, p.prompt);
    var e0 := e.(scheduler := SetPromptTokens(e.scheduler, p.id, |ids|));
    match CM.Allocate(e0.cache, p.id, |ids|)
    case Allocated(cache, _) => Join(e0, p, ids, cache)
    case OutOfMemory =>
      var e1 := Evict(e0, now);
      match CM.Allocate(e1.cache, p.id, |ids|)
      case Allocated(cache, _) => Join(e1, p, ids, cache)
      case OutOfMemory => Refuse(e1, p, now)
  }

  function AdmitAll(b: Backend, e: Engine, ps: seq<Params>, now: real): (r: Engine)
    requires CM.Wf(e.cache)
    ensures CM.Wf(r.cache)
  {
    if ps == [] then e else AdmitOne(b, AdmitAll(b, e, Init(ps), now), Last(ps), now)
  }

  function ParamsOf(rs: seq<SM.Request>): (ps: seq<Params>)
    ensures |ps| == |rs| && forall i | 0 <= i < |rs| :: ps[i] == rs[i].params
  {
    seq(|rs|, i requires 0 <= i < |rs| => rs[i].params)
  }

  function Admit(b: Backend, e: Engine, now: real): (r: Engine)
    requires CM.Wf(e.cache)
    ensures CM.Wf(r.cache)
  {
    var slots := e.maxBatchSize - |e.active|;
    if slots <= 0 then e else
      var (scheduler, batch) := SM.GetNextBatch(e.scheduler, now, slots);
      AdmitAll(b, e.(scheduler := scheduler), ParamsOf(batch), now)
  }

  // ----- one forward pass -----

  function MaxLen(active: seq<Sequence>): (n: nat)
    ensures forall i | 0 <= i < |active| :: |active[i].inputIds| <= n
  {
    if active == [] then 0 else Max(MaxLen(Init(active)), |Last(active).inputIds|)
  }

  function PadToken(b: Backend): Token {
    if b.pad.Some? then b.pad.value else 0
  }

  /** Right-pad a row to the common length. */
  function Pad(ids: seq<Token>, len: nat, pad: Token): (row: seq<Token>)
    ensures |ids| <= len ==> |row| == len && row[..|ids|] == ids
  {
    ids + seq(CM.Monus(len, |ids|), i => pad)
  }

  function Rows(b: Backend, active: seq<Sequence>): (rows: seq<seq<Token>>)
    ensures |rows| == |active|
    ensures forall i | 0 <= i < |active| :: rows[i] == Pad(active[i].inputIds, MaxLen(active), PadToken(b))
  {
    seq(|active|, i requires 0 <= i < |active| => Pad(active[i].inputIds, MaxLen(active), PadToken(b)))
  }

  /** Row i of the padded batch takes the logits of its last real position. */
  function RowToken(b: Backend, active: seq<Sequence>, draws: nat, i: nat): Token
    requires i < |active|
  {
    Sample(b, active[i].params, At(b.forward(Rows(b, active)[i]), |active[i].inputIds| - 1), draws + i)
  }

  /** The tokens of one pass over the padded batch. */
  function NextTokens(b: Backend, active: seq<Sequence>, draws: nat): (tokens: seq<Token>)
    ensures |tokens| == |active| && forall i | 0 <= i < |active| :: tokens[i] == RowToken(b, active, draws, i)
  {
    seq(|active|, i requires 0 <= i < |active| => RowToken(b, active, draws, i))
  }

  function Advance(b: Backend, s: Sequence, t: Token): Sequence {
    var generated := s.generated + [t];
    var s' := s.(generated := generated, inputIds := s.inputIds + [t]);
    if IsEos(b, t) then s'.(finished := true, reason := "eos")
    else if |generated| >= s.params.maxTokens then s'.(finished := true, reason := "length")
    else s'
  }

  function AdvanceAll(b: Backend, active: seq<Sequence>, tokens: seq<Token>): (r: seq<Sequence>)
    requires |tokens| == |active|
    ensures |r| == |active| && forall i | 0 <= i < |active| :: r[i] == Advance(b, active[i], tokens[i])
  {
    seq(|active|, i requires 0 <= i < |active| => Advance(b, active[i], tokens[i]))
  }

  function Decode(b: Backend, e: Engine): (r: Engine)
    ensures r.cache == e.cache
  {
    e.(active := AdvanceAll(b, e.active, NextTokens(b, e.active, e.totalTokens)),
       totalTokens := e.totalTokens + |e.active|,
       totalIterations := e.totalIterations + 1)
  }

  // ----- retiring finished sequences -----

  function IsFinished(): Sequence -> bool { (s: Sequence) => s.finished }

  function RetireOne(b: Backend, e: Engine, s: Sequence, now: real): (r: Engine)
    requires CM.Wf(e.cache)
    ensures CM.Wf(r.cache)
  {
    e.(active := Remove(e.active, s.Id()),
       scheduler := SM.Complete(e.scheduler, s.Id(), b.decode(s.generated, true), |s.generated|, now),
       cache := CM.Free(e.cache, s.Id()),
       totalRequests := e.totalRequests + 1)
  }

  function RetireAll(b: Backend, e: Engine, done: seq<Sequence>, now: real): (r: Engine)
    requires CM.Wf(e.cache)
    ensures CM.Wf(r.cache)
  {
    if done == [] then e else RetireOne(b, RetireAll(b, e, Init(done), now), Last(done), now)
  }

  function Finished(active: seq<Sequence>): seq<Sequence> { Filter(IsFinished(), active) }

  /** One iteration; the second component lists the finished sequences, whose requests it returns. */
  function Step(b: Backend, e: Engine, now: real): (r: (Engine, seq<Sequence>))
    requires CM.Wf(e.cache)
    ensures CM.Wf(r.0.cache)
  {
    var e1 := Admit(b, e, now);
    if e1.active == [] then (e1, []) else
      var e2 := Decode(b, e1);
      var done := Finished(e2.active);
      (RetireAll(b, e2, done, now), done)
  }

  predicate Idle(e: Engine) {
    e.scheduler.pending == [] && e.active == []
  }

  const MAX_ITERATIONS: nat := 10000

  /** At most `left` iterations, stopping once nothing is pending or active; iteration i happens at clock(i). */
  function Drain(b: Backend, e: Engine, clock: nat -> real, i: nat, left: nat): (r: (Engine, seq<Sequence>))
    requires CM.Wf(e.cache)
    ensures CM.Wf(r.0.cache)
    decreases left
  {
    if left == 0 then (e, []) else
      var (e', returned) := Step(b, e, clock(i));
      if Idle(e') then (e', returned) else
        var (last, more) := Drain(b, e', clock, i + 1, left - 1);
        (last, returned + more)
  }

  function RunUntilEmpty(b: Backend, e: Engine, clock: nat -> real): (r: (Engine, seq<Sequence>))
    requires CM.Wf(e.cache)
    ensures CM.Wf(r.0.cache)
  {
    Drain(b, e, clock, 0, MAX_ITERATIONS)
  }

  // ----- histories -----

  datatype EngineOp =
    | SubmitOp(request: SM.Request)
    | StepOp(now: real)
    | CancelOp(id: Id, now: real)

  function Apply(b: Backend, e: Engine, op: EngineOp): (r: (Engine, seq<Sequence>))
    requires CM.Wf(e.cache)
    ensures CM.Wf(r.0.cache)
  {
    match op
    case SubmitOp(request) => (e.(scheduler := SM.Submit(e.scheduler, request).0), [])
    case StepOp(now) => Step(b, e, now)
    case CancelOp(id, now) => (e.(scheduler := SM.Cancel(e.scheduler, id, now).0), [])
  }

  /** The state after a history, and every sequence its steps finished, in order. */
  function Run(b: Backend, e: Engine, ops: seq<EngineOp>): (r: (Engine, seq<Sequence>))
    requires CM.Wf(e.cache)
    ensures CM.Wf(r.0.cache)
  {
    if ops == [] then (e, []) else
      var (e', returned) := Run(b, e, Init(ops));
      var (e'', more) := Apply(b, e', Last(ops));
      (e'', returned + more)
  }

  function NewEngine(maxBatchSize: int, scheduler: SM.Scheduler, cache: CM.Cache): Engine {
    Engine(maxBatchSize, scheduler, cache, [], 0, 0, 0)
  }

  /** An engine with nothing submitted yet. */
  function FreshEngine(maxBatchSize: int, maxQueueSize: int, defaultTimeout: real, policy: string,
                       numBlocks: nat, blockSize: Pos): (e: Engine)
    ensures CM.Wf(e.cache)
  {
    NewEngine(maxBatchSize, SM.NewScheduler(maxQueueSize, defaultTimeout, policy), CM.NewCache(numBlocks, blockSize))
  }

  ghost predicate FreshOp(e: Engine, op: EngineOp) {
    op.SubmitOp? ==>
      !SM.Known(e.scheduler, op.request.Id()) && op.request.Id().name != "" && op.request.status == SM.PENDING
  }

  /** Submissions carry new, non-empty ids and requests in their initial status. */
  ghost predicate FreshRun(b: Backend, e: Engine, ops: seq<EngineOp>)
    requires CM.Wf(e.cache)
  {
    ops == [] || (FreshRun(b, e, Init(ops)) && FreshOp(Run(b, e, Init(ops)).0, Last(ops)))
  }
}
