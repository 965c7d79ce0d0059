/** Concrete inputs on which the code does what its documentation does not say, and one ordinary run of the queue. */
module Witnesses {
  import opened Prelude
  import opened Sampling
  import opened Decoding
  import opened EngineModel
  import opened EngineDisposition
  import CM = CacheModel
  import ME = Metrics
  import SM = SchedulerModel
  import ST = Streaming

  const A := Id("a")
  const B := Id("b")

  function Ask(id: Id, maxTokens: int): SM.Params {
    SM.Params(id, "hello", maxTokens, 0.0, 0, 1.0)
  }

  function Request(id: Id): SM.Request {
    SM.Request(Ask(id, 5), 1, 0.0, 60.0, SM.PENDING, None, None, 0, 0, "", None)
  }

  // ----- the cache -----

  /** A failed extension leaves its top-up behind: one block of two slots, one token stored, five more asked for. */
  lemma {:induction false} TopUpStays()
    ensures var c := CM.Allocate(CM.NewCache(1, 2), A, 1).cache;
      var (c', r) := CM.Extend(c, A, 5);
      r == CM.ExtendOutOfMemory && c' != c && c.blocks[0].filled == 1 && c'.blocks[0].filled == 2
  {
    var n := CM.NewCache(1, 2);
    assert CM.TokensToBlocks(1, 2) == 1;
    var c := CM.Allocate(n, A, 1).cache;
    assert c.tables[A] == [0] && c.blocks[0] == CM.Block(CM.ALLOCATED, 1, 1);
    assert CM.TokensToBlocks(4, 2) == 2;
  }

  /** Allocating twice for one id loses a block: freeing the sequence gives back one block of two. */
  lemma {:induction false} BlockLost()
    ensures var c := CM.Allocate(CM.NewCache(2, 1), A, 1).cache;
      var c' := CM.Allocate(c, A, 1).cache;
      |CM.Free(c', A).free| == 1 && CM.Free(c', A).tables == map[]
  {
    assert CM.TokensToBlocks(1, 1) == 1;
    var c := CM.Allocate(CM.NewCache(2, 1), A, 1).cache;
    assert c.free == [0] && c.blocks[0] == CM.Block(CM.FREE, 0, 0);
    var c' := CM.Allocate(c, A, 1).cache;
    assert c'.free == [] && c'.tables[A] == [0] && c'.blocks[0] == CM.Block(CM.ALLOCATED, 1, 1);
    assert [0][1..] == [];
  }

  /** Looking up an unknown id makes the second eviction raise. */
  lemma {:induction false} LookupPoisons()
    ensures var c := CM.Lookup(CM.Allocate(CM.NewCache(1, 1), A, 1).cache, B).0;
      && CM.EvictLru(c).1 == CM.Evicted(A)
      && CM.EvictLru(CM.EvictLru(c).0).1 == CM.VictimUnknown(B)
  {
    assert CM.TokensToBlocks(1, 1) == 1;
    var c := CM.Allocate(CM.NewCache(1, 1), A, 1).cache;
    assert c.order == [A] && c.tables[A] == [0];
    assert Init([A]) == [];
    var l := CM.Lookup(c, B).0;
    assert l.order == [A, B];
    assert l.order[1..] == [B] && Init([B]) == [];
  }

  // ----- sampling, streaming, metrics -----

  /** top_p = 0 masks the only token there is. */
  lemma {:induction false} ZeroTopPMasksAll()
    ensures TopP(x => Curve(x), [Fin(0.0)], [0], 0.0) == [NegInf]
  {
    var v, exp := [Fin(0.0)], (x: real) => Curve(x);
    var sorted := Permute(v, [0]);
    assert sorted == v;
    var p := Probs(exp, sorted);
    assert p[..1] == p && Init(p) == [];
    assert Sum(p[..0 + 1]) == p[0];
    var keep := KeptPositions(p, 0.0);
    assert keep == [false];
    assert Mask(sorted, keep) == [NegInf];
    assert Init([0]) == [];
  }

  /** With max_tokens = 0 the stream is empty and the engine's output is not. */
  lemma {:induction false} ZeroTokensDiffer()
    ensures ST.Streamed(EchoBackend(), Ask(A, 0)) == [] && |Solo(EchoBackend(), Ask(A, 0))| == 1
  {
    hide NextToken;
  }

  /** A record stamped first and filed second hides behind the later one and outlives the window. */
  lemma {:induction false} StaleRecordStays()
    ensures var late, early := ME.LatencyRecord(10.0, 1.0, 1.0, 1, 1.0), ME.LatencyRecord(5.0, 1.0, 1.0, 1, 1.0);
      ME.Prune([late, early], 7.0) == [late, early] && Filter(ME.Recent(7.0), [late, early]) == [late]
  {
    var late, early := ME.LatencyRecord(10.0, 1.0, 1.0, 1, 1.0), ME.LatencyRecord(5.0, 1.0, 1.0, 1, 1.0);
    FilterSnoc(ME.Recent(7.0), [late], early);
    FilterAll(ME.Recent(7.0), [late]);
    assert [late, early] == [late] + [early];
  }

  // ----- the queue -----

  /** Two requests wait with a timeout of a minute, one since 0 and one since 50. At 100 the first is dropped,
      with the error that says so, and the second is served. */
  lemma {:induction false} OneDroppedOneServed()
    ensures var early, young := Request(A), Request(B).(createdAt := 50.0);
      var s := SM.NewScheduler(10, 60.0, "fcfs").(pending := [early, young], totalSubmitted := 2);
      var (s', batch) := SM.GetNextBatch(s, 100.0, 1);
      && batch == [young.(status := SM.RUNNING, startedAt := Some(100.0))] && s'.pending == []
      && A in s'.completed && s'.completed[A].status == SM.CANCELLED
      && s'.completed[A].error == Some("Request timed out in queue") && s'.totalTimedOut == 1
  {
    hide SM.AddAll;
    var early, young := Request(A), Request(B).(createdAt := 50.0);
    var s := SM.NewScheduler(10, 60.0, "fcfs").(pending := [early, young], totalSubmitted := 2);
    assert [early, young] == [early] + [young] && [] + [early] == [early] && [] + [young] == [young];
    FilterSnoc(SM.Late(100.0), [early], young);
    FilterSnoc(SM.Late(100.0), [], early);
    FilterSnoc(SM.Other(A), [early], young);
    FilterSnoc(SM.Other(A), [], early);
    assert Filter(SM.Late(100.0), s.pending) == [early];
    assert A != B by { assert A.name[0] != B.name[0]; }
    assert SM.Drop(s.pending, A) == [young];
    assert Init([early]) == [];
    assert SM.ExpireAll(s, [], 100.0) == s;
    assert SM.EnforceTimeouts(s, 100.0) == SM.Expire(s, early, 100.0);
    assert [young][..1] == [young] && [young][1..] == [];
    assert SM.StartAll([young], 100.0) == [young.Started(100.0)];
  }

  /** Two requests under one id: both are accepted and served, and only one is left on record. */
  lemma {:induction false} TwinIsLost()
    ensures var s := SM.NewScheduler(10, 60.0, "fcfs");
      var twice := SM.Submit(SM.Submit(s, Request(A)).0, Request(A)).0;
      var (served, batch) := SM.GetNextBatch(twice, 0.0, 2);
      && |batch| == 2 && served.totalSubmitted == 2
      && served.pending == [] && |served.running| == 1 && served.completed == map[]
  {
    var s := SM.NewScheduler(10, 60.0, "fcfs");
    var r := Request(A);
    assert [] + [r] + [r] == [r, r];
    var twice := SM.Submit(SM.Submit(s, r).0, r).0;
    assert twice.pending == [r, r];
    FilterNone(SM.Late(0.0), twice.pending);
    assert SM.EnforceTimeouts(twice, 0.0) == twice;
    assert [r, r][..2] == [r, r] && [r, r][2..] == [];
    var t := r.Started(0.0);
    assert SM.StartAll([r, r], 0.0) == [t, t];
    assert Init([t, t]) == [t] && Init([t]) == [];
    assert SM.AddAll(map[], [t]) == map[A := t];
    assert SM.AddAll(map[], [t, t]) == map[A := t];
  }

  // ----- the engine: histories of two requests -----

  function SmallEngine(numBlocks: nat): (e: Engine)
    ensures CM.Wf(e.cache)
  {
    FreshEngine(2, 10, 60.0, "fcfs", numBlocks, 16)
  }

  /** The engine after both requests were submitted. */
  function Waiting(numBlocks: nat, a: Id, b: Id): (e: Engine)
    ensures CM.Wf(e.cache)
  {
    var e := SmallEngine(numBlocks);
    e.(scheduler := e.scheduler.(pending := [Request(a), Request(b)], totalSubmitted := 2))
  }

  function Submissions(a: Id, b: Id): seq<EngineOp> { [SubmitOp(Request(a)), SubmitOp(Request(b))] }

  lemma {:induction false} RunSnoc(b: Backend, e: Engine, ops: seq<EngineOp>, op: EngineOp)
    requires CM.Wf(e.cache)
    ensures var (mid, returned) := Run(b, e, ops);
      var (last, more) := Apply(b, mid, op);
      && Run(b, e, ops + [op]) == (last, returned + more)
      && (FreshRun(b, e, ops + [op]) <==> FreshRun(b, e, ops) && FreshOp(mid, op))
      && (QuietRun(b, e, ops + [op]) <==> QuietRun(b, e, ops) && Quiet(mid, op))
  {
    hide Apply;
    assert Init(ops + [op]) == ops && Last(ops + [op]) == op;
  }

  lemma {:induction false} NothingRun(b: Backend, e: Engine)
    requires CM.Wf(e.cache)
    ensures Run(b, e, []) == (e, []) && FreshRun(b, e, []) && QuietRun(b, e, [])
  {
  }

  /** The engine after the first request was submitted. */
  function OneWaits(numBlocks: nat, a: Id): (e: Engine)
    ensures CM.Wf(e.cache)
  {
    var e := SmallEngine(numBlocks);
    e.(scheduler := e.scheduler.(pending := [Request(a)], totalSubmitted := 1))
  }

  lemma {:induction false} FirstSubmit(numBlocks: nat, a: Id)
    ensures Apply(EchoBackend(), SmallEngine(numBlocks), SubmitOp(Request(a))) == (OneWaits(numBlocks, a), [])
    ensures a.name != "" ==> FreshOp(SmallEngine(numBlocks), SubmitOp(Request(a)))
  {
    hide CM.NewCache;
    assert [] + [Request(a)] == [Request(a)];
  }

  lemma {:induction false} SecondSubmit(numBlocks: nat, a: Id, b: Id)
    requires a != b
    ensures Apply(EchoBackend(), OneWaits(numBlocks, a), SubmitOp(Request(b))) == (Waiting(numBlocks, a, b), [])
    ensures b.name != "" ==> FreshOp(OneWaits(numBlocks, a), SubmitOp(Request(b)))
  {
    hide CM.NewCache;
    assert [Request(a)] + [Request(b)] == [Request(a), Request(b)];
    assert SM.Ids([Request(a)]) == [a];
  }

  lemma {:induction false} BothWait(numBlocks: nat, a: Id, b: Id)
    requires a != b
    ensures Run(EchoBackend(), SmallEngine(numBlocks), Submissions(a, b)) == (Waiting(numBlocks, a, b), [])
    ensures QuietRun(EchoBackend(), SmallEngine(numBlocks), Submissions(a, b))
    ensures a.name != "" && b.name != "" ==> FreshRun(EchoBackend(), SmallEngine(numBlocks), Submissions(a, b))
  {
    hide Run, FreshRun, QuietRun, Apply, FreshOp, SmallEngine, OneWaits, Waiting;
    var echo, e, nothing: seq<Sequence> := EchoBackend(), SmallEngine(numBlocks), [];
    var first, second := SubmitOp(Request(a)), SubmitOp(Request(b));
    assert nothing + nothing == nothing;
    NothingRun(echo, e);
    RunSnoc(echo, e, [], first);
    FirstSubmit(numBlocks, a);
    assert [] + [first] == [first] && [first] + [second] == Submissions(a, b);
    RunSnoc(echo, e, [first], second);
    SecondSubmit(numBlocks, a, b);
  }

  /** Both are taken from the queue at once. */
  lemma {:induction false} BothTaken(numBlocks: nat, a: Id, b: Id)
    requires a != b
    ensures var s := Waiting(numBlocks, a, b).scheduler;
      var ra, rb := Request(a).Started(0.0), Request(b).Started(0.0);
      SM.GetNextBatch(s, 0.0, 2) == (s.(pending := [], running := map[a := ra, b := rb]), [ra, rb])
  {
    var s := Waiting(numBlocks, a, b).scheduler;
    FilterNone(SM.Late(0.0), s.pending);
    var ra, rb := Request(a).Started(0.0), Request(b).Started(0.0);
    assert SM.EnforceTimeouts(s, 0.0) == s;
    assert s.pending[..2] == s.pending && s.pending[2..] == [];
    assert SM.StartAll(s.pending, 0.0) == [ra, rb];
    assert Init([ra, rb]) == [ra] && Init([ra]) == [];
    assert SM.AddAll(map[], [ra]) == map[a := ra];
    assert SM.AddAll(map[], [ra, rb]) == map[a := ra, b := rb];
  }

  /** A pool of one block of 16 slots whose block stores one token of one sequence. */
  function Holding(id: Id, taken: nat, evicted: nat): (c: CM.Cache)
    ensures CM.Wf(c)
  {
    CM.Cache(16, [CM.Block(CM.ALLOCATED, 1, 1)], [], map[id := [0]], [id], taken, evicted)
  }

  lemma {:induction false} FirstFits(a: Id)
    ensures CM.Allocate(CM.NewCache(1, 16), a, 1) == CM.Allocated(Holding(a, 1, 0), [0])
  {
    var c := CM.NewCache(1, 16);
    assert CM.TokensToBlocks(1, 16) == 1;
    assert c.blocks == [CM.Block(CM.FREE, 0, 0)] && c.free == [0] && Init(c.free) == [];
    var g := CM.Grab(c.blocks, c.free, 16, 1, 1);
    assert g == CM.Grabbed([CM.Block(CM.ALLOCATED, 1, 1)], [], [0]);
    assert Without([], a) + [a] == [a];
  }

  /** The pool after its sequence was evicted. */
  function Emptied(): (c: CM.Cache)
    ensures CM.Wf(c)
  {
    CM.Cache(16, [CM.Block(CM.FREE, 0, 0)], [0], map[], [], 1, 1)
  }

  lemma {:induction false} FirstIsEvicted(a: Id)
    ensures CM.EvictLru(Holding(a, 1, 0)) == (Emptied(), CM.Evicted(a))
  {
    assert [a][1..] == [] && [0][1..] == [] && [] + [0] == [0];
    var blocks, block := [CM.Block(CM.ALLOCATED, 1, 1)], CM.Block(CM.FREE, 0, 0);
    assert CM.ReleaseBlock(blocks[0]) == block && blocks[0 := block] == [block];
    assert CM.ReleaseAll([block], [0], []) == ([block], [0]);
    assert CM.ReleaseAll(blocks, [], [0]) == CM.ReleaseAll(blocks[0 := block], [] + [0], [0][1..]);
    assert map[a := [0]] - {a} == map[];
  }

  lemma {:induction false} SecondFits(a: Id, b: Id)
    ensures CM.Allocate(Holding(a, 1, 0), b, 1) == CM.OutOfMemory
    ensures CM.Allocate(Emptied(), b, 1) == CM.Allocated(Holding(b, 2, 1), [0])
  {
    var c := Emptied();
    assert CM.TokensToBlocks(1, 16) == 1;
    assert Init(c.free) == [];
    var g := CM.Grab(c.blocks, c.free, 16, 1, 1);
    assert g == CM.Grabbed([CM.Block(CM.ALLOCATED, 1, 1)], [], [0]);
    assert Without([], b) + [b] == [b];
  }

  /** The engine with both requests running, with the prompt lengths noted so far. */
  function Running(a: Id, b: Id, na: nat, nb: nat, cache: CM.Cache, active: seq<Sequence>): Engine {
    var ra, rb := Request(a).Started(0.0).(promptTokens := na), Request(b).Started(0.0).(promptTokens := nb);
    var e := Waiting(1, a, b);
    e.(scheduler := e.scheduler.(pending := [], running := map[a := ra, b := rb]), cache := cache, active := active)
  }

  lemma {:induction false} FirstJoins(a: Id, b: Id)
    requires a != b
    ensures AdmitOne(EchoBackend(), Running(a, b, 0, 0, CM.NewCache(1, 16), []), Ask(a, 5), 0.0)
         == Running(a, b, 1, 0, Holding(a, 1, 0), [Start(Ask(a, 5), [5])])
  {
    hide CM.NewCache, CM.Allocate;
    FirstFits(a);
    assert [] + [Start(Ask(a, 5), [5])] == [Start(Ask(a, 5), [5])];
    var m, ra := Running(a, b, 0, 0, CM.NewCache(1, 16), []).scheduler.running, Request(a).Started(0.0);
    assert m[a := ra.(promptTokens := 1)] == map[a := ra.(promptTokens := 1), b := m[b]];
  }

  /** The eviction empties the pool; an empty id stays in the batch. */
  lemma {:induction false} VictimLeaves(a: Id, b: Id)
    requires a != b
    ensures var e := Running(a, b, 1, 1, Holding(a, 1, 0), [Start(Ask(a, 5), [5])]);
      Evict(e, 0.0) ==
        if a.name == "" then e.(cache := Emptied())
        else e.(cache := Emptied(), active := [], scheduler := MarkFailed(e.scheduler, a, EVICTED, 0.0))
  {
    hide CM.EvictLru, MarkFailed;
    FirstIsEvicted(a);
    var victims := [Start(Ask(a, 5), [5])];
    assert ActiveIds(victims)[0] == a;
    assert Init(victims) == [] && Remove([], a) == [];
  }

  lemma {:induction false} SecondJoins(a: Id, b: Id)
    requires a != b
    ensures var e := Running(a, b, 1, 1, Holding(a, 1, 0), [Start(Ask(a, 5), [5])]);
      AdmitOne(EchoBackend(), Running(a, b, 1, 0, Holding(a, 1, 0), [Start(Ask(a, 5), [5])]), Ask(b, 5), 0.0)
        == Join(Evict(e, 0.0), Ask(b, 5), [5], Holding(b, 2, 1))
  {
    hide CM.Allocate, Evict;
    SecondFits(a, b);
    VictimLeaves(a, b);
    var m, rb := Running(a, b, 1, 0, Holding(a, 1, 0), []).scheduler.running, Request(b).Started(0.0);
    assert m[b := rb.(promptTokens := 1)] == map[a := m[a], b := rb.(promptTokens := 1)];
  }

  lemma {:induction false} AdmitTwo(b: Backend, e: Engine, p: SM.Params, q: SM.Params, now: real)
    requires CM.Wf(e.cache)
    ensures AdmitAll(b, e, [p, q], now) == AdmitOne(b, AdmitOne(b, e, p, now), q, now)
  {
    hide AdmitOne;
    assert Init([p, q]) == [p] && Init([p]) == [];
    assert AdmitAll(b, e, [], now) == e;
    assert AdmitAll(b, e, [p], now) == AdmitOne(b, e, p, now);
  }

  /** Both ask for one block each. With one block, the second evicts the first, in the same admission. */
  lemma {:induction false} SecondEvictsFirst(a: Id, b: Id)
    requires a != b
    ensures var e := Running(a, b, 1, 1, Holding(a, 1, 0), [Start(Ask(a, 5), [5])]);
      Admit(EchoBackend(), Waiting(1, a, b), 0.0) == Join(Evict(e, 0.0), Ask(b, 5), [5], Holding(b, 2, 1))
  {
    hide CM.NewCache, SM.GetNextBatch, AdmitOne, Evict;
    var e := Waiting(1, a, b);
    BothTaken(1, a, b);
    var (s', batch) := SM.GetNextBatch(e.scheduler, 0.0, 2);
    assert ParamsOf(batch) == [Ask(a, 5), Ask(b, 5)];
    FirstJoins(a, b);
    SecondJoins(a, b);
    var taken := Running(a, b, 0, 0, CM.NewCache(1, 16), []);
    assert e.(scheduler := s') == taken by { assert e.cache == CM.NewCache(1, 16); }
    AdmitTwo(EchoBackend(), taken, Ask(a, 5), Ask(b, 5), 0.0);
  }

  lemma {:induction false} Unfinished(b: Backend, s: Sequence, t: Token)
    requires b.eos == None && !s.finished && |s.generated| + 1 < s.params.maxTokens
    ensures !Advance(b, s, t).finished && Advance(b, s, t).Id() == s.Id()
  {
  }

  /** A pass that finishes nobody leaves the queue and the cache alone. */
  lemma {:induction false} QuietPass(b: Backend, e: Engine, now: real)
    requires CM.Wf(e.cache) && Admit(b, e, now).active != [] && b.eos == None
    requires forall s | s in Admit(b, e, now).active :: !s.finished && |s.generated| + 1 < s.params.maxTokens
    ensures var a := Admit(b, e, now);
      && Step(b, e, now) == (Decode(b, a), [])
      && ActiveIds(Decode(b, a).active) == ActiveIds(a.active)
  {
    hide Admit, NextTokens, Advance;
    var a := Admit(b, e, now);
    var active := Decode(b, a).active;
    forall i | 0 <= i < |active| ensures !active[i].finished && active[i].Id() == a.active[i].Id() {
      assert a.active[i] in a.active;
      Unfinished(b, a.active[i], NextTokens(b, a.active, a.totalTokens)[i]);
    }
    FilterNone(IsFinished(), active);
    assert ActiveIds(active) == ActiveIds(a.active);
  }

  lemma {:induction false} AdmittedBatch(a: Id, b: Id)
    requires a != b
    ensures Admit(EchoBackend(), Waiting(1, a, b), 0.0).active
         == if a.name == "" then [Start(Ask(a, 5), [5]), Start(Ask(b, 5), [5])] else [Start(Ask(b, 5), [5])]
  {
    hide MarkFailed, Admit, Evict;
    SecondEvictsFirst(a, b);
    VictimLeaves(a, b);
    var start := Start(Ask(b, 5), [5]);
    assert [] + [start] == [start];
    assert [Start(Ask(a, 5), [5])] + [start] == [Start(Ask(a, 5), [5]), start];
  }

  /** One iteration after both requests were submitted, in a pool of one block. */
  lemma {:induction false} OneStep(a: Id, b: Id)
    requires a != b
    ensures var ops := Submissions(a, b) + [StepOp(0.0)];
      var (e, returned) := Run(EchoBackend(), SmallEngine(1), ops);
      var admitted := Admit(EchoBackend(), Waiting(1, a, b), 0.0);
      && QuietRun(EchoBackend(), SmallEngine(1), ops)
      && (a.name != "" && b.name != "" ==> FreshRun(EchoBackend(), SmallEngine(1), ops))
      && e == Decode(EchoBackend(), admitted) && returned == []
      && ActiveIds(e.active) == ActiveIds(admitted.active)
      && ActiveIds(admitted.active) == (if a.name == "" then [a, b] else [b])
  {
    hide Run, FreshRun, QuietRun, Admit, Decode;
    var echo := EchoBackend();
    BothWait(1, a, b);
    RunSnoc(echo, SmallEngine(1), Submissions(a, b), StepOp(0.0));
    AdmittedBatch(a, b);
    QuietPass(echo, Waiting(1, a, b), 0.0);
    var none: seq<Sequence> := [];
    assert none + none == none;
  }

  /** Two requests of one block each on a pool of one block: the first is evicted and FAILED. It stays among the
      running requests, it is not returned, and the history keeps every rule. */
  lemma {:induction false} EvictionHappens()
    ensures var ops := Submissions(A, B) + [StepOp(0.0)];
      var (e, returned) := Run(EchoBackend(), SmallEngine(1), ops);
      && FreshRun(EchoBackend(), SmallEngine(1), ops) && QuietRun(EchoBackend(), SmallEngine(1), ops)
      && e.cache.totalEvicted == 1 && returned == [] && ActiveIds(e.active) == [B]
      && A in e.scheduler.running && e.scheduler.running[A].status == SM.FAILED
      && e.scheduler.running[A].error == Some("Evicted due to memory pressure")
  {
    hide Run, FreshRun, QuietRun, Admit, NextTokens, Advance;
    OneStep(A, B);
    SecondEvictsFirst(A, B);
    VictimLeaves(A, B);
  }

  const NAMELESS := Id("")

  /** The same with an empty first id: its blocks are gone, and it is still in the batch. */
  lemma {:induction false} NamelessStays()
    ensures var e := Run(EchoBackend(), SmallEngine(1), Submissions(NAMELESS, B) + [StepOp(0.0)]).0;
      && ActiveIds(e.active) == [NAMELESS, B] && e.cache.order == [B] && NAMELESS !in e.cache.tables
      && NAMELESS in e.scheduler.running && e.scheduler.running[NAMELESS].status == SM.RUNNING
  {
    hide Run, FreshRun, QuietRun, Admit, NextTokens, Advance;
    OneStep(NAMELESS, B);
    SecondEvictsFirst(NAMELESS, B);
    VictimLeaves(NAMELESS, B);
  }

  // ----- cancelling a running request -----

  lemma {:induction false} NothingPending(b: Backend, e: Engine, now: real)
    requires CM.Wf(e.cache) && e.scheduler.pending == []
    ensures Admit(b, e, now) == e
  {
    FilterNone(SM.Late(now), e.scheduler.pending);
    assert ParamsOf([]) == [];
  }

  lemma {:induction false} FiledAway(e: Engine, id: Id)
    requires e.scheduler.pending == [] && id in e.scheduler.running && id !in e.scheduler.completed
    ensures var c := SM.Cancel(e.scheduler, id, 1.0).0;
      && c.pending == [] && id !in c.running && id in c.completed && c.completed[id].status == SM.CANCELLED
  {
    assert SM.Ids(e.scheduler.pending) == [];
  }

  /** Cancelling the only sequence of the batch: its request is filed away, and the next pass still decodes it. */
  lemma {:induction false} CancelledStepsOn(e: Engine, s: Sequence)
    requires CM.Wf(e.cache) && e.scheduler.pending == [] && e.active == [s] && !s.finished
    requires s.Id() in e.scheduler.running && s.Id() !in e.scheduler.completed && |s.generated| + 1 < s.params.maxTokens
    ensures var cancelled := Apply(EchoBackend(), e, CancelOp(s.Id(), 1.0)).0;
      var later := Step(EchoBackend(), cancelled, 2.0).0;
      && !Disposed(cancelled, []) && later.scheduler == cancelled.scheduler
      && s.Id() in later.scheduler.completed && later.scheduler.completed[s.Id()].status == SM.CANCELLED
      && ActiveIds(later.active) == [s.Id()] && |later.active[0].generated| == |s.generated| + 1
  {
    hide Step, Admit, NextTokens, SM.Cancel;
    var echo := EchoBackend();
    var cancelled := Apply(echo, e, CancelOp(s.Id(), 1.0)).0;
    FiledAway(e, s.Id());
    assert ActiveIds(cancelled.active)[0] == s.Id();
    NothingPending(echo, cancelled, 2.0);
    QuietPass(echo, cancelled, 2.0);
  }

  lemma {:induction false} BatchOfOne(e: Engine, id: Id)
    requires ActiveIds(e.active) == [id]
    ensures |e.active| == 1 && e.active[0].Id() == id && e.active == [e.active[0]]
  {
    assert ActiveIds(e.active)[0] == e.active[0].Id();
  }

  /** A pass over one sequence with tokens to come gives it one token and leaves the queue alone. */
  lemma {:induction false} PassOfOne(b: Backend, e: Engine, s: Sequence)
    requires b.eos == None && e.active == [s] && !s.finished && |s.generated| + 1 < s.params.maxTokens
    ensures var d := Decode(b, e);
      && d.scheduler == e.scheduler && |d.active| == 1
      && !d.active[0].finished && |d.active[0].generated| == |s.generated| + 1 && d.active[0].params == s.params
  {
    hide NextTokens;
  }

  /** The queue once the first request has been evicted for the second. */
  lemma {:induction false} QueueAfterEviction()
    ensures var s := Admit(EchoBackend(), Waiting(1, A, B), 0.0).scheduler;
      s.pending == [] && B in s.running && B !in s.completed
  {
    hide Admit, Evict, CM.NewCache;
    SecondEvictsFirst(A, B);
    VictimLeaves(A, B);
  }

  lemma {:induction false} AfterEviction()
    ensures var e := Run(EchoBackend(), SmallEngine(1), Submissions(A, B) + [StepOp(0.0)]).0;
      && e.scheduler.pending == [] && B in e.scheduler.running && B !in e.scheduler.completed
      && ActiveIds(e.active) == [B]
      && forall s | s in e.active :: !s.finished && |s.generated| == 1 && s.params == Ask(B, 5)
  {
    hide Run, Admit, Decode, SmallEngine, Waiting, Submissions;
    OneStep(A, B);
    AdmittedBatch(A, B);
    QueueAfterEviction();
    PassOfOne(EchoBackend(), Admit(EchoBackend(), Waiting(1, A, B), 0.0), Start(Ask(B, 5), [5]));
  }

  /** A cancelled request whose sequence is in the batch is filed away as CANCELLED and decodes on. */
  lemma {:induction false} CancelledDecodesOn()
    ensures var e := Run(EchoBackend(), SmallEngine(1), Submissions(A, B) + [StepOp(0.0)]).0;
      var cancelled := Apply(EchoBackend(), e, CancelOp(B, 1.0)).0;
      var later := Step(EchoBackend(), cancelled, 2.0).0;
      && !Disposed(cancelled, [])
      && B in later.scheduler.completed && later.scheduler.completed[B].status == SM.CANCELLED
      && ActiveIds(later.active) == [B] && |later.active[0].generated| == 2
  {
    hide Run, Step, Apply, Disposed;
    var e := Run(EchoBackend(), SmallEngine(1), Submissions(A, B) + [StepOp(0.0)]).0;
    AfterEviction();
    BatchOfOne(e, B);
    CancelledStepsOn(e, e.active[0]);
  }

  // ----- refusal -----

  /** With no block at all, an admission marks its request FAILED and nothing joins the batch. */
  lemma {:induction false} RefusalHappens(e: Engine, id: Id)
    requires e.cache == CM.NewCache(0, 16) && id in e.scheduler.running
    ensures var r := AdmitOne(EchoBackend(), e, Ask(id, 5), 0.0);
      && r.active == e.active && id in r.scheduler.running
      && r.scheduler.running[id].status == SM.FAILED
      && r.scheduler.running[id].error == Some("Insufficient KV-cache memory")
  {
    assert CM.TokensToBlocks(1, 16) == 1;
  }
}
