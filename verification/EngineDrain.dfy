/** Draining the engine: it ends with nothing left, and it is a history of iterations. */
module EngineDrain {
  import opened Prelude
  import opened Decoding
  import opened EngineModel
  import opened EngineInvariant
  import opened EngineAdmission
  import opened EngineSteps
  import ET = EngineTheorems
  import CM = CacheModel
  import CI = CacheInvariant
  import SM = SchedulerModel
  import SH = SchedulerHistory
  import SB = SchedulerBatches

  // ----- the work that is left -----

  /** Tokens the sequences of the batch may still generate. */
  ghost function Remaining(active: seq<Sequence>): nat {
    if active == [] then 0
    else Remaining(Init(active)) + CM.Monus(Budget(Last(active).params), |Last(active).generated|)
  }

  /** Most tokens still to come: from pending requests and from the batch. */
  ghost function Left(e: Engine): nat {
    SB.Work(e.scheduler.pending) + Remaining(e.active)
  }

  ghost function Budgets(ps: seq<Params>): nat {
    if ps == [] then 0 else Budgets(Init(ps)) + Budget(Last(ps))
  }

  lemma {:induction false} BudgetsOfBatch(rs: seq<SM.Request>)
    ensures Budgets(ParamsOf(rs)) == SB.Work(rs)
  {
    if rs != [] {
      BudgetsOfBatch(Init(rs));
      assert Init(ParamsOf(rs)) == ParamsOf(Init(rs));
    }
  }

  lemma {:induction false} RemainingSnoc(active: seq<Sequence>, s: Sequence)
    ensures Remaining(active + [s]) == Remaining(active) + CM.Monus(Budget(s.params), |s.generated|)
  {
    assert Init(active + [s]) == active;
  }

  lemma {:induction false} RemainingTail(active: seq<Sequence>)
    requires active != []
    ensures Remaining(active[1..]) <= Remaining(active)
  {
    if |active| > 1 {
      RemainingTail(Init(active));
      assert Init(active)[1..] == Init(active[1..]);
    } else {
      assert active[1..] == [];
    }
  }

  lemma {:induction false} NothingRemains()
    ensures Remaining([]) == 0
  {
  }

  lemma {:induction false} AdmitOneWork(b: Backend, e: Engine, p: Params, now: real)
    requires CM.Wf(e.cache) && Core(b, e) && Ready(e, p)
    ensures Remaining(AdmitOne(b, e, p, now).active) <= Remaining(e.active) + Budget(p)
  {
    hide Core, AdmitOne, Encode, FitsNow, FitsAfterEviction, Remaining;
    var start := Start(p, Encode(b, p.prompt));
    if e.active != [] {
      RemainingTail(e.active);
    }
    NothingRemains();
    if FitsNow(b, e, p) {
      AdmitFits(b, e, p, now);
      RemainingSnoc(e.active, start);
    } else if FitsAfterEviction(b, e, p) {
      AdmitAfterEviction(b, e, p, now);
      RemainingSnoc(e.active[1..], start);
    } else {
      AdmitRefused(b, e, p, now);
    }
  }

  lemma {:induction false} AdmitAllWork(b: Backend, e: Engine, ps: seq<Params>, now: real)
    requires CM.Wf(e.cache) && Core(b, e) && ReadyAll(e, ps)
    ensures Remaining(AdmitAll(b, e, ps, now).active) <= Remaining(e.active) + Budgets(ps)
  {
    hide Core, AdmitOne, Encode, Remaining;
    if ps != [] {
      var init, p := Init(ps), Last(ps);
      assert ps == init + [p];
      AdmitAllWork(b, e, init, now);
      AdmitAllKeeps(b, e, init, now);
      var mid := AdmitAll(b, e, init, now);
      StillReady(b, e, mid, init, p);
      AdmitOneWork(b, mid, p, now);
    }
  }

  lemma {:induction false} EmptyBatch(b: Backend, e: Engine, now: real)
    requires CM.Wf(e.cache)
    ensures AdmitAll(b, e, ParamsOf([]), now) == e
  {
    assert ParamsOf([]) == [];
  }

  /** Admission adds no work; and when it leaves the batch empty it has used up some of the queue. */
  lemma {:induction false} AdmitWork(b: Backend, e: Engine, now: real)
    requires CM.Wf(e.cache) && Inv(b, e)
    ensures var a := Admit(b, e, now);
      && Left(a) <= Left(e)
      && (a.active == [] && e.maxBatchSize >= 1 && Left(e) > 0 ==> Left(a) < Left(e))
  {
    hide Core, SM.GetNextBatch, SB.Work, Remaining, AdmitAll;
    var slots := e.maxBatchSize - |e.active|;
    NothingRemains();
    if slots > 0 {
      var (s', batch) := SM.GetNextBatch(e.scheduler, now, slots);
      var taken := e.(scheduler := s');
      TakenKeeps(b, e, now, slots);
      assert SH.Inv(e.scheduler) by { CoreParts(b, e); }
      SB.BatchWork(e.scheduler, now, slots);
      BudgetsOfBatch(batch);
      AdmitAllWork(b, taken, ParamsOf(batch), now);
      AdmitAllKeeps(b, taken, ParamsOf(batch), now);
      if e.scheduler.pending == [] {
        EmptyBatch(b, taken, now);
      }
    }
  }

  /** A pass uses up one token of each sequence's budget. */
  lemma {:induction false} DecodedRemaining(active: seq<Sequence>, decoded: seq<Sequence>)
    requires |decoded| == |active|
    requires forall i | 0 <= i < |active| :: |active[i].generated| < Budget(active[i].params)
    requires forall i | 0 <= i < |active| ::
      decoded[i].params == active[i].params && |decoded[i].generated| == |active[i].generated| + 1
    ensures Remaining(Filter(Unfinished(), decoded)) + |active| <= Remaining(active)
  {
    if active != [] {
      var init, d := Init(decoded), Last(decoded);
      assert decoded == init + [d];
      DecodedRemaining(Init(active), init);
      FilterSnoc(Unfinished(), init, d);
      RemainingSnoc(Filter(Unfinished(), init), d);
    }
  }

  lemma {:induction false} ProgressRoom(b: Backend, e: Engine)
    requires Core(b, e)
    ensures forall i | 0 <= i < |e.active| :: |e.active[i].generated| < Budget(e.active[i].params)
  {
    hide Base;
    forall i | 0 <= i < |e.active| ensures |e.active[i].generated| < Budget(e.active[i].params) {
      assert e.active[i] in e.active;
    }
  }

  /** Every iteration of an engine that is not idle uses up some of the work. */
  lemma {:induction false} StepWork(b: Backend, e: Engine, now: real)
    requires CM.Wf(e.cache) && Causal(b) && Tokenizes(b) && Inv(b, e) && e.maxBatchSize >= 1
    ensures var e' := Step(b, e, now).0; Left(e') <= Left(e) && (Left(e) > 0 ==> Left(e') < Left(e))
  {
    hide Core, Admit, Decode, Remaining, SB.Work, Step, Decoded;
    StepShape(b, e, now);
    AdmitWork(b, e, now);
    AdmitKeeps(b, e, now);
    var a := Admit(b, e, now);
    if a.active != [] {
      ProgressRoom(b, a);
      DecodeKeeps(b, a);
      DecodedRemaining(a.active, Decode(b, a).active);
    }
  }

  lemma {:induction false} NothingLeft(b: Backend, e: Engine)
    requires Core(b, e)
    ensures Left(e) == 0 <==> Idle(e)
  {
    hide Base;
    if e.active != [] {
      assert Last(e.active) in e.active;
    }
  }

  lemma {:induction false} DrainEmpties(b: Backend, e: Engine, clock: nat -> real, i: nat, left: nat)
    requires CM.Wf(e.cache) && Causal(b) && Tokenizes(b) && Inv(b, e) && e.maxBatchSize >= 1 && Left(e) <= left
    ensures var e' := Drain(b, e, clock, i, left).0; Inv(b, e') && Idle(e')
    decreases left
  {
    hide Core, Step, Left;
    if left == 0 {
      NothingLeft(b, e);
    } else {
      StepWork(b, e, clock(i));
      StepShape(b, e, clock(i));
      var e' := Step(b, e, clock(i)).0;
      if !Idle(e') {
        DrainEmpties(b, e', clock, i + 1, left - 1);
      }
    }
  }

  /** The drain ends with nothing pending and nothing active, despite timeouts, evictions and refusals,
      when no more than 10000 tokens can still be generated. */
  lemma {:induction false} RunUntilEmptyEmpties(b: Backend, e: Engine, clock: nat -> real)
    requires CM.Wf(e.cache) && Causal(b) && Tokenizes(b) && Inv(b, e) && e.maxBatchSize >= 1
    requires Left(e) <= 10000
    ensures var e' := RunUntilEmpty(b, e, clock).0;
      && e'.scheduler.pending == [] && e'.active == []
      && |e'.cache.free| == |e'.cache.blocks| && e'.cache.tables == map[]
  {
    hide Left, Drain, CI.Held, CI.Universe;
    DrainEmpties(b, e, clock, 0, MAX_ITERATIONS);
    CI.BlockCount(RunUntilEmpty(b, e, clock).0.cache);
  }

  // ----- a drain is a history of iterations -----

  function Iterations(clock: nat -> real, i: nat, n: nat): (ops: seq<EngineOp>)
    ensures |ops| == n
  {
    seq(n, k requires 0 <= k < n => StepOp(clock(i + k)))
  }

  lemma {:induction false} RunFirst(b: Backend, e: Engine, op: EngineOp, ops: seq<EngineOp>)
    requires CM.Wf(e.cache)
    ensures var (e1, first) := Apply(b, e, op);
      var (e2, rest) := Run(b, e1, ops);
      Run(b, e, [op] + ops) == (e2, first + rest)
  {
    hide Apply;
    var all := [op] + ops;
    if ops == [] {
      assert all == [op] && Init(all) == [];
      assert Run(b, e, []) == (e, []);
      var (e1, first) := Apply(b, e, op);
      assert [] + first == first && first + [] == first;
    } else {
      assert Init(all) == [op] + Init(ops) && Last(all) == Last(ops);
      RunFirst(b, e, op, Init(ops));
      var (e1, first) := Apply(b, e, op);
      var (mid, rest) := Run(b, e1, Init(ops));
      var (_, more) := Apply(b, mid, Last(ops));
      assert first + rest + more == first + (rest + more);
    }
  }

  lemma {:induction false} DrainFirst(b: Backend, e: Engine, clock: nat -> real, i: nat, left: nat)
    requires CM.Wf(e.cache) && left > 0
    ensures var (e', first) := Step(b, e, clock(i));
      && (Idle(e') ==> Drain(b, e, clock, i, left) == (e', first))
      && (!Idle(e') ==>
            var (last, more) := Drain(b, e', clock, i + 1, left - 1);
            Drain(b, e, clock, i, left) == (last, first + more))
  {
    hide Step;
  }

  lemma {:induction false} RunIterations(b: Backend, e: Engine, clock: nat -> real, i: nat, n: nat)
    requires CM.Wf(e.cache)
    ensures var (e', first) := Step(b, e, clock(i));
      var (last, more) := Run(b, e', Iterations(clock, i + 1, n));
      Run(b, e, Iterations(clock, i, n + 1)) == (last, first + more)
  {
    hide Step, Run;
    RunFirst(b, e, StepOp(clock(i)), Iterations(clock, i + 1, n));
    assert Iterations(clock, i, n + 1) == [StepOp(clock(i))] + Iterations(clock, i + 1, n);
  }

  lemma {:induction false} NoIterations(b: Backend, e: Engine, clock: nat -> real, i: nat)
    requires CM.Wf(e.cache)
    ensures Run(b, e, Iterations(clock, i, 0)) == (e, []) == Drain(b, e, clock, i, 0)
  {
  }

  lemma {:induction false} DrainFirstIsRun(b: Backend, e: Engine, clock: nat -> real, i: nat, left: nat, rest: nat)
    requires CM.Wf(e.cache) && left > 0
    requires var e' := Step(b, e, clock(i)).0;
      if Idle(e') then rest == 0
      else Drain(b, e', clock, i + 1, left - 1) == Run(b, e', Iterations(clock, i + 1, rest))
    ensures Drain(b, e, clock, i, left) == Run(b, e, Iterations(clock, i, rest + 1))
  {
    hide Step, Drain, Run, Idle, Iterations, CM.Wf;
    DrainFirst(b, e, clock, i, left);
    RunIterations(b, e, clock, i, rest);
    var (e', first) := Step(b, e, clock(i));
    if Idle(e') {
      NoIterations(b, e', clock, i + 1);
      assert first + [] == first;
    }
  }

  /** The state after n iterations. */
  function After(b: Backend, e: Engine, clock: nat -> real, i: nat, n: nat): Engine
    requires CM.Wf(e.cache)
  {
    Run(b, e, Iterations(clock, i, n)).0
  }

  lemma {:induction false} AfterFirst(b: Backend, e: Engine, clock: nat -> real, i: nat, n: nat)
    requires CM.Wf(e.cache)
    ensures After(b, e, clock, i, 0) == e
    ensures After(b, e, clock, i, n + 1) == After(b, Step(b, e, clock(i)).0, clock, i + 1, n)
  {
    hide Step, Run, Iterations;
    NoIterations(b, e, clock, i);
    RunIterations(b, e, clock, i, n);
  }

  /** Draining is stepping some number of times, so what holds of every history holds of a drain. It steps on
      while something is pending or active, and stops as soon as nothing is. */
  lemma {:induction false} DrainIsRun(b: Backend, e: Engine, clock: nat -> real, i: nat, left: nat) returns (n: nat)
    requires CM.Wf(e.cache)
    ensures n <= left && (left > 0 ==> n > 0) && Drain(b, e, clock, i, left) == Run(b, e, Iterations(clock, i, n))
    ensures 0 < n < left ==> Idle(After(b, e, clock, i, n))
    ensures forall k | 0 < k < n :: !Idle(After(b, e, clock, i, k))
    decreases left
  {
    hide Step, Drain, Run, Idle, Iterations, CM.Wf, After;
    n := 0;
    if left == 0 {
      NoIterations(b, e, clock, i);
    } else {
      var e' := Step(b, e, clock(i)).0;
      var rest := 0;
      if !Idle(e') {
        rest := DrainIsRun(b, e', clock, i + 1, left - 1);
      }
      DrainFirstIsRun(b, e, clock, i, left, rest);
      AfterFirst(b, e, clock, i, rest);
      AfterFirst(b, e', clock, i + 1, 0);
      n := rest + 1;
      forall k | 0 < k < n ensures !Idle(After(b, e, clock, i, k)) {
        AfterFirst(b, e, clock, i, k - 1);
      }
    }
  }

  /** run_until_empty is at most 10000 iterations: the fewest, and at least one, after which nothing is pending
      and nothing is active, or all 10000. */
  lemma {:induction false} RunUntilEmptyStops(b: Backend, e: Engine, clock: nat -> real) returns (n: nat)
    requires CM.Wf(e.cache)
    ensures 1 <= n <= 10000 && RunUntilEmpty(b, e, clock) == Run(b, e, Iterations(clock, 0, n))
    ensures forall k | 0 < k < n ::
      var mid := After(b, e, clock, 0, k); mid.scheduler.pending != [] || mid.active != []
    ensures n < 10000 ==> var last := RunUntilEmpty(b, e, clock).0; last.scheduler.pending == [] && last.active == []
  {
    hide Drain, Run, Iterations, CM.Wf;
    n := DrainIsRun(b, e, clock, 0, 10000);
    assert !Idle(After(b, e, clock, 0, n)) ==> n == 10000;
  }

  lemma {:induction false} StepsAreFresh(b: Backend, e: Engine, ops: seq<EngineOp>)
    requires CM.Wf(e.cache) && forall i | 0 <= i < |ops| :: ops[i].StepOp?
    ensures FreshRun(b, e, ops)
  {
    hide Run;
    if ops != [] {
      StepsAreFresh(b, e, Init(ops));
    }
  }

  /** What a drain returns is finished with an output the request may end with and, if greedy, exactly what
      decoding its prompt alone gives. */
  lemma {:induction false} DrainIsTransparent(b: Backend, e: Engine, clock: nat -> real)
    requires CM.Wf(e.cache) && Causal(b) && Tokenizes(b) && Inv(b, e)
    ensures forall s | s in RunUntilEmpty(b, e, clock).1 ::
      s.finished && Genuine(b, s.params, s.generated) && (Greedy(s.params) ==> s.generated == Solo(b, s.params))
  {
    hide Inv, Run, Drain, Solo, Greedy, Genuine;
    var n := DrainIsRun(b, e, clock, 0, MAX_ITERATIONS);
    var ops := Iterations(clock, 0, n);
    StepsAreFresh(b, e, ops);
    ET.RunKeeps(b, e, ops);
  }
}
