/** How few iterations a drain takes: every iteration is full but at most one longest output. */
module EngineBounds {
  import opened Prelude
  import opened Decoding
  import opened EngineModel
  import opened EngineInvariant
  import opened EngineAdmission
  import opened EngineSteps
  import CM = CacheModel
  import SM = SchedulerModel
  import SH = SchedulerHistory
  import SB = SchedulerBatches

  // ----- admission without memory failures -----

  ghost function Starts(b: Backend, ps: seq<Params>): (ss: seq<Sequence>)
    ensures |ss| == |ps| && forall i | 0 <= i < |ps| :: ss[i] == Start(ps[i], Encode(b, ps[i].prompt))
  {
    seq(|ps|, i requires 0 <= i < |ps| => Start(ps[i], Encode(b, ps[i].prompt)))
  }

  /** When the batch grows by as many sequences as were admitted, none was evicted or refused. */
  lemma {:induction false} AllAdmitted(b: Backend, e: Engine, ps: seq<Params>, now: real)
    requires CM.Wf(e.cache) && Core(b, e) && ReadyAll(e, ps)
    requires |AdmitAll(b, e, ps, now).active| == |e.active| + |ps|
    ensures var e' := AdmitAll(b, e, ps, now);
      e'.active == e.active + Starts(b, ps) && e'.cache.totalEvicted == e.cache.totalEvicted
  {
    hide Core, AdmitOne, Encode, FitsNow, FitsAfterEviction;
    if ps == [] {
      assert e.active + Starts(b, ps) == e.active;
    } else {
      var init, p := Init(ps), Last(ps);
      assert ps == init + [p];
      AdmitAllKeeps(b, e, init, now);
      var mid := AdmitAll(b, e, init, now);
      StillReady(b, e, mid, init, p);
      AdmissionOutcome(b, mid, p, now);
      AllAdmitted(b, e, init, now);
      assert Starts(b, ps) == Starts(b, init) + [Start(p, Encode(b, p.prompt))];
    }
  }

  /** The whole batch taken from the queue joins: no allocation of this iteration ran out of memory. */
  ghost predicate AdmitsEveryone(b: Backend, e: Engine, now: real)
    requires CM.Wf(e.cache)
  {
    var slots := e.maxBatchSize - |e.active|;
    slots > 0 ==> |Admit(b, e, now).active| == |e.active| + |SM.GetNextBatch(e.scheduler, now, slots).1|
  }

  /** Then the old batch stays in front, new sequences follow only from a non-empty queue, and requests
      remain pending only if the batch is full. */
  lemma {:induction false} AdmittedShape(b: Backend, e: Engine, now: real)
    requires CM.Wf(e.cache) && Inv(b, e) && AdmitsEveryone(b, e, now)
    ensures var a := Admit(b, e, now);
      && |e.active| <= |a.active| && a.active[..|e.active|] == e.active
      && (forall j | |e.active| <= j < |a.active| :: a.active[j].generated == [])
      && (e.scheduler.pending == [] ==> a.active == e.active && a.scheduler.pending == [])
      && (|a.active| < e.maxBatchSize ==> a.scheduler.pending == [])
      && a.cache.totalEvicted == e.cache.totalEvicted
  {
    hide Core, SM.GetNextBatch, AdmitAll, SB.Work, Encode;
    var slots := e.maxBatchSize - |e.active|;
    assert e.active[..|e.active|] == e.active;
    if slots > 0 {
      var (s', batch) := SM.GetNextBatch(e.scheduler, now, slots);
      var taken := e.(scheduler := s');
      TakenKeeps(b, e, now, slots);
      assert SH.Inv(e.scheduler) by { CoreParts(b, e); }
      SB.BatchWork(e.scheduler, now, slots);
      AdmitAllKeeps(b, taken, ParamsOf(batch), now);
      AllAdmitted(b, taken, ParamsOf(batch), now);
      var a := Admit(b, e, now);
      assert a.active == e.active + Starts(b, ParamsOf(batch));
    }
  }

  // ----- the list-scheduling bound -----

  ghost function Longest(ss: seq<Sequence>): (n: nat)
    ensures forall s | s in ss :: |s.generated| <= n
  {
    if ss == [] then 0 else
      assert ss == Init(ss) + [Last(ss)];
      Max(Longest(Init(ss)), |Last(ss).generated|)
  }

  lemma {:induction false} LongestAttained(ss: seq<Sequence>)
    ensures ss == [] ==> Longest(ss) == 0
    ensures ss != [] ==> exists s :: s in ss && |s.generated| == Longest(ss)
  {
    if ss != [] {
      LongestAttained(Init(ss));
      assert ss == Init(ss) + [Last(ss)];
      assert Last(ss) in ss;
    }
  }

  lemma {:induction false} LongestMono(a: seq<Sequence>, b: seq<Sequence>)
    requires forall s | s in a :: s in b
    ensures Longest(a) <= Longest(b)
  {
    LongestAttained(a);
  }

  /** A sequence one pass later is still in the batch or among the finished ones, one token longer. */
  lemma {:induction false} PassLengths(decoded: seq<Sequence>)
    ensures forall t :: t in decoded <==> t in Filter(Unfinished(), decoded) + Finished(decoded)
  {
    FilterMembers(Unfinished(), decoded);
    FilterMembers(IsFinished(), decoded);
  }

  ghost predicate AtLeast(ss: seq<Sequence>, m: nat) {
    forall s | s in ss :: |s.generated| >= m
  }

  lemma {:induction false} InvCore(b: Backend, e: Engine)
    requires Inv(b, e)
    ensures Core(b, e)
  {
  }

  lemma {:induction false} DecodedAtLeast(before: seq<Sequence>, active: seq<Sequence>, decoded: seq<Sequence>,
                                          m: nat, m': nat, drained: bool)
    requires |before| <= |active| == |decoded| && active[..|before|] == before && AtLeast(before, m)
    requires forall i | 0 <= i < |active| :: |decoded[i].generated| == |active[i].generated| + 1
    requires (drained || m == 0) && (drained ==> active == before) && m' <= m + 1
    ensures AtLeast(decoded, m')
  {
    forall t | t in decoded ensures |t.generated| >= m' {
      var i :| 0 <= i < |decoded| && decoded[i] == t;
      if i < |before| {
        assert active[..|before|][i] in before;
      }
    }
  }

  lemma {:induction false} PassCharge(before: seq<Sequence>, active: seq<Sequence>, decoded: seq<Sequence>, m: nat,
                                      m': nat, drained: bool)
    requires |before| <= |active| == |decoded| && active[..|before|] == before && AtLeast(before, m) && active != []
    requires forall i | 0 <= i < |active| :: |decoded[i].generated| == |active[i].generated| + 1
    requires (drained || m == 0) && (drained ==> active == before) && m' <= m + 1
    ensures var kept, done := Filter(Unfinished(), decoded), Finished(decoded);
      && AtLeast(kept, m') && AtLeast(done, m') && kept + done != []
      && (forall s | s in before :: exists t: Sequence :: t in kept + done && |t.generated| > |s.generated|)
  {
    PassLengths(decoded);
    DecodedAtLeast(before, active, decoded, m, m', drained);
    assert decoded[0] in decoded;
    var kept, done := Filter(Unfinished(), decoded), Finished(decoded);
    forall s | s in before ensures exists t: Sequence :: t in kept + done && |t.generated| > |s.generated| {
      var i :| 0 <= i < |before| && before[i] == s;
      assert active[..|before|][i] == s;
      assert decoded[i] in decoded;
    }
  }

  lemma {:induction false} InvSize(b: Backend, e: Engine, a: Engine)
    requires Inv(b, a) && a.maxBatchSize == e.maxBatchSize && e.maxBatchSize >= 1
    ensures |a.active| <= e.maxBatchSize
  {
    hide Core;
  }

  lemma {:induction false} ChargeOfPass(b: Backend, before: seq<Sequence>, a: Engine, m: nat, m': nat, drained: bool)
    requires Causal(b) && Tokenizes(b) && Inv(b, a) && a.active != []
    requires |before| <= |a.active| && a.active[..|before|] == before && AtLeast(before, m)
    requires (drained || m == 0) && (drained ==> a.active == before) && m' <= m + 1
    ensures var decoded := Decode(b, a).active;
      var kept, done := Filter(Unfinished(), decoded), Finished(decoded);
      && AtLeast(kept, m') && AtLeast(done, m') && kept + done != []
      && (forall s | s in before :: exists t: Sequence :: t in kept + done && |t.generated| > |s.generated|)
  {
    hide Inv, Decode, Decoded, Core, Base, Finished;
    assert Core(b, a) by { InvCore(b, a); }
    DecodeKeeps(b, a);
    PassCharge(before, a.active, Decode(b, a).active, m, m', drained);
  }

  /** What an iteration costs and what it proves about lengths. When the batch was not full the queue is
      empty afterwards and every sequence is one token longer than before. */
  lemma {:induction false} StepCharge(b: Backend, e: Engine, now: real, m: nat)
    requires CM.Wf(e.cache) && Causal(b) && Tokenizes(b) && Inv(b, e) && e.maxBatchSize >= 1
    requires AdmitsEveryone(b, e, now)
    requires AtLeast(e.active, m) && (m > 0 ==> e.scheduler.pending == [])
    ensures var (e', done) := Step(b, e, now);
      var size := |Admit(b, e, now).active|;
      var m' := if size < e.maxBatchSize then m + 1 else m;
      && Inv(b, e') && e'.maxBatchSize == e.maxBatchSize && size <= e.maxBatchSize
      && (size == 0 ==> e'.totalIterations == e.totalIterations && e'.totalTokens == e.totalTokens && e'.active == []
                        && done == [] && e.active == [] && (m > 0 ==> e'.scheduler.pending == []))
      && (size > 0 ==>
            && e'.totalIterations == e.totalIterations + 1 && e'.totalTokens == e.totalTokens + size
            && AtLeast(e'.active, m') && AtLeast(done, m') && e'.active + done != []
            && (m' > 0 ==> e'.scheduler.pending == []))
      && (forall s | s in e.active :: exists t :: t in e'.active + done && |t.generated| > |s.generated|)
  {
    hide Inv, Step, Admit, Decode, Decoded, AdmitsEveryone, Finished, Unfinished, Core;
    StepShape(b, e, now);
    AdmitKeeps(b, e, now);
    AdmittedShape(b, e, now);
    InvSize(b, e, Admit(b, e, now));
    var a := Admit(b, e, now);
    var (e', done) := Step(b, e, now);
    if a.active != [] {
      ChargeOfPass(b, e.active, a, m, if |a.active| < e.maxBatchSize then m + 1 else m, e.scheduler.pending == []);
    }
  }

  /** No iteration of the drain runs out of memory. */
  ghost predicate DrainAdmits(b: Backend, e: Engine, clock: nat -> real, i: nat, left: nat)
    requires CM.Wf(e.cache)
    decreases left
  {
    left == 0 ||
    (AdmitsEveryone(b, e, clock(i)) &&
     var e' := Step(b, e, clock(i)).0; Idle(e') || DrainAdmits(b, e', clock, i + 1, left - 1))
  }

  /** The bound: i iterations of a batch of the given capacity generated t tokens, and at most
      longest - m of them were not full. */
  ghost predicate Bounded(capacity: int, i: int, t: int, longest: nat, m: nat) {
    capacity * i <= t + (capacity - 1) * CM.Monus(longest, m)
  }

  lemma {:induction false} BoundedIdle(capacity: int, longest: nat, m: nat)
    requires capacity >= 1
    ensures Bounded(capacity, 0, 0, longest, m)
  {
    assert (capacity - 1) * CM.Monus(longest, m) >= 0;
  }

  lemma {:induction false} BoundedWeaken(capacity: int, i: int, t: int, shorter: nat, longest: nat, m: nat)
    requires capacity >= 1 && shorter <= longest && Bounded(capacity, i, t, shorter, m)
    ensures Bounded(capacity, i, t, longest, m)
  {
    var x, y := CM.Monus(shorter, m), CM.Monus(longest, m);
    assert (capacity - 1) * x <= (capacity - 1) * y;
  }

  /** One more iteration in front, full or not. */
  lemma {:induction false} BoundedCharge(capacity: int, i: int, t: int, size: nat, longest: nat, m: nat)
    requires 0 < size <= capacity
    requires Bounded(capacity, i, t, longest, if size < capacity then m + 1 else m)
    requires size < capacity ==> longest >= m + 1
    ensures Bounded(capacity, i + 1, t + size, longest, m)
  {
    assert capacity * (i + 1) == capacity * i + capacity;
    if size < capacity {
      var k := longest - (m + 1);
      assert (capacity - 1) * (k + 1) == (capacity - 1) * k + (capacity - 1);
    }
  }

  lemma {:induction false} StillCounted(active: seq<Sequence>, done: seq<Sequence>, last: seq<Sequence>,
                                        returned: seq<Sequence>, longest: nat)
    requires longest == Longest(last + returned)
    requires forall s | s in active :: |s.generated| <= longest
    requires done <= returned
    ensures forall t | t in active + done :: |t.generated| <= longest
  {
    hide Longest;
    forall t | t in done ensures t in last + returned {
      assert t in returned;
    }
  }

  /** How full the next iterations must be, after one of this size. */
  function NextLevel(size: nat, capacity: int, m: nat): nat {
    if 0 < size < capacity then m + 1 else m
  }

  /** One more iteration in front of a drain that meets the bound. */
  lemma {:induction false} BoundInFront(e: Engine, e': Engine, done: seq<Sequence>, last: Engine,
                                        more: seq<Sequence>, size: nat, m: nat)
    requires size <= e.maxBatchSize && e.maxBatchSize >= 1
    requires size == 0 ==> e'.totalIterations == e.totalIterations && e'.totalTokens == e.totalTokens
    requires size > 0 ==> e'.totalIterations == e.totalIterations + 1 && e'.totalTokens == e.totalTokens + size
    requires size > 0 ==> e'.active + done != []
    requires AtLeast(e'.active + done, NextLevel(size, e.maxBatchSize, m)) || size == 0
    requires forall s | s in e'.active :: |s.generated| <= Longest(last.active + more)
    requires Bounded(e.maxBatchSize, last.totalIterations - e'.totalIterations, last.totalTokens - e'.totalTokens,
                     Longest(last.active + more), NextLevel(size, e.maxBatchSize, m))
    ensures var longest := Longest(last.active + (done + more));
      && Bounded(e.maxBatchSize, last.totalIterations - e.totalIterations, last.totalTokens - e.totalTokens, longest, m)
      && (forall t | t in e'.active + done :: |t.generated| <= longest)
  {
    hide Longest, Bounded;
    var longest := Longest(last.active + (done + more));
    var i, t := last.totalIterations - e'.totalIterations, last.totalTokens - e'.totalTokens;
    LongestMono(last.active + more, last.active + (done + more));
    BoundedWeaken(e.maxBatchSize, i, t, Longest(last.active + more), longest, NextLevel(size, e.maxBatchSize, m));
    StillCounted(e'.active, done, last.active, done + more, longest);
    if size > 0 {
      assert (e'.active + done)[0] in e'.active + done;
      BoundedCharge(e.maxBatchSize, i, t, size, longest, m);
    }
  }

  lemma {:induction false} IdleIsEmpty(e: Engine)
    requires Idle(e)
    ensures e.active == []
  {
  }

  lemma {:induction false} DrainBound(b: Backend, e: Engine, clock: nat -> real, i: nat, left: nat, m: nat)
    requires CM.Wf(e.cache) && Causal(b) && Tokenizes(b) && Inv(b, e) && e.maxBatchSize >= 1
    requires DrainAdmits(b, e, clock, i, left)
    requires AtLeast(e.active, m) && (m > 0 ==> e.scheduler.pending == [])
    ensures var (last, returned) := Drain(b, e, clock, i, left);
      var longest := Longest(last.active + returned);
      && last.totalIterations >= e.totalIterations
      && Bounded(e.maxBatchSize, last.totalIterations - e.totalIterations, last.totalTokens - e.totalTokens, longest, m)
      && (forall s | s in e.active :: |s.generated| <= longest)
    decreases left
  {
    hide Inv, Step, Admit, AdmitsEveryone, Longest, Bounded, Idle;
    var (last, returned) := Drain(b, e, clock, i, left);
    if left == 0 {
      assert last.active + returned == e.active;
      BoundedIdle(e.maxBatchSize, Longest(e.active), m);
    } else {
      var size := |Admit(b, e, clock(i)).active|;
      var next := NextLevel(size, e.maxBatchSize, m);
      StepCharge(b, e, clock(i), m);
      var (e', done) := Step(b, e, clock(i));
      if Idle(e') {
        assert e'.active == [] by { IdleIsEmpty(e'); }
        assert done + [] == done;
        BoundedIdle(e.maxBatchSize, Longest(e'.active + []), next);
        BoundInFront(e, e', done, e', [], size, m);
      } else {
        DrainBound(b, e', clock, i + 1, left - 1, next);
        BoundInFront(e, e', done, last, Drain(b, e', clock, i + 1, left - 1).1, size, m);
      }
    }
  }

  /** A drain of a fresh batch wastes at most one longest output: every iteration but those is full. */
  lemma {:induction false} ListSchedulingBound(b: Backend, e: Engine, clock: nat -> real)
    requires CM.Wf(e.cache) && Causal(b) && Tokenizes(b) && Inv(b, e) && e.maxBatchSize >= 1
    requires e.active == [] && DrainAdmits(b, e, clock, 0, 10000)
    ensures var (last, returned) := RunUntilEmpty(b, e, clock);
      e.maxBatchSize * (last.totalIterations - e.totalIterations)
        <= (last.totalTokens - e.totalTokens) + (e.maxBatchSize - 1) * Longest(last.active + returned)
  {
    hide Inv, Drain, DrainAdmits, Longest;
    assert AtLeast(e.active, 0);
    DrainBound(b, e, clock, 0, MAX_ITERATIONS, 0);
  }
}
