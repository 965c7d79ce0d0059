/** What the engine relies on when it takes a batch from the queue. */
module SchedulerBatches {
  import opened Prelude
  import opened SchedulerModel
  import opened SchedulerOrder
  import opened SchedulerEffects
  import opened SchedulerHistory

  /** A batch is freshly started: distinct requests, filed as running under their ids, none of them filed before. */
  ghost predicate FreshBatch(s: Scheduler, s': Scheduler, batch: seq<Request>) {
    && NoDup(Ids(batch))
    && (forall r | r in batch ::
          r.status == RUNNING && r.Id() in s'.running && s'.running[r.Id()] == r
          && r.Id() !in s.running && r.Id() !in s.completed)
    && (forall id | id in s'.running :: if id in s.running then s'.running[id] == s.running[id] else id in Ids(batch))
    && (forall id | id in s.running :: id in s'.running)
  }

  /** Requests already filed stay as they are; whatever is filed as completed on the way was cancelled. */
  ghost predicate CompletedGrows(s: Scheduler, s': Scheduler) {
    && (forall id | id in s.completed :: id in s'.completed && s'.completed[id] == s.completed[id])
    && (forall id | id in s'.completed && id !in s.completed ::
         s'.completed[id].status == CANCELLED && id in Ids(s.pending))
  }

  lemma {:induction false} GrowsFrame(s: Scheduler, mid: Scheduler, s': Scheduler)
    requires CompletedGrows(s, mid) && s'.completed == mid.completed
    ensures CompletedGrows(s, s')
  {
  }

  lemma {:induction false} StartedIsFresh(s: Scheduler, s': Scheduler, queue: seq<Request>, n: nat, now: real)
    requires n <= |queue| && NoDup(Ids(queue))
    requires (forall id | id in Ids(queue) :: id !in s.running && id !in s.completed)
    requires s'.running == AddAll(s.running, StartAll(queue[..n], now))
    ensures FreshBatch(s, s', StartAll(queue[..n], now))
  {
    hide NoDup, AddAll, IdSet, Added;
    var batch := StartAll(queue[..n], now);
    SplitDistinct(queue, n);
    assert Ids(batch) == Ids(queue[..n]);
    IdSetMembers(batch);
    AddAllEffect(s.running, batch);
    AddedFacts(s.running, s'.running, batch);
    forall r | r in batch ensures r.status == RUNNING && r.Id() in Ids(queue) {
      var i :| 0 <= i < |batch| && batch[i] == r;
      assert Ids(batch)[i] == r.Id();
    }
  }

  lemma {:induction false} QueueIds(s: Scheduler, now: real)
    requires Inv(s)
    ensures var queue := InOrder(s.policy, Filter(OnTime(now), s.pending));
      NoDup(Ids(queue)) && forall id | id in Ids(queue) :: id !in s.running && id !in s.completed
  {
    hide NoDup, InOrder, Filter, Counted, Staged;
    FilterDistinct(OnTime(now), s.pending);
    InOrderMembers(s.policy, Filter(OnTime(now), s.pending));
  }

  lemma {:induction false} LateAreCancelled(s: Scheduler, now: real)
    requires NoDup(Ids(s.pending)) && forall id | id in Ids(s.pending) :: id !in s.completed
    ensures var s' := EnforceTimeouts(s, now); CompletedGrows(s, s')
  {
    hide NoDup, EnforceTimeouts, Filter;
    EnforceEffect(s, now);
    var s' := EnforceTimeouts(s, now);
    var late := Filter(Late(now), s.pending);
    IdSetMembers(late);
    FilterDistinct(Late(now), s.pending);
    forall id | id in s'.completed && id !in s.completed ensures s'.completed[id].status == CANCELLED
      && id in Ids(s.pending) {
      IdIn(late, id);
    }
  }

  lemma {:induction false} BatchIsFresh(s: Scheduler, now: real, k: nat)
    requires Inv(s)
    ensures var (s', batch) := GetNextBatch(s, now, k);
      FreshBatch(s, s', batch) && CompletedGrows(s, s') && |batch| <= k
  {
    hide NoDup, AddAll, EnforceTimeouts, InOrder, Filter, Counted, Staged, Ids, FreshBatch, CompletedGrows,
         GetNextBatch;
    DistinctPending(s);
    BatchEffect(s, now, k);
    EnforceEffect(s, now);
    LateAreCancelled(s, now);
    var (s', batch) := GetNextBatch(s, now, k);
    var queue := InOrder(s.policy, Filter(OnTime(now), s.pending));
    var n := Min(k, |queue|);
    QueueIds(s, now);
    StartedIsFresh(s, s', queue, n, now);
    GrowsFrame(s, EnforceTimeouts(s, now), s');
  }

  // ----- how much work a pending list holds -----

  /** Most tokens a request can generate. */
  ghost function Cost(r: Request): (n: nat)
    ensures n >= 1
  {
    if r.params.maxTokens < 1 then 1 else r.params.maxTokens
  }

  ghost function Work(rs: seq<Request>): (n: nat)
    ensures n >= |rs|
  {
    if rs == [] then 0 else Work(Init(rs)) + Cost(Last(rs))
  }

  lemma {:induction false} WorkConcat(a: seq<Request>, b: seq<Request>)
    ensures Work(a + b) == Work(a) + Work(b)
  {
    if b == [] {
      assert a + b == a;
    } else {
      assert Init(a + b) == a + Init(b);
      WorkConcat(a, Init(b));
    }
  }

  lemma {:induction false} WorkSnoc(rs: seq<Request>, x: Request)
    ensures Work(rs + [x]) == Work(rs) + Cost(x)
  {
    assert Init(rs + [x]) == rs;
  }

  lemma {:induction false} WorkFilter(p: Request -> bool, rs: seq<Request>)
    ensures Work(Filter(p, rs)) <= Work(rs)
    ensures Filter(p, rs) == rs || Work(Filter(p, rs)) < Work(rs)
  {
    if rs == [] {
      FilterNone(p, rs);
    } else {
      hide Work, Filter;
      var init, x := Init(rs), Last(rs);
      WorkFilter(p, init);
      assert rs == init + [x];
      FilterSnoc(p, init, x);
      WorkSnoc(init, x);
      WorkSnoc(Filter(p, init), x);
    }
  }

  lemma {:induction false} WorkInsert(rs: seq<Request>, x: Request)
    ensures Work(Insert(rs, x)) == Work(rs) + Cost(x)
  {
    if rs == [] || KeyLe(Last(rs), x) {
      assert Init(rs + [x]) == rs;
    } else {
      WorkInsert(Init(rs), x);
      assert Init(Insert(Init(rs), x) + [Last(rs)]) == Insert(Init(rs), x);
    }
  }

  lemma {:induction false} WorkSorted(rs: seq<Request>)
    ensures Work(StableSort(rs)) == Work(rs)
  {
    if rs != [] {
      WorkSorted(Init(rs));
      WorkInsert(StableSort(Init(rs)), Last(rs));
    }
  }

  lemma {:induction false} WorkInOrder(policy: string, rs: seq<Request>)
    ensures Work(InOrder(policy, rs)) == Work(rs) && |InOrder(policy, rs)| == |rs|
  {
    if policy == "priority" {
      WorkSorted(rs);
      StableSortMembers(rs);
    }
  }

  lemma {:induction false} WorkStarted(rs: seq<Request>, now: real)
    ensures Work(StartAll(rs, now)) == Work(rs)
  {
    if rs != [] {
      WorkStarted(Init(rs), now);
      assert Init(StartAll(rs, now)) == StartAll(Init(rs), now);
    }
  }

  /** Taking a batch never adds work, uses up some of it when there is a free slot, and leaves requests
      pending only when the batch is full. */
  lemma {:induction false} BatchWork(s: Scheduler, now: real, k: nat)
    requires Inv(s)
    ensures var (s', batch) := GetNextBatch(s, now, k);
      && Work(s'.pending) + Work(batch) <= Work(s.pending)
      && (s.pending != [] && k > 0 ==> Work(s'.pending) < Work(s.pending))
      && (|batch| < k ==> s'.pending == [])
      && (s.pending == [] ==> batch == [] && s'.pending == [])
  {
    hide Insert, StableSort, AddAll, EnforceTimeouts, Inv, NoDup, InOrder, GetNextBatch;
    DistinctPending(s);
    BatchEffect(s, now, k);
    var onTime := Filter(OnTime(now), s.pending);
    var queue := InOrder(s.policy, onTime);
    var n := Min(k, |queue|);
    WorkFilter(OnTime(now), s.pending);
    WorkInOrder(s.policy, onTime);
    assert queue == queue[..n] + queue[n..];
    WorkConcat(queue[..n], queue[n..]);
    WorkStarted(queue[..n], now);
  }
}
