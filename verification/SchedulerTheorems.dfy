/** The promises of the request queue, over every history of operations. */
module SchedulerTheorems {
  import opened Prelude
  import opened SchedulerModel
  import opened SchedulerOrder
  import opened SchedulerEffects
  import opened SchedulerHistory

  // ----- what a history submitted, served and dropped -----

  ghost function AcceptedBy(s: Scheduler, op: SchedulerOp): seq<Request> {
    if op.SubmitOp? && Submit(s, op.request).1 then [op.request] else []
  }

  ghost function Accepted(s: Scheduler, ops: seq<SchedulerOp>): seq<Request> {
    if ops == [] then [] else Accepted(s, Init(ops)) + AcceptedBy(Run(s, Init(ops)), Last(ops))
  }

  ghost function ServedBy(s: Scheduler, op: SchedulerOp): seq<Id> {
    if op.BatchOp? then Ids(GetNextBatch(s, op.now, op.maxBatchSize).1) else []
  }

  /** All batches ever returned, one after the other. */
  ghost function Served(s: Scheduler, ops: seq<SchedulerOp>): seq<Id> {
    if ops == [] then [] else Served(s, Init(ops)) + ServedBy(Run(s, Init(ops)), Last(ops))
  }

  ghost function DroppedBy(s: Scheduler, op: SchedulerOp): set<Id> {
    match op
    case BatchOp(now, _) => IdSet(Filter(Late(now), s.pending))
    case CancelOp(id, _) => if id in Ids(s.pending) then {id} else {}
    case _ => {}
  }

  /** The requests that timed out or were cancelled while they were pending. */
  ghost function Dropped(s: Scheduler, ops: seq<SchedulerOp>): set<Id> {
    if ops == [] then {} else Dropped(s, Init(ops)) + DroppedBy(Run(s, Init(ops)), Last(ops))
  }

  ghost predicate NoSubmits(ops: seq<SchedulerOp>) {
    forall i | 0 <= i < |ops| :: !ops[i].SubmitOp?
  }

  lemma {:induction false} RunKeeps(s: Scheduler, ops: seq<SchedulerOp>)
    requires Inv(s) && FreshRun(s, ops)
    ensures Inv(Run(s, ops))
  {
    if ops != [] {
      RunKeeps(s, Init(ops));
      ApplyKeeps(Run(s, Init(ops)), Last(ops));
    }
  }

  // ----- no request is lost -----

  /** Some place holds the request with these parameters. */
  ghost predicate Holds(s: Scheduler, p: Params) {
    (exists r :: r in s.pending && r.params == p)
    || (p.id in s.running && s.running[p.id].params == p)
    || (p.id in s.completed && s.completed[p.id].params == p)
  }

  lemma {:induction false} HeldIsFound(s: Scheduler, p: Params)
    requires Separate(s) && Holds(s, p)
    ensures var r := GetRequestStatus(s, p.id); r.Some? && r.value.params == p
  {
    if r :| r in s.pending && r.params == p {
      FindSpec(s.pending, r);
    }
  }

  lemma {:induction false} ExpireAllHolds(s: Scheduler, late: seq<Request>, now: real, p: Params)
    requires NoDup(Ids(s.pending)) && Holds(s, p)
    requires forall r | r in late :: r in s.pending
    requires forall id | id in IdSet(late) :: id !in s.running && id !in s.completed
    requires NoDup(Ids(late))
    ensures Holds(ExpireAll(s, late, now), p)
  {
    ExpireAllEffect(s, late, now);
    var s' := ExpireAll(s, late, now);
    var expired := ExpiredAll(late, now);
    SameIdSet(expired, late);
    AddAllEffect(s.completed, expired);
    if r :| r in s.pending && r.params == p {
      FilterMembers(NotAmong(IdSet(late)), s.pending);
      if r.Id() in IdSet(late) {
        IdSetMembers(late);
        IdIn(late, r.Id());
        var x :| x in late && x.Id() == r.Id();
        SameIdSameRequest(s.pending, x, r);
        var i :| 0 <= i < |late| && late[i] == x;
        assert expired[i] in expired;
      } else {
        assert r in s'.pending;
      }
    }
  }

  lemma {:induction false} StartKeepsIds(rs: seq<Request>, now: real)
    ensures Ids(StartAll(rs, now)) == Ids(rs)
  {
  }

  lemma {:induction false} InFrontOrBack(queue: seq<Request>, n: nat, now: real, r: Request)
    requires n <= |queue| && r in queue
    ensures r in queue[n..] || (r.Started(now) in StartAll(queue[..n], now) && r.Id() in Ids(StartAll(queue[..n], now)))
  {
    var i :| 0 <= i < |queue| && queue[i] == r;
    if i < n {
      var batch := StartAll(queue[..n], now);
      assert batch[i] in batch && Ids(batch)[i] == r.Id();
    } else {
      assert queue[n..][i - n] == r;
    }
  }

  lemma {:induction false} ServeHolds(s: Scheduler, queue: seq<Request>, n: nat, now: real, p: Params)
    requires Inv(s) && Holds(s, p) && n <= |queue| && NoDup(Ids(queue))
    requires forall r :: r in queue <==> r in s.pending
    ensures Holds(s.(pending := queue[n..], running := AddAll(s.running, StartAll(queue[..n], now))), p)
  {
    hide NoDup, AddAll, IdSet, Ids, StartAll;
    var batch := StartAll(queue[..n], now);
    SplitDistinct(queue, n);
    SameMembersSameIds(queue, s.pending);
    StartKeepsIds(queue[..n], now);
    IdSetMembers(batch);
    AddAllEffect(s.running, batch);
    if r :| r in s.pending && r.params == p {
      InFrontOrBack(queue, n, now, r);
    }
  }

  lemma {:induction false} BatchHolds(s: Scheduler, now: real, k: nat, p: Params)
    requires Inv(s) && Holds(s, p)
    ensures Holds(GetNextBatch(s, now, k).0, p)
  {
    hide Holds, Known, AddAll;
    var late := Filter(Late(now), s.pending);
    FilterDistinct(Late(now), s.pending);
    FilterMembers(Late(now), s.pending);
    IdSetMembers(late);
    ExpireAllHolds(s, late, now, p);
    TimeoutsKeep(s, now);
    var mid := EnforceTimeouts(s, now);
    if mid.pending != [] {
      InOrderMembers(s.policy, mid.pending);
      var queue := InOrder(s.policy, mid.pending);
      assert mid.policy == s.policy by { ExpireAllEffect(s, late, now); }
      ServeHolds(mid, queue, Min(k, |queue|), now, p);
    }
  }

  lemma {:induction false} CancelHolds(s: Scheduler, id: Id, now: real, p: Params)
    requires Inv(s) && Holds(s, p)
    ensures Holds(Cancel(s, id, now).0, p)
  {
    hide NoDup, Drop;
    DropMembers(s.pending, id);
    if r :| r in s.pending && r.params == p {
      if r.Id() == id {
        FindSpec(s.pending, r);
      } else {
        assert id in Ids(s.pending) ==> r in Drop(s.pending, id);
      }
    } else {
      IdIn(s.pending, p.id);
    }
  }

  lemma {:induction false} ApplyHolds(s: Scheduler, op: SchedulerOp, p: Params)
    requires Inv(s) && Holds(s, p)
    requires op.SubmitOp? ==> !Known(s, op.request.Id())
    ensures Holds(Apply(s, op), p)
  {
    match op
    case SubmitOp(r) =>
      if x :| x in s.pending && x.params == p {
        assert x in s.pending + [Queued(s, r)];
      }
    case BatchOp(now, k) => BatchHolds(s, now, k, p);
    case CompleteOp(id, text, n, now) =>
    case CancelOp(id, now) => CancelHolds(s, id, now, p);
    case FailOp(id, why, now) =>
  }

  lemma {:induction false} NewKeeps(maxQueueSize: int, defaultTimeout: real, policy: string)
    ensures var s := NewScheduler(maxQueueSize, defaultTimeout, policy); Inv(s) && forall id :: !Known(s, id)
  {
  }

  lemma {:induction false} AcceptedStep(s: Scheduler, op: SchedulerOp)
    requires Inv(s) && (op.SubmitOp? ==> !Known(s, op.request.Id()) && op.request.status == PENDING)
    ensures var s', added := Apply(s, op), AcceptedBy(s, op);
      && s'.totalSubmitted == s.totalSubmitted + |added|
      && (forall id :: Known(s', id) <==> Known(s, id) || id in Ids(added))
      && (forall r | r in added :: Holds(s', r.params))
  {
    hide Inv, ExpireAll, Filter, Drop, AddAll;
    if op.SubmitOp? {
      SubmitKeeps(s, op.request);
      if Submit(s, op.request).1 {
        assert Ids([op.request]) == [op.request.Id()];
        assert Queued(s, op.request) in Apply(s, op).pending;
      }
    } else {
      ApplyKeeps(s, op);
      assert s.totalSubmitted == Apply(s, op).totalSubmitted by {
        if op.BatchOp? {
          ExpireAllEffect(s, Filter(Late(op.now), s.pending), op.now);
        }
      }
    }
  }

  lemma {:induction false} AcceptedHeld(s: Scheduler, ops: seq<SchedulerOp>)
    requires Inv(s) && s.totalSubmitted == 0 && (forall id :: !Known(s, id)) && FreshRun(s, ops)
    ensures var s', accepted := Run(s, ops), Accepted(s, ops);
      && |accepted| == s'.totalSubmitted
      && (forall id :: Known(s', id) <==> id in Ids(accepted))
      && (forall r | r in accepted :: Holds(s', r.params))
  {
    hide Inv, Known, Holds;
    if ops != [] {
      var before, op := Run(s, Init(ops)), Last(ops);
      AcceptedHeld(s, Init(ops));
      RunKeeps(s, Init(ops));
      ApplyKeeps(before, op);
      forall r | r in Accepted(s, Init(ops)) ensures Holds(Run(s, ops), r.params) {
        ApplyHolds(before, op, r.params);
      }
      AcceptedStep(before, op);
      IdsConcat(Accepted(s, Init(ops)), AcceptedBy(before, op));
    }
  }

  /** In every reachable state the three places are disjoint and account for every accepted request:
      each one is found under its id with the parameters it was submitted with. */
  lemma {:induction false} NoRequestLost(maxQueueSize: int, defaultTimeout: real, policy: string, ops: seq<SchedulerOp>)
    requires FreshRun(NewScheduler(maxQueueSize, defaultTimeout, policy), ops)
    ensures var start := NewScheduler(maxQueueSize, defaultTimeout, policy);
      var s, accepted := Run(start, ops), Accepted(start, ops);
      && (forall id | id in Ids(s.pending) :: id !in s.running && id !in s.completed)
      && (forall id | id in s.running :: id !in s.completed)
      && |accepted| == s.totalSubmitted == |s.pending| + |s.running| + |s.completed|
      && |s.completed| == s.totalCompleted + s.totalCancelled + s.totalTimedOut
      && (forall id :: Known(s, id) <==> id in Ids(accepted))
      && (forall r | r in accepted :: var found := GetRequestStatus(s, r.Id());
           found.Some? && found.value.params == r.params)
  {
    hide Known, Ids, Holds, FreshRun;
    var start := NewScheduler(maxQueueSize, defaultTimeout, policy);
    NewKeeps(maxQueueSize, defaultTimeout, policy);
    RunKeeps(start, ops);
    AcceptedHeld(start, ops);
    forall r | r in Accepted(start, ops)
      ensures var found := GetRequestStatus(Run(start, ops), r.Id()); found.Some? && found.value.params == r.params
    {
      HeldIsFound(Run(start, ops), r.params);
    }
  }

  // ----- the order of service -----

  lemma {:induction false} FilterIdTwice(d: set<Id>, e: set<Id>, ids: seq<Id>)
    ensures Filter(Outside(e), Filter(Outside(d), ids)) == Filter(Outside(d + e), ids)
  {
    if ids != [] {
      var init, x := Init(ids), Last(ids);
      assert ids == init + [x];
      FilterIdTwice(d, e, init);
      FilterSnoc(Outside(d), init, x);
      FilterSnoc(Outside(e), Filter(Outside(d), init), x);
      FilterSnoc(Outside(d + e), init, x);
    }
  }

  lemma {:induction false} OrderFilter(policy: string, p: Request -> bool, rs: seq<Request>)
    ensures InOrder(policy, Filter(p, rs)) == Filter(p, InOrder(policy, rs))
  {
    SortFilter(p, rs);
  }

  /** The tail of an ordered queue is already in order. */
  lemma {:induction false} OrderTail(policy: string, rs: seq<Request>, n: nat)
    requires n <= |InOrder(policy, rs)|
    ensures InOrder(policy, InOrder(policy, rs)[n..]) == InOrder(policy, rs)[n..]
  {
    if policy == "priority" {
      StableSortSorts(rs);
      SortSorted(StableSort(rs)[n..]);
    }
  }

  lemma {:induction false} BatchQueueStep(s: Scheduler, now: real, k: nat)
    requires Inv(s)
    ensures var (s', batch) := GetNextBatch(s, now, k);
      && s'.policy == s.policy
      && Ids(batch) + Ids(InOrder(s.policy, s'.pending))
         == Filter(Outside(IdSet(Filter(Late(now), s.pending))), Ids(InOrder(s.policy, s.pending)))
  {
    hide InOrder, EnforceTimeouts, AddAll, NoDup, GetNextBatch, Inv, Filter, Ids, IdSet;
    DistinctPending(s);
    var dropped := IdSet(Filter(Late(now), s.pending));
    BatchEffect(s, now, k);
    EnforceEffect(s, now);
    var onTime := Filter(OnTime(now), s.pending);
    var queue := InOrder(s.policy, onTime);
    var n := Min(k, |queue|);
    OrderTail(s.policy, onTime, n);
    OrderFilter(s.policy, NotAmong(dropped), s.pending);
    FilterIds(dropped, InOrder(s.policy, s.pending));
    assert Ids(GetNextBatch(s, now, k).1) + Ids(queue[n..]) == Ids(queue);
  }

  /** One operation serves a prefix of the queue's order once the dropped requests are taken out of it. */
  lemma {:induction false} QueueStep(s: Scheduler, op: SchedulerOp)
    requires Inv(s) && !op.SubmitOp?
    ensures var s' := Apply(s, op);
      && s'.policy == s.policy
      && ServedBy(s, op) + Ids(InOrder(s.policy, s'.pending))
           == Filter(Outside(DroppedBy(s, op)), Ids(InOrder(s.policy, s.pending)))
  {
    hide Inv, InOrder, EnforceTimeouts, AddAll, NoDup, Ids, Filter;
    var all := Ids(InOrder(s.policy, s.pending));
    match op
    case BatchOp(now, k) =>
      BatchQueueStep(s, now, k);
    case CancelOp(id, now) =>
      if id in Ids(s.pending) {
        FilterAgree(Other(id), NotAmong({id}), s.pending);
        OrderFilter(s.policy, NotAmong({id}), s.pending);
        FilterIds({id}, InOrder(s.policy, s.pending));
        assert Drop(s.pending, id) == Filter(NotAmong({id}), s.pending);
      } else {
        FilterAll(Outside({}), all);
      }
    case CompleteOp(_, _, _, _) => FilterAll(Outside({}), all);
    case FailOp(_, _, _) => FilterAll(Outside({}), all);
  }

  lemma {:induction false} LateId(rs: seq<Request>, now: real, id: Id)
    requires NoDup(Ids(rs)) && id in IdSet(Filter(Late(now), rs))
    ensures id in Ids(rs) && id !in Ids(Filter(OnTime(now), rs))
  {
    var late, onTime := Filter(Late(now), rs), Filter(OnTime(now), rs);
    IdSetMembers(late);
    IdIn(late, id);
    FilterMembers(Late(now), rs);
    FilterMembers(OnTime(now), rs);
    LateIsAmong(rs, now);
    IdIn(rs, id);
    IdIn(onTime, id);
  }

  lemma {:induction false} BatchGone(s: Scheduler, now: real, k: nat)
    requires Inv(s)
    ensures var (s', batch) := GetNextBatch(s, now, k);
      var late := IdSet(Filter(Late(now), s.pending));
      && (forall id | id in Ids(s'.pending) :: id in Ids(s.pending) && id !in late && id !in Ids(batch))
      && (forall id | id in late || id in Ids(batch) :: id in Ids(s.pending))
  {
    hide EnforceTimeouts, AddAll, GetNextBatch, InOrder;
    BatchEffect(s, now, k);
    var onTime, late := Filter(OnTime(now), s.pending), Filter(Late(now), s.pending);
    var queue := InOrder(s.policy, onTime);
    var n := Min(k, |queue|);
    FilterDistinct(OnTime(now), s.pending);
    InOrderMembers(s.policy, onTime);
    SplitDistinct(queue, n);
    assert Ids(GetNextBatch(s, now, k).1) == Ids(queue[..n]);
    forall id | id in IdSet(late) ensures id in Ids(s.pending) && id !in Ids(onTime) {
      LateId(s.pending, now, id);
    }
  }

  /** Ids served or dropped are known and no longer pending. */
  lemma {:induction false} GoneStep(s: Scheduler, op: SchedulerOp)
    requires Inv(s) && !op.SubmitOp?
    ensures forall id | id in DroppedBy(s, op) || id in ServedBy(s, op) ::
      Known(s, id) && id !in Ids(Apply(s, op).pending)
    ensures forall id | id in DroppedBy(s, op) :: id in Ids(s.pending)
    ensures forall id | id in Ids(Apply(s, op).pending) :: id in Ids(s.pending)
  {
    hide EnforceTimeouts, AddAll, NoDup, Ids, InOrder;
    match op
    case BatchOp(now, k) => BatchGone(s, now, k);
    case CancelOp(id, now) => DropMembers(s.pending, id);
    case _ =>
  }

  lemma {:induction false} NothingLeaves(s: Scheduler, op: SchedulerOp)
    requires op.SubmitOp?
    ensures ServedBy(s, op) == [] && DroppedBy(s, op) == {}
  {
  }

  lemma {:induction false} SubmitGone(s: Scheduler, r: Request)
    requires Inv(s) && !Known(s, r.Id()) && r.status == PENDING
    ensures forall id | Known(s, id) && id !in Ids(s.pending) :: id !in Ids(Submit(s, r).0.pending)
  {
    SubmitKeeps(s, r);
  }

  lemma {:induction false} Gone(s: Scheduler, ops: seq<SchedulerOp>)
    requires Inv(s) && FreshRun(s, ops)
    ensures var s' := Run(s, ops);
      forall id | id in Served(s, ops) || id in Dropped(s, ops) :: Known(s', id) && id !in Ids(s'.pending)
  {
    hide Inv, Known, Ids, ServedBy, DroppedBy;
    if ops != [] {
      var before, op := Run(s, Init(ops)), Last(ops);
      Gone(s, Init(ops));
      RunKeeps(s, Init(ops));
      ApplyKeeps(before, op);
      if op.SubmitOp? {
        SubmitGone(before, op.request);
        assert ServedBy(before, op) == [] && DroppedBy(before, op) == {} by { NothingLeaves(before, op); }
      } else {
        GoneStep(before, op);
      }
    }
  }

  /** A later operation drops nothing that was already served. */
  lemma {:induction false} ServedStays(s: Scheduler, ops: seq<SchedulerOp>, op: SchedulerOp)
    requires Inv(s) && FreshRun(s, ops) && !op.SubmitOp?
    ensures Filter(Outside(DroppedBy(Run(s, ops), op)), Served(s, ops)) == Served(s, ops)
  {
    hide Inv, DroppedBy, Ids, Known;
    Gone(s, ops);
    RunKeeps(s, ops);
    GoneStep(Run(s, ops), op);
    FilterAll(Outside(DroppedBy(Run(s, ops), op)), Served(s, ops));
  }

  /** From any state, while nothing is submitted: what has been served, followed by the pending list in
      policy order, is the initial pending list in policy order without the dropped requests. */
  lemma {:induction false} ServiceOrder(s: Scheduler, ops: seq<SchedulerOp>)
    requires Inv(s) && NoSubmits(ops)
    ensures FreshRun(s, ops) && Run(s, ops).policy == s.policy
    ensures Served(s, ops) + Ids(InOrder(s.policy, Run(s, ops).pending))
         == Filter(Outside(Dropped(s, ops)), Ids(InOrder(s.policy, s.pending)))
  {
    hide Inv, InOrder, ServedBy, DroppedBy, Apply, Ids, Known;
    if ops == [] {
      FilterAll(Outside({}), Ids(InOrder(s.policy, s.pending)));
    } else {
      var before, op := Run(s, Init(ops)), Last(ops);
      assert forall i | 0 <= i < |ops| - 1 :: Init(ops)[i] == ops[i];
      ServiceOrder(s, Init(ops));
      RunKeeps(s, Init(ops));
      QueueStep(before, op);
      ServedStays(s, Init(ops), op);
      var served, all := Served(s, Init(ops)), Ids(InOrder(s.policy, s.pending));
      FilterConcat(Outside(DroppedBy(before, op)), served, Ids(InOrder(s.policy, before.pending)));
      FilterIdTwice(Dropped(s, Init(ops)), DroppedBy(before, op), all);
    }
  }

  /** Draining by priority is one stable sort. When nothing is submitted and the queue ends empty, the
      concatenated batches are the stable sort by (priority, created_at) of the requests that were not
      cancelled or timed out first; the batch sizes do not appear in the answer. */
  lemma {:induction false} PriorityDrainIsOneSort(s: Scheduler, ops: seq<SchedulerOp>)
    requires Inv(s) && NoSubmits(ops) && s.policy == "priority" && Run(s, ops).pending == []
    ensures Served(s, ops) == Ids(StableSort(Filter(NotAmong(Dropped(s, ops)), s.pending)))
  {
    hide Served, Dropped, StableSort, Run, Inv;
    ServiceOrder(s, ops);
    SortFilter(NotAmong(Dropped(s, ops)), s.pending);
    FilterIds(Dropped(s, ops), StableSort(s.pending));
    assert InOrder(s.policy, []) == [] by { SortSorted([]); }
    assert Ids([]) == [];
  }

  lemma {:induction false} NothingAccepted(s: Scheduler, op: SchedulerOp)
    requires !op.SubmitOp?
    ensures AcceptedBy(s, op) == []
  {
  }

  lemma {:induction false} FcfsSubmit(s: Scheduler, op: SchedulerOp, served: seq<Id>, accepted: seq<Request>,
                                      dropped: set<Id>)
    requires Inv(s) && op.SubmitOp? && !Known(s, op.request.Id()) && op.request.status == PENDING
    requires forall id | id in dropped :: Known(s, id)
    requires served + Ids(s.pending) == Filter(Outside(dropped), Ids(accepted))
    ensures served + Ids(Apply(s, op).pending) == Filter(Outside(dropped), Ids(accepted + AcceptedBy(s, op)))
    ensures Apply(s, op).policy == s.policy
  {
    hide Inv, Known;
    SubmitKeeps(s, op.request);
    var id := op.request.Id();
    if Submit(s, op.request).1 {
      assert Ids(accepted + [op.request]) == Ids(accepted) + [id];
      FilterSnoc(Outside(dropped), Ids(accepted), id);
    } else {
      assert accepted + [] == accepted;
    }
  }

  lemma {:induction false} FcfsServe(s: Scheduler, op: SchedulerOp, served: seq<Id>, accepted: seq<Request>,
                                     dropped: set<Id>)
    requires Inv(s) && !op.SubmitOp? && s.policy != "priority"
    requires served + Ids(s.pending) == Filter(Outside(dropped), Ids(accepted))
    requires Filter(Outside(DroppedBy(s, op)), served) == served
    ensures served + ServedBy(s, op) + Ids(Apply(s, op).pending)
         == Filter(Outside(dropped + DroppedBy(s, op)), Ids(accepted + AcceptedBy(s, op)))
    ensures Apply(s, op).policy == s.policy
  {
    hide Inv, ServedBy, DroppedBy, Apply, Ids, AcceptedBy, Outside;
    QueueStep(s, op);
    FilterConcat(Outside(DroppedBy(s, op)), served, Ids(s.pending));
    FilterIdTwice(dropped, DroppedBy(s, op), Ids(accepted));
    assert AcceptedBy(s, op) == [] by { NothingAccepted(s, op); }
    assert accepted + [] == accepted;
  }

  /** What was served, then what is pending, is what was accepted, in that order, less the dropped. */
  ghost predicate InArrivalOrder(s: Scheduler, ops: seq<SchedulerOp>) {
    && Served(s, ops) + Ids(Run(s, ops).pending) == Filter(Outside(Dropped(s, ops)), Ids(Accepted(s, ops)))
    && Run(s, ops).policy == s.policy
  }

  lemma {:induction false} LastOperation(s: Scheduler, ops: seq<SchedulerOp>)
    requires ops != []
    ensures var before, op := Run(s, Init(ops)), Last(ops);
      && Run(s, ops) == Apply(before, op)
      && Served(s, ops) == Served(s, Init(ops)) + ServedBy(before, op)
      && Dropped(s, ops) == Dropped(s, Init(ops)) + DroppedBy(before, op)
      && Accepted(s, ops) == Accepted(s, Init(ops)) + AcceptedBy(before, op)
  {
    hide Apply, ServedBy, DroppedBy, AcceptedBy;
  }

  lemma {:induction false} FreshUpTo(s: Scheduler, ops: seq<SchedulerOp>)
    requires ops != [] && FreshRun(s, ops)
    ensures FreshRun(s, Init(ops))
    ensures Last(ops).SubmitOp? ==>
      !Known(Run(s, Init(ops)), Last(ops).request.Id()) && Last(ops).request.status == PENDING
  {
  }

  lemma {:induction false} NextInArrivalOrder(s: Scheduler, ops: seq<SchedulerOp>)
    requires Inv(s) && s.policy != "priority" && ops != [] && FreshRun(s, ops) && InArrivalOrder(s, Init(ops))
    ensures InArrivalOrder(s, ops)
  {
    hide Run, Inv, Served, Dropped, Accepted, ServedBy, DroppedBy, AcceptedBy, Apply, Ids, Known, Outside, Filter,
         FreshRun;
    var init, op := Init(ops), Last(ops);
    var before := Run(s, init);
    LastOperation(s, ops);
    FreshUpTo(s, ops);
    RunKeeps(s, init);
    if op.SubmitOp? {
      Gone(s, init);
      FcfsSubmit(before, op, Served(s, init), Accepted(s, init), Dropped(s, init));
      NothingLeaves(before, op);
      var served, dropped := Served(s, init), Dropped(s, init);
      assert served + [] == served && dropped + {} == dropped;
    } else {
      ServedStays(s, init, op);
      FcfsServe(before, op, Served(s, init), Accepted(s, init), Dropped(s, init));
    }
  }

  lemma {:induction false} ArrivalOrderStays(s: Scheduler, ops: seq<SchedulerOp>)
    requires Inv(s) && s.policy != "priority" && FreshRun(s, ops) && InArrivalOrder(s, [])
    ensures InArrivalOrder(s, ops)
  {
    if ops != [] {
      hide InArrivalOrder, Inv, Apply, Known;
      ArrivalOrderStays(s, Init(ops));
      NextInArrivalOrder(s, ops);
    }
  }

  /** FCFS never reorders: all batches served, followed by the pending list, are the accepted
      submissions in order, less exactly those cancelled or timed out while pending. */
  lemma {:induction false} FcfsNeverReorders(maxQueueSize: int, defaultTimeout: real, policy: string,
                                             ops: seq<SchedulerOp>)
    requires policy != "priority" && FreshRun(NewScheduler(maxQueueSize, defaultTimeout, policy), ops)
    ensures var start := NewScheduler(maxQueueSize, defaultTimeout, policy);
      && Served(start, ops) + Ids(Run(start, ops).pending)
           == Filter(Outside(Dropped(start, ops)), Ids(Accepted(start, ops)))
      && Run(start, ops).policy == policy
  {
    hide FreshRun, Inv;
    var start := NewScheduler(maxQueueSize, defaultTimeout, policy);
    NewKeeps(maxQueueSize, defaultTimeout, policy);
    assert Ids(start.pending) == [] && Ids([]) == [];
    ArrivalOrderStays(start, ops);
  }
}
