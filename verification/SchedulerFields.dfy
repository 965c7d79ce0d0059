/** What the queue operations do to each request, on its fields: deadlines, order of service, cancellation. */
module SchedulerFields {
  import opened Prelude
  import opened SchedulerModel
  import opened SchedulerOrder
  import opened SchedulerEffects
  import opened SchedulerHistory

  // ----- deadlines -----

  /** The deadline of a request has not passed. */
  function InTime(now: real): Request -> bool { (r: Request) => now <= r.createdAt + r.timeoutSeconds }

  lemma {:induction false} LateIsPastDeadline(r: Request, now: real)
    ensures r.IsTimedOut(now) <==> now > r.createdAt + r.timeoutSeconds
    ensures OnTime(now)(r) == InTime(now)(r)
  {
  }

  lemma {:induction false} SameWait(rs: seq<Request>, now: real)
    ensures Filter(OnTime(now), rs) == Filter(InTime(now), rs)
  {
    FilterAgree(OnTime(now), InTime(now), rs);
  }

  /** A submission waits until its own timeout has passed since it was created, or the default one if it has
      none. Nothing else about it changes, and it is the last in the queue. */
  lemma {:induction false} SubmitDeadline(s: Scheduler, r: Request, now: real)
    ensures var (s', accepted) := Submit(s, r);
      var limit := if r.timeoutSeconds == 0.0 then s.defaultTimeout else r.timeoutSeconds;
      && (accepted <==> |s.pending| < s.maxQueueSize)
      && (!accepted ==> s' == s)
      && (accepted ==>
            && |s'.pending| == |s.pending| + 1 && s'.pending[..|s.pending|] == s.pending
            && Last(s'.pending).(timeoutSeconds := r.timeoutSeconds) == r
            && (Late(now)(Last(s'.pending)) <==> now - r.createdAt > limit)
            && s' == s.(pending := s'.pending, totalSubmitted := s.totalSubmitted + 1))
  {
  }

  lemma {:induction false} SweptOrKept(s: Scheduler, now: real, r: Request)
    requires Inv(s) && r in s.pending
    ensures var s' := EnforceTimeouts(s, now);
      if now > r.createdAt + r.timeoutSeconds then
        r.Id() in s'.completed
        && s'.completed[r.Id()]
           == r.(status := CANCELLED, completedAt := Some(now), error := Some("Request timed out in queue"))
      else r in s'.pending
  {
    hide Inv, NoDup, EnforceTimeouts, Filter, Ids, IdSet, NotAmong;
    DistinctPending(s);
    EnforceEffect(s, now);
    FilterMembers(OnTime(now), s.pending);
    FilterMembers(Late(now), s.pending);
  }

  lemma {:induction false} NewlyFiled(s: Scheduler, now: real, id: Id)
    requires Inv(s) && id in EnforceTimeouts(s, now).completed && id !in s.completed
    ensures exists r :: r in s.pending && r.Id() == id && now > r.createdAt + r.timeoutSeconds
  {
    hide Inv, NoDup, EnforceTimeouts, Filter, Ids, IdSet, NotAmong;
    DistinctPending(s);
    EnforceEffect(s, now);
    var late := Filter(Late(now), s.pending);
    assert id in EnforceTimeouts(s, now).completed.Keys;
    IdSetMembers(late);
    IdIn(late, id);
    FilterMembers(Late(now), s.pending);
  }

  lemma {:induction false} SweepFrame(s: Scheduler, now: real)
    requires Inv(s)
    ensures var s' := EnforceTimeouts(s, now);
      && s'.pending == Filter(InTime(now), s.pending)
      && (forall id | id in s.completed :: id in s'.completed && s'.completed[id] == s.completed[id])
      && s' == s.(pending := s'.pending, completed := s'.completed, totalTimedOut := s'.totalTimedOut)
      && s'.totalTimedOut == s.totalTimedOut + (|s.pending| - |s'.pending|)
  {
    hide Inv, NoDup, EnforceTimeouts, Filter, Ids, IdSet, NotAmong;
    DistinctPending(s);
    EnforceEffect(s, now);
    SameWait(s.pending, now);
  }

  /** The sweep, request by request: a pending request is filed away as cancelled, with the error that says so,
      exactly when its deadline has passed; the others wait on, unchanged and in order. */
  lemma {:induction false} TimeoutsByDeadline(s: Scheduler, now: real)
    requires Inv(s)
    ensures var s' := EnforceTimeouts(s, now);
      && s'.pending == Filter(InTime(now), s.pending)
      && (forall r | r in s.pending ::
            if now > r.createdAt + r.timeoutSeconds then
              r !in s'.pending && r.Id() in s'.completed
              && s'.completed[r.Id()]
                 == r.(status := CANCELLED, completedAt := Some(now), error := Some("Request timed out in queue"))
            else r in s'.pending)
      && (forall id | id in s.completed :: id in s'.completed && s'.completed[id] == s.completed[id])
      && (forall id | id in s'.completed ::
            id in s.completed || exists r :: r in s.pending && r.Id() == id && now > r.createdAt + r.timeoutSeconds)
      && s' == s.(pending := s'.pending, completed := s'.completed, totalTimedOut := s'.totalTimedOut)
      && s'.totalTimedOut == s.totalTimedOut + (|s.pending| - |s'.pending|)
  {
    hide Inv, EnforceTimeouts, Filter;
    SweepFrame(s, now);
    FilterMembers(InTime(now), s.pending);
    forall r | r in s.pending
      ensures var s' := EnforceTimeouts(s, now);
        if now > r.createdAt + r.timeoutSeconds then
          r.Id() in s'.completed
          && s'.completed[r.Id()]
             == r.(status := CANCELLED, completedAt := Some(now), error := Some("Request timed out in queue"))
        else r in s'.pending
    {
      SweptOrKept(s, now, r);
    }
    forall id | id in EnforceTimeouts(s, now).completed && id !in s.completed
      ensures exists r :: r in s.pending && r.Id() == id && now > r.createdAt + r.timeoutSeconds
    {
      NewlyFiled(s, now, id);
    }
  }

  // ----- order of service -----

  function KeyOf(r: Request): (int, real) { (r.priority, r.createdAt) }

  function WithKey(key: (int, real)): Request -> bool { (r: Request) => KeyOf(r) == key }

  /** The order in which waiting requests are served: under "priority" by (priority, created_at), low numbers first
      and equal keys as they arrived; under any other policy as they arrived. */
  ghost predicate ServiceOrderOf(policy: string, arrived: seq<Request>, queue: seq<Request>) {
    if policy == "priority" then
      && multiset(queue) == multiset(arrived)
      && (forall i, j | 0 <= i < j < |queue| ::
            queue[i].priority < queue[j].priority
            || (queue[i].priority == queue[j].priority && queue[i].createdAt <= queue[j].createdAt))
      && (forall key :: Filter(WithKey(key), queue) == Filter(WithKey(key), arrived))
    else queue == arrived
  }

  lemma {:induction false} InOrderServes(policy: string, rs: seq<Request>)
    ensures ServiceOrderOf(policy, rs, InOrder(policy, rs))
  {
    hide StableSort;
    if policy == "priority" {
      StableSortSorts(rs);
      var queue := StableSort(rs);
      forall key ensures Filter(WithKey(key), queue) == Filter(WithKey(key), rs) {
        if r :| r in rs && KeyOf(r) == key {
          StableSortSpec(rs, r);
          FilterAgree(WithKey(key), SameKey(r), rs);
          FilterAgree(WithKey(key), SameKey(r), queue);
        } else {
          StableSortMembers(rs);
          FilterNone(WithKey(key), rs);
          FilterNone(WithKey(key), queue);
        }
      }
    }
  }

  lemma {:induction false} RunningAfter(s: Scheduler, queue: seq<Request>, n: nat, now: real)
    requires Separate(s) && n <= |queue| && NoDup(Ids(queue)) && forall r | r in queue :: r in s.pending
    ensures var batch := StartAll(queue[..n], now);
      var running := AddAll(s.running, batch);
      && (forall r | r in batch :: r.Id() in running && running[r.Id()] == r)
      && (forall id | id in s.running :: id in running && running[id] == s.running[id])
      && (forall id | id in running :: id in s.running || id in Ids(batch))
  {
    hide AddAll, NoDup, Added, IdSet;
    var batch := StartAll(queue[..n], now);
    SplitDistinct(queue, n);
    assert Ids(batch) == Ids(queue[..n]);
    IdSetMembers(batch);
    forall id | id in Ids(batch) ensures id !in s.running {
      var i :| 0 <= i < |batch| && Ids(batch)[i] == id;
      assert queue[i] in s.pending;
      IdIn(s.pending, id);
    }
    AddAllEffect(s.running, batch);
    AddedFacts(s.running, AddAll(s.running, batch), batch);
  }

  /** A batch, request by request: those whose deadline has passed are not among it; the first k of the rest in
      the order of service are, started now and otherwise unchanged, and are filed as running; the others
      wait on in that order. */
  lemma {:induction false} BatchInService(s: Scheduler, now: real, k: nat) returns (queue: seq<Request>)
    requires Inv(s)
    ensures var (s', batch) := GetNextBatch(s, now, k);
      && ServiceOrderOf(s.policy, Filter(InTime(now), s.pending), queue)
      && |batch| == Min(k, |queue|)
      && (forall i | 0 <= i < |batch| :: batch[i] == queue[i].(status := RUNNING, startedAt := Some(now)))
      && s'.pending == queue[|batch|..]
      && (forall r | r in batch ::
            now <= r.createdAt + r.timeoutSeconds && r.Id() in s'.running && s'.running[r.Id()] == r)
      && (forall id | id in s.running :: id in s'.running && s'.running[id] == s.running[id])
      && (forall id | id in s'.running :: id in s.running || id in Ids(batch))
      && s' == EnforceTimeouts(s, now).(pending := s'.pending, running := s'.running)
  {
    hide InOrder, EnforceTimeouts, AddAll, NoDup, ServiceOrderOf, Filter, Counted, Staged;
    var mid := EnforceTimeouts(s, now);
    var (s', batch) := GetNextBatch(s, now, k);
    SweepFrame(s, now);
    TimeoutsKeep(s, now);
    queue := InOrder(s.policy, mid.pending);
    InOrderServes(s.policy, mid.pending);
    InOrderMembers(s.policy, mid.pending);
    FilterMembers(InTime(now), s.pending);
    if mid.pending != [] {
      DistinctPending(mid);
      RunningAfter(mid, queue, |batch|, now);
      forall r | r in batch ensures now <= r.createdAt + r.timeoutSeconds {
        var i :| 0 <= i < |batch| && batch[i] == r;
        assert queue[i] in mid.pending;
      }
    } else {
      assert queue == [];
    }
  }

  /** The parameters of a batch are those of the first in the order of service, and the rest wait on. */
  lemma {:induction false} ServedInOrder(s: Scheduler, now: real, k: nat) returns (queue: seq<Request>)
    requires Inv(s)
    ensures var (s', batch) := GetNextBatch(s, now, k);
      && ServiceOrderOf(s.policy, Filter(InTime(now), s.pending), queue)
      && |batch| == Min(k, |queue|) && s'.pending == queue[|batch|..]
      && (forall i | 0 <= i < |batch| :: batch[i].params == queue[i].params)
  {
    hide Inv, GetNextBatch, ServiceOrderOf, EnforceTimeouts, Ids, Filter;
    queue := BatchInService(s, now, k);
  }

  /** Once past its deadline, a request is never served, however late the queue is asked. */
  lemma {:induction false} LateNeverServed(s: Scheduler, r: Request, now: real, later: real, k: nat)
    requires Inv(s) && r in s.pending && now > r.createdAt + r.timeoutSeconds && now <= later
    ensures var (s', batch) := GetNextBatch(s, later, k);
      && r.Id() !in Ids(batch) && r.Id() !in Ids(s'.pending)
      && r.Id() in s'.completed && s'.completed[r.Id()].status == CANCELLED
  {
    hide InOrder, EnforceTimeouts, AddAll, GetNextBatch;
    var queue := BatchInService(s, later, k);
    TimeoutsByDeadline(s, later);
    BatchKeeps(s, later, k);
    var (s', batch) := GetNextBatch(s, later, k);
    forall q | q in batch ensures q.Id() != r.Id() {
      assert q.Id() in s'.running;
    }
    IdIn(batch, r.Id());
  }

  // ----- cancelling, completing, failing, looking up -----

  lemma {:induction false} DropIsFilter(rs: seq<Request>, id: Id)
    ensures Drop(rs, id) == Filter(Other(id), rs)
  {
  }

  lemma {:induction false} FoundOnly(s: Scheduler, id: Id)
    requires Inv(s)
    ensures Find(s.pending, id).Some? <==> id in Ids(s.pending)
    ensures forall r | r in s.pending && r.Id() == id :: Find(s.pending, id) == Some(r)
    ensures id in Ids(s.pending) ==> id !in s.running
  {
    hide Inv, NoDup, Ids, Find;
    DistinctPending(s);
    forall r | r in s.pending && r.Id() == id ensures Find(s.pending, id) == Some(r) {
      FindSpec(s.pending, r);
    }
  }

  /** r is filed as cancelled, and every other file is the same. */
  ghost predicate CancelledOnly(s: Scheduler, s': Scheduler, r: Request, now: real) {
    && r.Id() in s'.completed && s'.completed[r.Id()] == r.(status := CANCELLED, completedAt := Some(now))
    && (forall x | x != r.Id() ::
          (x in s'.completed <==> x in s.completed) && (x in s.completed ==> s'.completed[x] == s.completed[x]))
    && s' == s.(pending := s'.pending, running := s'.running, completed := s'.completed,
                totalCancelled := s.totalCancelled + 1)
  }

  lemma {:induction false} PendingCancelled(s: Scheduler, r: Request, now: real)
    ensures var s' := CancelPending(s, r, now);
      CancelledOnly(s, s', r, now) && s'.pending == Drop(s.pending, r.Id()) && s'.running == s.running
  {
  }

  lemma {:induction false} RunningCancelled(s: Scheduler, id: Id, now: real)
    requires Inv(s) && id in s.running
    ensures var s' := Cancel(s, id, now).0;
      CancelledOnly(s, s', s.running[id], now) && s'.pending == s.pending && s'.running == s.running - {id}
    ensures s.running[id].Id() == id
  {
    hide NoDup, Ids, Find, Counted, Staged;
    FoundOnly(s, id);
  }

  /** Cancelling answers whether the request was pending or running. If so it is filed away, cancelled and
      otherwise unchanged, and leaves the place where it was; if not nothing happens. */
  lemma {:induction false} CancelByPlace(s: Scheduler, id: Id, now: real)
    requires Inv(s)
    ensures var (s', found) := Cancel(s, id, now);
      && (found <==> id in Ids(s.pending) || id in s.running)
      && (!found ==> s' == s)
      && (forall r | r in s.pending && r.Id() == id :: CancelledOnly(s, s', r, now) && s'.running == s.running)
      && (id in s.running ==> CancelledOnly(s, s', s.running[id], now) && s'.running == s.running - {id})
      && s'.pending == Filter(Other(id), s.pending) && id !in Ids(s'.pending)
  {
    hide Inv, NoDup, Ids, Filter, Drop, Find, CancelPending, CancelledOnly;
    assert NoDup(Ids(s.pending)) by { DistinctPending(s); }
    DropMembers(s.pending, id);
    assert Drop(s.pending, id) == Filter(Other(id), s.pending) by { DropIsFilter(s.pending, id); }
    FoundOnly(s, id);
    if id in Ids(s.pending) {
      PendingCancelled(s, Find(s.pending, id).value, now);
    } else {
      IdIn(s.pending, id);
      FilterAll(Other(id), s.pending);
      if id in s.running {
        RunningCancelled(s, id, now);
      }
    }
  }

  /** Completing moves a running request, with its text and token count, and ignores any other id. */
  lemma {:induction false} CompleteByPlace(s: Scheduler, id: Id, text: string, tokens: nat, now: real)
    ensures var s' := Complete(s, id, text, tokens, now);
      && (id !in s.running ==> s' == s)
      && (id in s.running ==>
            && s'.running == s.running - {id} && s'.pending == s.pending
            && s'.completed.Keys == s.completed.Keys + {id}
            && s'.completed[id]
               == s.running[id].(status := COMPLETED, completedAt := Some(now), outputText := text,
                                 generatedTokens := tokens)
            && (forall x | x in s.completed && x != id :: s'.completed[x] == s.completed[x])
            && s' == s.(running := s'.running, completed := s'.completed, totalCompleted := s.totalCompleted + 1))
  {
  }

  /** The lookup finds a known id, wherever it is, and nothing else. */
  lemma {:induction false} StatusByPlace(s: Scheduler, id: Id)
    requires Inv(s)
    ensures var found := GetRequestStatus(s, id);
      && (found.None? <==> !Known(s, id))
      && (forall r | r in s.pending && r.Id() == id :: found == Some(r))
      && (id in s.running ==> found == Some(s.running[id]))
      && (id in s.completed ==> found == Some(s.completed[id]))
  {
    hide Counted, Staged, NoDup;
    forall r | r in s.pending && r.Id() == id ensures Find(s.pending, id) == Some(r) {
      FindSpec(s.pending, r);
    }
  }
}
