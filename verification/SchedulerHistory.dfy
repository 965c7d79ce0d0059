/** What every state of the queue satisfies, and that every operation keeps it. */
module SchedulerHistory {
  import opened Prelude
  import opened SchedulerModel
  import opened SchedulerEffects

  ghost predicate Keyed(m: map<Id, Request>) {
    forall id | id in m :: m[id].Id() == id
  }

  /** An id is in at most one of the three places. */
  ghost predicate Separate(s: Scheduler) {
    && NoDup(Ids(s.pending))
    && (forall id | id in Ids(s.pending) :: id !in s.running && id !in s.completed)
    && (forall id | id in s.running :: id !in s.completed)
    && Keyed(s.running) && Keyed(s.completed)
  }

  ghost predicate Counted(s: Scheduler) {
    && s.totalSubmitted == |s.pending| + |s.running| + |s.completed|
    && |s.completed| == s.totalCompleted + s.totalCancelled + s.totalTimedOut
  }

  ghost predicate Staged(s: Scheduler) {
    && (forall r | r in s.pending :: r.status == PENDING)
    && (forall id | id in s.running :: s.running[id].status == RUNNING || s.running[id].status == FAILED)
    && (forall id | id in s.completed :: s.completed[id].status != PENDING && s.completed[id].status != RUNNING)
  }

  ghost predicate Inv(s: Scheduler) {
    Separate(s) && Counted(s) && Staged(s)
  }

  // ----- one operation -----

  lemma {:induction false} FindSpec(rs: seq<Request>, r: Request)
    requires NoDup(Ids(rs)) && r in rs
    ensures Find(rs, r.Id()) == Some(r)
  {
    var i :| 0 <= i < |rs| && rs[i] == r;
    assert Ids(rs)[i] == r.Id();
    SameIdSameRequest(rs, r, Find(rs, r.Id()).value);
  }

  lemma {:induction false} IdIn(rs: seq<Request>, id: Id)
    ensures id in Ids(rs) <==> exists r :: r in rs && r.Id() == id
  {
    if id in Ids(rs) {
      var i :| 0 <= i < |rs| && Ids(rs)[i] == id;
      assert rs[i] in rs;
    }
    if r :| r in rs && r.Id() == id {
      var i :| 0 <= i < |rs| && rs[i] == r;
      assert Ids(rs)[i] == id;
    }
  }

  lemma {:induction false} DropMembers(rs: seq<Request>, id: Id)
    requires NoDup(Ids(rs))
    ensures NoDup(Ids(Drop(rs, id)))
    ensures forall x :: x in Ids(Drop(rs, id)) <==> x in Ids(rs) && x != id
    ensures forall r :: r in Drop(rs, id) <==> r in rs && r.Id() != id
  {
    FilterDistinct(Other(id), rs);
    FilterMembers(Other(id), rs);
    var d := Drop(rs, id);
    forall x ensures x in Ids(d) <==> x in Ids(rs) && x != id {
      IdIn(d, x);
      IdIn(rs, x);
    }
  }

  lemma {:induction false} SubmitKeeps(s: Scheduler, r: Request)
    requires Inv(s) && !Known(s, r.Id()) && r.status == PENDING
    ensures Inv(Submit(s, r).0)
    ensures Submit(s, r).1 ==> Ids(Submit(s, r).0.pending) == Ids(s.pending) + [r.Id()]
  {
    if Submit(s, r).1 {
      IdsConcat(s.pending, [Queued(s, r)]);
      assert Ids([Queued(s, r)]) == [r.Id()];
    }
  }

  lemma {:induction false} TwiceFiled(s: Scheduler, r: Request)
    requires Known(s, r.Id())
    ensures !Separate(s.(pending := s.pending + [r], totalSubmitted := s.totalSubmitted + 1))
  {
    var ids := Ids(s.pending + [r]);
    assert ids[|s.pending|] == r.Id() && r.Id() in ids;
    if r.Id() in Ids(s.pending) {
      var i :| 0 <= i < |s.pending| && Ids(s.pending)[i] == r.Id();
      assert ids[i] == ids[|s.pending|];
    }
  }

  /** Submitting keeps the queue in order exactly when the request is turned away or its id is new. */
  lemma {:induction false} SubmitExact(s: Scheduler, r: Request)
    requires Inv(s) && r.status == PENDING
    ensures Inv(Submit(s, r).0) <==> !Submit(s, r).1 || !Known(s, r.Id())
  {
    if Submit(s, r).1 {
      if Known(s, r.Id()) {
        TwiceFiled(s, Queued(s, r));
      } else {
        SubmitKeeps(s, r);
      }
    }
  }

  /** A pending request leaves the queue unserved, cancelled or timed out. */
  lemma {:induction false} FileAwayKeeps(s: Scheduler, s': Scheduler, r: Request, filed: Request)
    requires Inv(s) && r in s.pending && filed.Id() == r.Id() && filed.status == CANCELLED
    requires s'.pending == Drop(s.pending, r.Id()) && s'.completed == s.completed[r.Id() := filed]
    requires s'.running == s.running && s'.totalSubmitted == s.totalSubmitted
    requires s'.totalCompleted + s'.totalCancelled + s'.totalTimedOut
      == s.totalCompleted + s.totalCancelled + s.totalTimedOut + 1
    ensures Inv(s')
    ensures forall id :: Known(s', id) <==> Known(s, id)
  {
    hide Drop, Ids, NoDup;
    var id := r.Id();
    IdIn(s.pending, id);
    DropMembers(s.pending, id);
    DropOne(s.pending, id);
    assert id !in s.completed;
    assert Counted(s');
    assert Staged(s');
    assert Separate(s');
  }

  lemma {:induction false} StillPending(s: Scheduler, id: Id)
    requires Inv(s)
    ensures forall r | r in s.pending && r.Id() != id :: r in Drop(s.pending, id)
  {
    DropMembers(s.pending, id);
  }

  lemma {:induction false} EnforceKeeps(s: Scheduler, late: seq<Request>, now: real)
    requires Inv(s) && NoDup(Ids(late)) && forall r | r in late :: r in s.pending
    ensures var s' := ExpireAll(s, late, now);
      && Inv(s') && s'.running == s.running && s'.policy == s.policy
      && (forall r | r in s.pending && r.Id() !in IdSet(late) :: r in s'.pending)
      && (forall id :: Known(s', id) <==> Known(s, id))
  {
    hide Inv, Known, Ids, NoDup;
    if late != [] {
      var init, x := Init(late), Last(late);
      assert late == init + [x];
      FreshLast(map[], late);
      EnforceKeeps(s, init, now);
      var mid := ExpireAll(s, init, now);
      assert x in mid.pending;
      FileAwayKeeps(mid, Expire(mid, x, now), x, Expired(x, now));
      StillPending(mid, x.Id());
    }
  }

  lemma {:induction false} TimeoutsKeep(s: Scheduler, now: real)
    requires Inv(s)
    ensures Inv(EnforceTimeouts(s, now))
    ensures forall id :: Known(EnforceTimeouts(s, now), id) <==> Known(s, id)
  {
    hide Known;
    FilterDistinct(Late(now), s.pending);
    FilterMembers(Late(now), s.pending);
    EnforceKeeps(s, Filter(Late(now), s.pending), now);
  }

  /** Every running request was running before or is in the batch. */
  ghost predicate FromBatch(m: map<Id, Request>, m': map<Id, Request>, batch: seq<Request>) {
    && (forall id :: id in m' <==> id in m || id in Ids(batch))
    && (forall id | id in m :: m'[id] == m[id])
    && (forall id | id in m' && id !in m :: m'[id] in batch && m'[id].Id() == id)
  }

  lemma {:induction false} AddedFromBatch(m: map<Id, Request>, batch: seq<Request>)
    requires NoDup(Ids(batch)) && forall id | id in Ids(batch) :: id !in m
    ensures FromBatch(m, AddAll(m, batch), batch)
    ensures |AddAll(m, batch)| == |m| + |batch|
  {
    hide Added, NoDup, Ids, AddAll, IdSet;
    IdSetMembers(batch);
    assert IdSet(batch) !! m.Keys;
    AddAllEffect(m, batch);
    var m' := AddAll(m, batch);
    AddedFacts(m, m', batch);
    forall id | id in m' && id !in m ensures m'[id] in batch && m'[id].Id() == id {
      IdIn(batch, id);
    }
  }

  lemma {:induction false} ServedStaged(s: Scheduler, s': Scheduler, batch: seq<Request>)
    requires Staged(s) && FromBatch(s.running, s'.running, batch) && s'.completed == s.completed
    requires forall r | r in batch :: r.status == RUNNING
    requires forall r | r in s'.pending :: r in s.pending
    ensures Staged(s')
  {
    hide Ids;
  }

  lemma {:induction false} ServedSeparate(s: Scheduler, s': Scheduler, batch: seq<Request>)
    requires Separate(s) && FromBatch(s.running, s'.running, batch) && s'.completed == s.completed
    requires NoDup(Ids(s'.pending))
    requires forall id :: id in Ids(s.pending) <==> id in Ids(batch) || id in Ids(s'.pending)
    requires forall id | id in Ids(batch) :: id !in Ids(s'.pending)
    ensures Separate(s')
    ensures forall id :: Known(s', id) <==> Known(s, id)
  {
    hide Ids, NoDup;
  }

  lemma {:induction false} SplitDistinct(queue: seq<Request>, n: nat)
    requires n <= |queue| && NoDup(Ids(queue))
    ensures NoDup(Ids(queue[..n])) && NoDup(Ids(queue[n..]))
    ensures forall id :: id in Ids(queue) <==> id in Ids(queue[..n]) || id in Ids(queue[n..])
    ensures forall id | id in Ids(queue[..n]) :: id !in Ids(queue[n..])
    ensures forall r | r in queue[n..] :: r in queue
  {
    assert Ids(queue) == Ids(queue[..n]) + Ids(queue[n..]);
    assert forall i | 0 <= i < n :: Ids(queue[..n])[i] == Ids(queue)[i];
    assert forall i | 0 <= i < |queue| - n :: Ids(queue[n..])[i] == Ids(queue)[n + i];
  }

  /** Serving the front of a queue. */
  lemma {:induction false} ServeKeeps(s: Scheduler, s': Scheduler, queue: seq<Request>, n: nat, now: real)
    requires Inv(s) && n <= |queue| && |queue| == |s.pending| && NoDup(Ids(queue))
    requires forall r :: r in queue <==> r in s.pending
    requires s' == s.(pending := queue[n..], running := AddAll(s.running, StartAll(queue[..n], now)))
    ensures Inv(s')
    ensures forall id :: Known(s', id) <==> Known(s, id)
  {
    hide NoDup, AddAll, Ids, Staged, Known, StartAll, Keyed, FromBatch;
    var batch := StartAll(queue[..n], now);
    SplitDistinct(queue, n);
    SameMembersSameIds(queue, s.pending);
    assert Ids(batch) == Ids(queue[..n]);
    AddedFromBatch(s.running, batch);
    ServedStaged(s, s', batch);
    ServedSeparate(s, s', batch);
  }

  lemma {:induction false} DistinctPending(s: Scheduler)
    requires Inv(s)
    ensures NoDup(Ids(s.pending))
    ensures forall id | id in Ids(s.pending) :: id !in s.running && id !in s.completed
  {
  }

  lemma {:induction false} BatchKeeps(s: Scheduler, now: real, k: nat)
    requires Inv(s)
    ensures var (s', batch) := GetNextBatch(s, now, k);
      Inv(s') && forall id :: Known(s', id) <==> Known(s, id)
  {
    hide Inv, Known, EnforceTimeouts, InOrder, AddAll, NoDup;
    TimeoutsKeep(s, now);
    var mid := EnforceTimeouts(s, now);
    if mid.pending != [] {
      assert NoDup(Ids(mid.pending)) by { DistinctPending(mid); }
      InOrderMembers(s.policy, mid.pending);
      var queue := InOrder(s.policy, mid.pending);
      ServeKeeps(mid, GetNextBatch(s, now, k).0, queue, Min(k, |queue|), now);
    }
  }

  lemma {:induction false} OneFewer(m: map<Id, Request>, id: Id)
    requires id in m
    ensures |m - {id}| == |m| - 1
  {
    var rest := m - {id};
    assert m == rest[id := m[id]];
  }

  lemma {:induction false} MovedSeparate(s: Scheduler, s': Scheduler, id: Id, filed: Request)
    requires Separate(s) && id in s.running && filed.Id() == id && s'.pending == s.pending
    requires s'.running == s.running - {id} && s'.completed == s.completed[id := filed]
    ensures Separate(s')
    ensures forall x :: Known(s', x) <==> Known(s, x)
  {
    hide NoDup, Ids;
  }

  lemma {:induction false} RunningOnly(s: Scheduler, id: Id)
    requires Separate(s) && id in s.running
    ensures id !in s.completed
  {
  }

  lemma {:induction false} MovedStaged(s: Scheduler, s': Scheduler, id: Id, filed: Request)
    requires Staged(s) && filed.status != PENDING && filed.status != RUNNING && s'.pending == s.pending
    requires s'.running == s.running - {id} && s'.completed == s.completed[id := filed]
    ensures Staged(s')
  {
  }

  /** A running request is filed as completed. */
  lemma {:induction false} MoveKeeps(s: Scheduler, s': Scheduler, id: Id, filed: Request)
    requires Inv(s) && id in s.running && filed.Id() == id && filed.status != PENDING && filed.status != RUNNING
    requires s'.running == s.running - {id} && s'.completed == s.completed[id := filed]
    requires s'.pending == s.pending && s'.totalSubmitted == s.totalSubmitted
    requires s'.totalCompleted + s'.totalCancelled + s'.totalTimedOut
      == s.totalCompleted + s.totalCancelled + s.totalTimedOut + 1
    ensures Inv(s')
    ensures forall x :: Known(s', x) <==> Known(s, x)
  {
    hide Separate, Staged, Known;
    OneFewer(s.running, id);
    MovedSeparate(s, s', id, filed);
    assert Staged(s') by { MovedStaged(s, s', id, filed); }
    assert id !in s.completed by { RunningOnly(s, id); }
  }

  lemma {:induction false} KeyedRunning(s: Scheduler, id: Id)
    requires Inv(s) && id in s.running
    ensures s.running[id].Id() == id
  {
  }

  lemma {:induction false} CompleteKeeps(s: Scheduler, id: Id, text: string, n: nat, now: real)
    requires Inv(s)
    ensures Inv(Complete(s, id, text, n, now))
    ensures forall x :: Known(Complete(s, id, text, n, now), x) <==> Known(s, x)
  {
    hide Inv, Known;
    if id in s.running {
      KeyedRunning(s, id);
      MoveKeeps(s, Complete(s, id, text, n, now), id, s.running[id].Completed(text, n, now));
    }
  }

  lemma {:induction false} CancelKeeps(s: Scheduler, id: Id, now: real)
    requires Inv(s)
    ensures Inv(Cancel(s, id, now).0)
    ensures forall x :: Known(Cancel(s, id, now).0, x) <==> Known(s, x)
  {
    hide Inv, Known, Drop;
    var r := Find(s.pending, id);
    var s' := Cancel(s, id, now).0;
    if r.Some? {
      FileAwayKeeps(s, s', r.value, r.value.Cancelled(now));
    } else if id in s.running {
      KeyedRunning(s, id);
      MoveKeeps(s, s', id, s.running[id].Cancelled(now));
    }
  }

  lemma {:induction false} AmendSeparate(s: Scheduler, id: Id, r: Request)
    requires Separate(s) && r.Id() == id
    ensures Separate(Amend(s, id, r))
    ensures forall x :: Known(Amend(s, id, r), x) <==> Known(s, x)
  {
    hide NoDup, Ids;
  }

  lemma {:induction false} AmendStaged(s: Scheduler, id: Id, r: Request)
    requires Staged(s)
    requires id in s.running ==> r.status == RUNNING || r.status == FAILED
    requires id in s.completed ==> r.status != PENDING && r.status != RUNNING
    ensures Staged(Amend(s, id, r))
  {
  }

  lemma {:induction false} AmendCounted(s: Scheduler, id: Id, r: Request)
    requires Counted(s)
    ensures Counted(Amend(s, id, r))
  {
    if id in s.running {
      assert s.running[id := r].Keys == s.running.Keys;
      assert |s.running[id := r]| == |s.running|;
    } else if id in s.completed {
      assert |s.completed[id := r]| == |s.completed|;
    }
  }

  lemma {:induction false} AmendKeeps(s: Scheduler, id: Id, r: Request)
    requires Inv(s) && r.Id() == id
    requires id in s.running ==> r.status == RUNNING || r.status == FAILED
    requires id in s.completed ==> r.status != PENDING && r.status != RUNNING
    ensures Inv(Amend(s, id, r))
    ensures forall x :: Known(Amend(s, id, r), x) <==> Known(s, x)
  {
    hide NoDup, Ids, Counted, Staged, Separate, Known;
    AmendSeparate(s, id, r);
    AmendStaged(s, id, r);
    AmendCounted(s, id, r);
  }

  lemma {:induction false} FailKeeps(s: Scheduler, id: Id, why: string, now: real)
    requires Inv(s) && (id in s.running || id in s.completed)
    ensures Inv(Fail(s, id, why, now))
    ensures forall x :: Known(Fail(s, id, why, now), x) <==> Known(s, x)
  {
    AmendKeeps(s, id, Filed(s, id).Failed(why, now));
  }

  lemma {:induction false} ApplyKeeps(s: Scheduler, op: SchedulerOp)
    requires Inv(s)
    requires op.SubmitOp? ==> !Known(s, op.request.Id()) && op.request.status == PENDING
    ensures Inv(Apply(s, op))
    ensures forall id | Known(s, id) :: Known(Apply(s, op), id)
    ensures !op.SubmitOp? ==> forall id :: Known(Apply(s, op), id) <==> Known(s, id)
  {
    hide Separate, Counted, Staged, NoDup;
    match op
    case SubmitOp(r) => SubmitKeeps(s, r);
    case BatchOp(now, k) => BatchKeeps(s, now, k);
    case CompleteOp(id, text, n, now) => CompleteKeeps(s, id, text, n, now);
    case CancelOp(id, now) => CancelKeeps(s, id, now);
    case FailOp(id, why, now) =>
      if id in s.running || id in s.completed {
        FailKeeps(s, id, why, now);
      }
  }
}
