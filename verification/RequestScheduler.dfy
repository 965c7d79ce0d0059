/** The request objects and the queue that files them, updated in place; every method is tied to the queue on values. */
module RequestScheduling {
  import opened Prelude
  import opened SchedulerModel
  import opened SchedulerEffects

  class ScheduledRequest {
    const params: Params
    const priority: int
    const createdAt: real
    var timeoutSeconds: real
    var status: Status
    var startedAt: Option<real>
    var completedAt: Option<real>
    var promptTokens: nat
    var generatedTokens: nat
    var outputText: string
    var error: Option<string>

    ghost function Value(): Request
      reads this
    {
      Request(params, priority, createdAt, timeoutSeconds, status, startedAt, completedAt,
              promptTokens, generatedTokens, outputText, error)
    }

    constructor (params: Params, priority: int, createdAt: real, timeoutSeconds: real)
      ensures Value() == Request(params, priority, createdAt, timeoutSeconds, PENDING, None, None, 0, 0, "", None)
    {
      this.params, this.priority, this.createdAt := params, priority, createdAt;
      this.timeoutSeconds := timeoutSeconds;
      status, startedAt, completedAt := PENDING, None, None;
      promptTokens, generatedTokens, outputText, error := 0, 0, "", None;
    }

    function Id(): Id { params.id }

    predicate IsTimedOut(now: real)
      reads this
    {
      now - createdAt > timeoutSeconds
    }

    predicate MayPrecede(other: ScheduledRequest) {
      priority < other.priority || (priority == other.priority && createdAt <= other.createdAt)
    }

    method Start(now: real)
      modifies this
      ensures Value() == old(Value()).Started(now)
    {
      status := RUNNING;
      startedAt := Some(now);
    }

    method Complete(text: string, tokens: nat, now: real)
      modifies this
      ensures Value() == old(Value()).Completed(text, tokens, now)
    {
      status := COMPLETED;
      completedAt := Some(now);
      outputText := text;
      generatedTokens := tokens;
    }

    method Cancel(now: real)
      modifies this
      ensures Value() == old(Value()).Cancelled(now)
    {
      status := CANCELLED;
      completedAt := Some(now);
    }

    method Fail(why: string, now: real)
      modifies this
      ensures Value() == old(Value()).Failed(why, now)
    {
      status := FAILED;
      completedAt := Some(now);
      error := Some(why);
    }
  }

  ghost function Values(rs: seq<ScheduledRequest>): (vs: seq<Request>)
    reads rs
    ensures |vs| == |rs| && forall i | 0 <= i < |vs| :: vs[i] == rs[i].Value()
  {
    seq(|rs|, i requires 0 <= i < |rs| reads rs => rs[i].Value())
  }

  lemma {:induction false} ValuesSnoc(rs: seq<ScheduledRequest>, x: ScheduledRequest)
    ensures Values(rs + [x]) == Values(rs) + [x.Value()]
  {
  }

  ghost function Book(m: map<Id, ScheduledRequest>): (vs: map<Id, Request>)
    reads m.Values
    ensures vs.Keys == m.Keys && forall id | id in vs :: vs[id] == m[id].Value()
  {
    map id | id in m :: m[id].Value()
  }

  lemma {:induction false} AddNext(m: map<Id, Request>, rs: seq<Request>, i: nat)
    requires i < |rs|
    ensures AddAll(m, rs[..i + 1]) == AddAll(m, rs[..i])[rs[i].Id() := rs[i]]
  {
    assert Init(rs[..i + 1]) == rs[..i];
  }

  lemma {:induction false} DropAt(rs: seq<Request>, k: nat)
    requires k < |rs| && NoDup(Ids(rs))
    ensures Drop(rs, rs[k].Id()) == rs[..k] + rs[k + 1..]
  {
    var init := Init(rs);
    IdsSnoc(rs);
    if k == |rs| - 1 {
      forall r | r in init ensures r.Id() != rs[k].Id() {
        var i :| 0 <= i < k && init[i] == r;
        assert Ids(init)[i] == r.Id();
      }
      FilterAll(Other(rs[k].Id()), init);
    } else {
      DropAt(init, k);
      assert Ids(rs)[k] != Ids(rs)[|rs| - 1];
      assert init[..k] + init[k + 1..] + [Last(rs)] == rs[..k] + rs[k + 1..];
    }
  }

  /** Distinct ids of the objects are distinct ids of their values. */
  lemma {:induction false} DistinctValues(rs: seq<ScheduledRequest>)
    requires forall i, j | 0 <= i < j < |rs| :: rs[i].Id() != rs[j].Id()
    ensures NoDup(Ids(Values(rs)))
  {
  }

  lemma {:induction false} CutMembers(s: seq<ScheduledRequest>, k: nat)
    requires k < |s|
    ensures forall r | r in s[..k] + s[k + 1..] :: r in s
    ensures forall r | r in s && r != s[k] :: r in s[..k] + s[k + 1..]
  {
    forall r | r in s && r != s[k] ensures r in s[..k] + s[k + 1..] {
      var i :| 0 <= i < |s| && s[i] == r;
      assert i < k ==> s[..k][i] == r;
      assert i > k ==> s[k + 1..][i - k - 1] == r;
    }
  }

  lemma {:induction false} InsertStart(vs: seq<Request>, x: Request)
    ensures Insert(vs, x) == Insert(vs[..|vs|], x) + vs[|vs|..]
  {
    assert vs[..|vs|] == vs && Insert(vs, x) + [] == Insert(vs, x);
  }

  lemma {:induction false} InsertStop(vs: seq<Request>, x: Request, j: nat)
    requires j <= |vs| && (j == 0 || KeyLe(vs[j - 1], x))
    ensures Insert(vs[..j], x) == vs[..j] + [x]
  {
  }

  lemma {:induction false} InsertMove(vs: seq<Request>, x: Request, j: nat)
    requires 0 < j <= |vs| && !KeyLe(vs[j - 1], x)
    ensures Insert(vs[..j], x) + vs[j..] == Insert(vs[..j - 1], x) + vs[j - 1..]
  {
    assert Init(vs[..j]) == vs[..j - 1] && Last(vs[..j]) == vs[j - 1];
    assert [vs[j - 1]] + vs[j..] == vs[j - 1..];
  }

  method InsertByKey(rs: seq<ScheduledRequest>, x: ScheduledRequest) returns (out: seq<ScheduledRequest>)
    ensures Values(out) == Insert(Values(rs), x.Value())
    ensures |out| == |rs| + 1 && forall r | r in out :: r in rs || r == x
  {
    hide Values, Insert;
    ghost var vs := Values(rs);
    InsertStart(vs, x.Value());
    var j: nat := |rs|;
    while j > 0 && !rs[j - 1].MayPrecede(x)
      invariant j <= |rs| == |vs|
      invariant Insert(vs, x.Value()) == Insert(vs[..j], x.Value()) + vs[j..]
    {
      InsertMove(vs, x.Value(), j);
      j := j - 1;
    }
    InsertStop(vs, x.Value(), j);
    out := rs[..j] + [x] + rs[j..];
    assert Values(out) == vs[..j] + [x.Value()] + vs[j..];
  }

  lemma {:induction false} SortNone(vs: seq<Request>)
    ensures StableSort(vs[..0]) == []
  {
  }

  lemma {:induction false} SortNext(vs: seq<Request>, i: nat)
    requires i < |vs|
    ensures StableSort(vs[..i + 1]) == Insert(StableSort(vs[..i]), vs[i])
  {
    assert Init(vs[..i + 1]) == vs[..i] && Last(vs[..i + 1]) == vs[i];
  }

  method SortRequests(rs: seq<ScheduledRequest>) returns (sorted: seq<ScheduledRequest>)
    ensures Values(sorted) == StableSort(Values(rs))
    ensures |sorted| == |rs| && forall r | r in sorted :: r in rs
  {
    hide Values, StableSort, Insert;
    ghost var vs := Values(rs);
    sorted := [];
    SortNone(vs);
    for i := 0 to |rs|
      invariant |sorted| == i && (forall r | r in sorted :: r in rs)
      invariant Values(sorted) == StableSort(vs[..i])
    {
      SortNext(vs, i);
      sorted := InsertByKey(sorted, rs[i]);
    }
    assert vs[..|rs|] == vs;
  }

  lemma {:induction false} BatchSteps(s: Scheduler, now: real, k: nat)
    ensures var mid := EnforceTimeouts(s, now);
      var queue := InOrder(s.policy, mid.pending);
      var n := Min(k, |queue|);
      var batch := StartAll(queue[..n], now);
      GetNextBatch(s, now, k) == if mid.pending == [] then (mid, []) else
        (mid.(pending := queue[n..], running := AddAll(mid.running, batch)), batch)
  {
    hide InOrder, EnforceTimeouts, AddAll, StartAll;
  }

  lemma {:induction false} FirstFound(rs: seq<Request>, id: Id, k: nat)
    requires k <= |rs| && (forall i | 0 <= i < k :: rs[i].Id() != id) && (k < |rs| ==> rs[k].Id() == id)
    ensures Find(rs, id) == if k < |rs| then Some(rs[k]) else None
  {
    if k > 0 {
      FirstFound(rs[1..], id, k - 1);
    }
  }

  lemma {:induction false} NoneAdded(m: map<Id, Request>, rs: seq<Request>)
    ensures AddAll(m, rs[..0]) == m
  {
  }

  lemma {:induction false} SortedDistinct(rs: seq<ScheduledRequest>, sorted: seq<ScheduledRequest>)
    requires forall i, j | 0 <= i < j < |rs| :: rs[i].Id() != rs[j].Id()
    requires Values(sorted) == StableSort(Values(rs))
    ensures forall i, j | 0 <= i < j < |sorted| :: sorted[i].Id() != sorted[j].Id()
  {
    DistinctValues(rs);
    SortDistinct(Values(rs));
    assert forall i | 0 <= i < |sorted| :: Ids(Values(sorted))[i] == sorted[i].Id();
  }

  class RequestScheduler {
    const maxQueueSize: int
    const defaultTimeout: real
    const policy: string
    var pending: seq<ScheduledRequest>
    var running: map<Id, ScheduledRequest>
    var completed: map<Id, ScheduledRequest>
    var totalSubmitted: nat
    var totalCompleted: nat
    var totalCancelled: nat
    var totalTimedOut: nat
    ghost var requests: set<ScheduledRequest>  // every request ever accepted

    ghost predicate Owned()
      reads `pending, `running, `completed, `requests
    {
      && (forall r | r in pending :: r in requests)
      && (forall id | id in running :: running[id] in requests)
      && (forall id | id in completed :: completed[id] in requests)
    }

    /** Each object is filed once, under its own id. */
    ghost predicate Valid()
      reads `pending, `running, `completed, `requests
      ensures Valid() ==> Owned()
    {
      && (forall i, j | 0 <= i < j < |pending| :: pending[i].Id() != pending[j].Id())
      && (forall r | r in pending :: r.Id() !in running && r.Id() !in completed)
      && (forall id | id in running :: running[id].Id() == id && id !in completed)
      && (forall id | id in completed :: completed[id].Id() == id)
      && Owned()
    }

    ghost function View(): Scheduler
      requires Owned()
      reads this, requests
    {
      Scheduler(maxQueueSize, defaultTimeout, policy, Values(pending), Book(running), Book(completed),
                totalSubmitted, totalCompleted, totalCancelled, totalTimedOut)
    }

    constructor (maxQueueSize: int, defaultTimeout: real, policy: string)
      ensures Valid() && requests == {}
      ensures this.maxQueueSize == maxQueueSize && this.defaultTimeout == defaultTimeout && this.policy == policy
      ensures pending == [] && running == map[] && completed == map[]
      ensures View() == NewScheduler(maxQueueSize, defaultTimeout, policy)
    {
      this.maxQueueSize, this.defaultTimeout, this.policy := maxQueueSize, defaultTimeout, policy;
      pending, running, completed := [], map[], map[];
      totalSubmitted, totalCompleted, totalCancelled, totalTimedOut := 0, 0, 0, 0;
      requests := {};
      new;
      assert Book(map[]) == map[];
    }

    lemma {:induction false} PendingView()
      requires Valid()
      ensures View().pending == Values(pending) && View().policy == policy
      ensures View().maxQueueSize == maxQueueSize && View().defaultTimeout == defaultTimeout
    {
    }

    lemma {:induction false} RunningView(id: Id)
      requires Valid() && id in running
      ensures id in View().running && View().running[id] == running[id].Value() && id !in completed
    {
    }

    lemma {:induction false} RunningIds(id: Id)
      requires Valid()
      ensures id in View().running <==> id in running
    {
    }

    ghost predicate IsKnown(id: Id)
      reads `pending, `running, `completed
    {
      (exists r :: r in pending && r.Id() == id) || id in running || id in completed
    }

    /** The request object filed under an id that has left the queue. */
    ghost predicate IsFiled(request: ScheduledRequest)
      reads `running, `completed
    {
      (request.Id() in running && running[request.Id()] == request) ||
      (request.Id() in completed && completed[request.Id()] == request)
    }

    /** Requests that have left the queue, each the object on record under its id. */
    ghost predicate AllFiled(rs: seq<ScheduledRequest>)
      reads `running, `completed, `requests
    {
      forall r | r in rs :: r in requests && IsFiled(r)
    }

    /** What is on record under the id of a filed request is the value of that object. */
    lemma {:induction false} FiledValue(request: ScheduledRequest)
      requires Valid() && IsFiled(request)
      ensures request in requests
      ensures var s := View();
        (request.Id() in s.running || request.Id() in s.completed) && Filed(s, request.Id()) == request.Value()
    {
    }

    twostate predicate RunningGrows()
      reads `running
    {
      forall id | id in old(running) :: id in running && running[id] == old(running)[id]
    }

    twostate predicate CompletedGrows()
      reads `completed
    {
      forall id | id in old(completed) :: id in completed && completed[id] == old(completed)[id]
    }

    /** A request that has left the queue stays on file as the same object. */
    twostate predicate StaysFiled()
      reads `running, `completed
    {
      forall r | r in old(requests) && old(IsFiled(r)) :: IsFiled(r)
    }

    twostate lemma AllStayFiled(rs: seq<ScheduledRequest>)
      requires old(AllFiled(rs)) && StaysFiled() && requests == old(requests)
      ensures AllFiled(rs)
    {
    }

    twostate lemma MovedStaysFiled(id: Id)
      requires id in old(running) && id !in old(completed)
      requires running == old(running) - {id} && completed == old(completed)[id := old(running)[id]]
      ensures StaysFiled()
    {
    }

    twostate lemma GrownStaysFiled()
      requires RunningGrows() && CompletedGrows()
      ensures StaysFiled()
    {
    }

    /** Each object is still filed once exactly when the id is new. */
    twostate lemma EnqueuedValid(request: ScheduledRequest)
      requires old(Valid()) && pending == old(pending) + [request] && requests == old(requests) + {request}
      requires running == old(running) && completed == old(completed)
      ensures Owned() && (Valid() <==> !old(IsKnown(request.Id())))
    {
      assert pending[|pending| - 1] == request;
      forall r | r in old(pending) && r.Id() == request.Id() ensures !Valid() {
        var i :| 0 <= i < |old(pending)| && old(pending)[i] == r;
        assert pending[i] == r;
      }
    }

    method Enqueue(request: ScheduledRequest)
      requires Valid()
      modifies this`pending, this`totalSubmitted, this`requests
      ensures Owned() && (Valid() <==> !old(IsKnown(request.Id())))
      ensures pending == old(pending) + [request] && requests == old(requests) + {request}
      ensures View() == old(View()).(
        pending := old(View()).pending + [request.Value()], totalSubmitted := old(View()).totalSubmitted + 1)
    {
      hide RequestScheduler.Valid, RequestScheduler.Owned, RequestScheduler.IsKnown;
      pending := pending + [request];
      totalSubmitted := totalSubmitted + 1;
      requests := requests + {request};
      EnqueuedValid(request);
      assert Values(pending) == old(Values(pending)) + [request.Value()];
    }

    /** Not an object already filed. */
    ghost predicate IsUnfiled(request: ScheduledRequest)
      reads `pending, `running, `completed, `requests
    {
      request !in requests || !IsKnown(request.Id())
    }

    /** The files are the same, and no request object but this one changed. */
    twostate predicate SameFiling(request: ScheduledRequest)
      reads this, requests
    {
      && pending == old(pending) && running == old(running) && completed == old(completed) && requests == old(requests)
      && forall r | r in old(requests) && r != request :: r.Value() == old(r.Value())
    }

    twostate lemma UnfiledPending(request: ScheduledRequest)
      requires old(Valid()) && old(IsUnfiled(request)) && SameFiling(request)
      ensures Valid() && Values(pending) == old(Values(pending))
    {
      assert request !in pending;
    }

    twostate lemma UnfiledRunning(request: ScheduledRequest)
      requires old(Valid()) && old(IsUnfiled(request)) && SameFiling(request)
      ensures Book(running) == old(Book(running))
    {
      assert request !in running.Values;
    }

    twostate lemma UnfiledCompleted(request: ScheduledRequest)
      requires old(Valid()) && old(IsUnfiled(request)) && SameFiling(request)
      ensures Book(completed) == old(Book(completed))
    {
      assert request !in completed.Values;
    }

    /** Writing to a request that is filed nowhere, or to the counters, shows only in the counters. */
    twostate lemma UnfiledChange(request: ScheduledRequest)
      requires old(Valid()) && old(IsUnfiled(request)) && SameFiling(request)
      ensures Valid() && View() == old(View()).(
        totalSubmitted := totalSubmitted, totalCompleted := totalCompleted,
        totalCancelled := totalCancelled, totalTimedOut := totalTimedOut)
    {
      hide Values, Book, RequestScheduler.Valid, RequestScheduler.Owned, RequestScheduler.IsUnfiled;
      UnfiledPending(request);
      UnfiledRunning(request);
      UnfiledCompleted(request);
    }

    /** The id is not checked; a known one is accepted, and is then filed twice. */
    method Submit(request: ScheduledRequest) returns (accepted: bool)
      requires Valid() && IsUnfiled(request)
      modifies this, request
      ensures Owned() && (Valid() <==> !accepted || !old(IsKnown(request.Id())))
      ensures requests == old(requests) + (if accepted then {request} else {})
      ensures (View(), accepted) == SchedulerModel.Submit(old(View()), old(request.Value()))
      ensures StaysFiled()
    {
      hide RequestScheduler.Valid, RequestScheduler.Owned, RequestScheduler.IsKnown, Values, Book;
      PendingView();
      if |pending| >= maxQueueSize {
        return false;
      }
      if request.timeoutSeconds == 0.0 {
        request.timeoutSeconds := defaultTimeout;
      }
      UnfiledChange(request);
      Enqueue(request);
      return true;
    }

    lemma {:induction false} DistinctPending()
      requires Valid()
      ensures NoDup(Ids(Values(pending)))
    {
      DistinctValues(pending);
    }

    twostate lemma RemovedValid(k: nat)
      requires old(Valid()) && k < |old(pending)|
      requires pending == old(pending)[..k] + old(pending)[k + 1..] && requests == old(requests)
      requires running == old(running) && completed == old(completed)
      ensures Valid()
      ensures !IsKnown(old(pending)[k].Id()) && old(pending)[k] in requests && old(pending)[k] !in pending
    {
    }

    /** Take one request out of the pending list. */
    method RemovePending(k: nat)
      requires Valid() && k < |pending|
      modifies this`pending
      ensures Valid() && pending == old(pending)[..k] + old(pending)[k + 1..]
      ensures !IsKnown(old(pending)[k].Id()) && old(pending)[k] in requests && old(pending)[k] !in pending
      ensures View() == old(View()).(pending := Drop(old(View()).pending, old(pending)[k].Id()))
    {
      hide RequestScheduler.Valid, RequestScheduler.Owned, RequestScheduler.IsKnown, Drop;
      ghost var rs := Values(pending);
      DistinctPending();
      DropAt(rs, k);
      pending := pending[..k] + pending[k + 1..];
      RemovedValid(k);
      assert Values(pending) == rs[..k] + rs[k + 1..];
    }

    twostate lemma CompletedValid(request: ScheduledRequest)
      requires old(Valid()) && request in old(requests) && !old(IsKnown(request.Id()))
      requires completed == old(completed)[request.Id() := request] && requests == old(requests)
      requires running == old(running) && pending == old(pending)
      ensures Valid()
    {
    }

    /** File a request that has just left another place. */
    method FileCompleted(request: ScheduledRequest)
      requires Valid() && request in requests && request !in pending && !IsKnown(request.Id())
      modifies this`completed
      ensures Valid() && completed == old(completed)[request.Id() := request]
      ensures View() == old(View()).(completed := old(View()).completed[request.Id() := request.Value()])
    {
      hide RequestScheduler.Valid, RequestScheduler.Owned, RequestScheduler.IsKnown;
      completed := completed[request.Id() := request];
      CompletedValid(request);
      assert Book(completed) == old(Book(completed))[request.Id() := request.Value()];
    }

    method MarkCancelled(request: ScheduledRequest, now: real)
      requires Valid() && !IsKnown(request.Id())
      modifies this`totalCancelled, request
      ensures Valid() && request.Value() == old(request.Value()).Cancelled(now)
      ensures View() == old(View()).(totalCancelled := old(View()).totalCancelled + 1)
    {
      request.Cancel(now);
      totalCancelled := totalCancelled + 1;
      UnfiledChange(request);
    }

    method MarkExpired(request: ScheduledRequest, now: real)
      requires Valid() && !IsKnown(request.Id())
      modifies this`totalTimedOut, request
      ensures Valid() && request.Value() == Expired(old(request.Value()), now)
      ensures View() == old(View()).(totalTimedOut := old(View()).totalTimedOut + 1)
    {
      request.Cancel(now);
      request.error := Some(TIMED_OUT);
      totalTimedOut := totalTimedOut + 1;
      UnfiledChange(request);
    }

    /** A pending request is cancelled by its client, or by the timeout sweep. */
    method RetirePending(k: nat, now: real, timedOut: bool)
      requires Valid() && k < |pending|
      modifies this`pending, this`completed, this`totalTimedOut, this`totalCancelled, pending[k]
      ensures Valid() && pending == old(pending)[..k] + old(pending)[k + 1..] && CompletedGrows()
      ensures var r := old(View()).pending[k];
        View() == if timedOut then Expire(old(View()), r, now) else CancelPending(old(View()), r, now)
    {
      hide Drop, Values, Book, RequestScheduler.View, RequestScheduler.Valid, RequestScheduler.Owned;
      var request := pending[k];
      PendingView();
      RemovePending(k);
      if timedOut {
        MarkExpired(request, now);
      } else {
        MarkCancelled(request, now);
      }
      FileCompleted(request);
    }

    /** Position of an id in the pending list, or its length. */
    method PendingIndex(id: Id) returns (k: nat)
      requires Valid()
      ensures k <= |pending| && forall j | 0 <= j < |pending| :: pending[j].Id() == id <==> j == k
      ensures |View().pending| == |pending|
      ensures Find(View().pending, id) == if k < |pending| then Some(View().pending[k]) else None
    {
      k := 0;
      while k < |pending| && pending[k].Id() != id
        invariant k <= |pending| && forall j | 0 <= j < k :: pending[j].Id() != id
        decreases |pending| - k
      {
        k := k + 1;
      }
      FirstFound(Values(pending), id, k);
    }

    method ExpireRequest(request: ScheduledRequest, now: real)
      requires Valid() && request in pending
      modifies this, request
      ensures Valid() && requests == old(requests)
      ensures View() == Expire(old(View()), old(request.Value()), now)
      ensures running == old(running) && CompletedGrows() && (forall r | r in pending :: r in old(pending))
      ensures forall r | r in old(pending) && r != request :: r in pending
    {
      hide Find, Expire;
      var k := PendingIndex(request.Id());
      assert pending[k] == request;
      CutMembers(pending, k);
      RetirePending(k, now, true);
    }

    lemma {:induction false} PendingOnce(i: nat)
      requires Valid() && i < |pending|
      ensures pending[i] !in pending[..i]
    {
    }

    /** The list comprehension of the timeout sweep. */
    method LateRequests(now: real) returns (late: seq<ScheduledRequest>)
      requires Valid()
      ensures Values(late) == Filter(Late(now), View().pending)
      ensures forall r | r in late :: r in pending
      ensures forall i, j | 0 <= i < j < |late| :: late[i] != late[j]
    {
      hide Filter, Values, Book, RequestScheduler.View, RequestScheduler.Valid, RequestScheduler.Owned;
      ghost var vs := Values(pending);
      late := [];
      FilterNone(Late(now), vs[..0]);
      for i := 0 to |pending|
        invariant Values(late) == Filter(Late(now), vs[..i])
        invariant forall r | r in late :: r in pending[..i]
        invariant forall k, j | 0 <= k < j < |late| :: late[k] != late[j]
      {
        PendingOnce(i);
        FilterSnoc(Late(now), vs[..i], vs[i]);
        assert vs[..i + 1] == vs[..i] + [vs[i]];
        if pending[i].IsTimedOut(now) {
          ValuesSnoc(late, pending[i]);
          late := late + [pending[i]];
        }
      }
      assert vs[..|vs|] == vs;
      PendingView();
    }

    method EnforceTimeouts(now: real)
      requires Valid()
      modifies this, requests
      ensures Valid() && requests == old(requests)
      ensures View() == SchedulerModel.EnforceTimeouts(old(View()), now)
      ensures running == old(running) && CompletedGrows() && forall r | r in pending :: r in old(pending)
    {
      hide Expire, Late, Values, Book, RequestScheduler.View;
      var timedOut := LateRequests(now);
      ghost var late := Values(timedOut);
      for i := 0 to |timedOut|
        invariant Valid() && requests == old(requests)
        invariant forall j | i <= j < |timedOut| :: timedOut[j] in pending && timedOut[j].Value() == late[j]
        invariant running == old(running) && CompletedGrows() && forall r | r in pending :: r in old(pending)
        invariant View() == ExpireAll(old(View()), late[..i], now)
      {
        ExpireRequest(timedOut[i], now);
        assert Init(late[..i + 1]) == late[..i];
      }
      assert late[..|timedOut|] == late;
    }

    twostate lemma StartedValid(request: ScheduledRequest)
      requires old(Valid()) && request in old(requests) && !old(IsKnown(request.Id()))
      requires running == old(running)[request.Id() := request] && requests == old(requests)
      requires completed == old(completed) && pending == old(pending)
      ensures Valid()
    {
    }

    method FileRunning(request: ScheduledRequest)
      requires Valid() && request in requests && !IsKnown(request.Id())
      modifies this`running
      ensures Valid() && running == old(running)[request.Id() := request]
      ensures View() == old(View()).(running := old(View()).running[request.Id() := request.Value()])
    {
      hide RequestScheduler.Valid, RequestScheduler.Owned, RequestScheduler.IsKnown;
      running := running[request.Id() := request];
      StartedValid(request);
      assert Book(running) == old(Book(running))[request.Id() := request.Value()];
    }

    /** File a request that has just been started. */
    method StartRequest(request: ScheduledRequest, now: real)
      requires Valid() && request in requests && request !in pending && !IsKnown(request.Id())
      modifies this`running, request
      ensures Valid() && running == old(running)[request.Id() := request]
      ensures request.Value() == old(request.Value()).Started(now)
      ensures View() == old(View()).(running := old(View()).running[request.Id() := request.Value()])
    {
      request.Start(now);
      UnfiledChange(request);
      FileRunning(request);
    }

    twostate lemma SortedValid()
      requires old(Valid()) && requests == old(requests) && running == old(running) && completed == old(completed)
      requires forall i, j | 0 <= i < j < |pending| :: pending[i].Id() != pending[j].Id()
      requires forall r | r in pending :: r in old(pending)
      ensures Valid()
    {
    }

    /** Only the pending list changed. */
    twostate lemma PendingReplaced()
      requires old(Valid()) && Valid() && running == old(running) && completed == old(completed)
      requires totalSubmitted == old(totalSubmitted) && totalCompleted == old(totalCompleted)
      requires totalCancelled == old(totalCancelled) && totalTimedOut == old(totalTimedOut)
      requires Book(running) == old(Book(running)) && Book(completed) == old(Book(completed))
      ensures View() == old(View()).(pending := Values(pending))
    {
      hide Book, Values, RequestScheduler.Valid, RequestScheduler.Owned;
    }

    lemma {:induction false} SortedOnce(sorted: seq<ScheduledRequest>)
      requires Valid() && Values(sorted) == StableSort(Values(pending))
      ensures forall i, j | 0 <= i < j < |sorted| :: sorted[i].Id() != sorted[j].Id()
    {
      SortedDistinct(pending, sorted);
    }

    /** The library sort by (priority, created_at): stable, like inserting the requests one by one. */
    method SortPending()
      requires Valid()
      modifies this`pending
      ensures Valid() && |pending| == |old(pending)| && forall r | r in pending :: r in old(pending)
      ensures View() == old(View()).(pending := StableSort(old(View()).pending))
    {
      hide StableSort, RequestScheduler.Valid, RequestScheduler.Owned, RequestScheduler.View, Book, Values;
      PendingView();
      var sorted := SortRequests(pending);
      SortedOnce(sorted);
      pending := sorted;
      SortedValid();
      PendingReplaced();
    }

    method OrderPending()
      requires Valid()
      modifies this`pending
      ensures Valid() && |pending| == |old(pending)| && forall r | r in pending :: r in old(pending)
      ensures View() == old(View()).(pending := InOrder(policy, old(View()).pending))
    {
      if policy == "priority" {
        SortPending();
      }
    }

    twostate lemma FrontValid(front: seq<ScheduledRequest>)
      requires old(Valid()) && old(pending) == front + pending && requests == old(requests)
      requires running == old(running) && completed == old(completed)
      ensures Valid()
      ensures forall r | r in front :: !IsKnown(r.Id()) && r in requests
      ensures forall i, j | 0 <= i < j < |front| :: front[i].Id() != front[j].Id()
    {
      assert forall i | 0 <= i < |front| :: front[i] == old(pending)[i];
      assert forall i | 0 <= i < |pending| :: pending[i] == old(pending)[|front| + i];
    }

    method TakeFront(n: nat) returns (front: seq<ScheduledRequest>)
      requires Valid() && n <= |pending|
      modifies this`pending
      ensures Valid() && front == old(pending)[..n] && pending == old(pending)[n..]
      ensures View() == old(View()).(pending := old(View()).pending[n..])
      ensures Values(front) == old(View()).pending[..n]
      ensures forall r | r in front :: !IsKnown(r.Id()) && r in requests
      ensures forall i, j | 0 <= i < j < |front| :: front[i].Id() != front[j].Id()
    {
      hide RequestScheduler.Valid, RequestScheduler.Owned, RequestScheduler.IsKnown;
      front := pending[..n];
      pending := pending[n..];
      FrontValid(front);
      assert Values(pending) == old(Values(pending))[n..];
    }

    method StartBatch(batch: seq<ScheduledRequest>, now: real)
      requires Valid() && (forall r | r in batch :: !IsKnown(r.Id()) && r in requests)
      requires forall i, j | 0 <= i < j < |batch| :: batch[i].Id() != batch[j].Id()
      modifies this`running, batch
      ensures Valid() && pending == old(pending)
      ensures Values(batch) == StartAll(old(Values(batch)), now)
      ensures View() == old(View()).(running := AddAll(old(View()).running, Values(batch)))
      ensures RunningGrows() && forall r | r in batch :: r.Id() in running && running[r.Id()] == r
    {
      hide AddAll, Values, Book, RequestScheduler.View, RequestScheduler.Valid, RequestScheduler.Owned;
      ghost var started := StartAll(Values(batch), now);
      NoneAdded(View().running, started);
      for i := 0 to |batch|
        invariant Valid() && pending == old(pending) && RunningGrows()
        invariant forall j | i <= j < |batch| :: !IsKnown(batch[j].Id()) && batch[j].Value() == old(Values(batch))[j]
        invariant forall j | 0 <= j < i ::
          batch[j].Value() == started[j] && batch[j].Id() in running && running[batch[j].Id()] == batch[j]
        invariant View() == old(View()).(running := AddAll(old(View()).running, started[..i]))
      {
        StartRequest(batch[i], now);
        AddNext(old(View()).running, started, i);
      }
      assert started[..|batch|] == started;
      assert Values(batch) == started;
    }

    /** Slice the batch off the pending list and mark it running. */
    method ServeFront(n: nat, now: real) returns (batch: seq<ScheduledRequest>)
      requires Valid() && n <= |pending|
      modifies this`pending, this`running, requests
      ensures Valid()
      ensures Values(batch) == StartAll(old(View()).pending[..n], now)
      ensures View() == old(View()).(
        pending := old(View()).pending[n..], running := AddAll(old(View()).running, Values(batch)))
      ensures RunningGrows() && forall r | r in batch :: r in old(pending) && r.Id() in running && running[r.Id()] == r
      ensures forall i, j | 0 <= i < j < |batch| :: batch[i].Id() != batch[j].Id()
    {
      batch := TakeFront(n);
      assert Values(batch) == old(Values(pending))[..n];
      StartBatch(batch, now);
    }

    method GetNextBatch(now: real, maxBatchSize: nat) returns (batch: seq<ScheduledRequest>)
      requires Valid()
      modifies this, requests
      ensures Valid() && requests == old(requests)
      ensures (View(), Values(batch)) == SchedulerModel.GetNextBatch(old(View()), now, maxBatchSize)
      ensures StaysFiled() && forall r | r in batch :: r in old(pending) && r.Id() in running && running[r.Id()] == r
      ensures forall i, j | 0 <= i < j < |batch| :: batch[i].Id() != batch[j].Id()
    {
      hide RequestScheduler.StaysFiled, RequestScheduler.IsFiled, SchedulerModel.EnforceTimeouts,
           SchedulerModel.GetNextBatch, AddAll, StartAll, InOrder, RequestScheduler.Valid, RequestScheduler.Owned,
           RequestScheduler.View, Values, Book;
      BatchSteps(View(), now, maxBatchSize);
      PendingView();
      EnforceTimeouts(now);
      PendingView();
      if pending == [] {
        GrownStaysFiled();
        return [];
      }
      OrderPending();
      PendingView();
      batch := ServeFront(Min(maxBatchSize, |pending|), now);
      GrownStaysFiled();
    }

    method MarkCompleted(request: ScheduledRequest, text: string, tokens: nat, now: real)
      requires Valid() && !IsKnown(request.Id())
      modifies this`totalCompleted, request
      ensures Valid() && request.Value() == old(request.Value()).Completed(text, tokens, now)
      ensures View() == old(View()).(totalCompleted := old(View()).totalCompleted + 1)
    {
      request.Complete(text, tokens, now);
      totalCompleted := totalCompleted + 1;
      UnfiledChange(request);
    }

    twostate lemma TakenValid(id: Id)
      requires old(Valid()) && id in old(running)
      requires running == old(running) - {id} && requests == old(requests)
      requires completed == old(completed) && pending == old(pending)
      ensures Valid() && !IsKnown(id)
      ensures var request := old(running)[id]; request.Id() == id && request in requests && request !in pending
    {
    }

    method TakeRunning(id: Id) returns (request: ScheduledRequest)
      requires Valid() && id in running
      modifies this`running
      ensures Valid() && request == old(running)[id] && running == old(running) - {id}
      ensures request.Id() == id && !IsKnown(id) && request in requests && request !in pending
      ensures View() == old(View()).(running := old(View()).running - {id})
    {
      hide RequestScheduler.Valid, RequestScheduler.Owned, RequestScheduler.IsKnown;
      request := running[id];
      running := running - {id};
      TakenValid(id);
      assert Book(running) == old(Book(running)) - {id};
    }

    method CompleteRequest(id: Id, text: string, tokens: nat, now: real)
      requires Valid()
      modifies this, requests
      ensures Valid() && requests == old(requests) && pending == old(pending)
      ensures View() == Complete(old(View()), id, text, tokens, now)
      ensures StaysFiled()
    {
      hide Values, Book, RequestScheduler.View, RequestScheduler.Valid, RequestScheduler.Owned,
           RequestScheduler.IsKnown;
      RunningIds(id);
      if id !in running {
        return;
      }
      RunningView(id);
      var request := TakeRunning(id);
      MarkCompleted(request, text, tokens, now);
      FileCompleted(request);
      MovedStaysFiled(id);
    }

    method CancelRunning(id: Id, now: real)
      requires Valid() && id in running
      modifies this`running, this`completed, this`totalCancelled, running[id]
      ensures Valid()
      ensures View() == old(View()).(
        running := old(View()).running - {id},
        completed := old(View()).completed[id := old(View()).running[id].Cancelled(now)],
        totalCancelled := old(View()).totalCancelled + 1)
      ensures running == old(running) - {id} && completed == old(completed)[id := old(running)[id]]
    {
      hide Values, Book, RequestScheduler.View, RequestScheduler.Valid, RequestScheduler.Owned,
           RequestScheduler.IsKnown;
      RunningView(id);
      var request := TakeRunning(id);
      MarkCancelled(request, now);
      FileCompleted(request);
    }

    method CancelRequest(id: Id, now: real) returns (found: bool)
      requires Valid()
      modifies this, requests
      ensures Valid() && requests == old(requests)
      ensures (View(), found) == Cancel(old(View()), id, now)
      ensures StaysFiled()
    {
      hide Find, CancelPending, RequestScheduler.StaysFiled, RequestScheduler.IsFiled, Values, Book,
           RequestScheduler.View;
      RunningIds(id);
      var k := PendingIndex(id);
      if k < |pending| {
        RetirePending(k, now, false);
        GrownStaysFiled();
        return true;
      }
      if id in running {
        RunningView(id);
        CancelRunning(id, now);
        MovedStaysFiled(id);
        return true;
      }
      GrownStaysFiled();
      return false;
    }

    method GetRequestStatus(id: Id) returns (r: Option<ScheduledRequest>)
      requires Valid()
      ensures r.Some? <==> SchedulerModel.GetRequestStatus(View(), id).Some?
      ensures r.Some? ==> r.value in requests && SchedulerModel.GetRequestStatus(View(), id) == Some(r.value.Value())
    {
      var k := PendingIndex(id);
      if k < |pending| {
        return Some(pending[k]);
      }
      if id in running {
        return Some(running[id]);
      }
      return if id in completed then Some(completed[id]) else None;
    }

    /** Nothing but this one request object changed. */
    twostate predicate OnlyChanged(request: ScheduledRequest)
      reads this, requests
    {
      && SameFiling(request)
      && totalSubmitted == old(totalSubmitted) && totalCompleted == old(totalCompleted)
      && totalCancelled == old(totalCancelled) && totalTimedOut == old(totalTimedOut)
    }

    twostate lemma RunningChange(request: ScheduledRequest)
      requires old(Valid()) && OnlyChanged(request) && old(IsFiled(request))
      ensures Book(running) == if request.Id() in running then old(Book(running))[request.Id() := request.Value()]
                               else old(Book(running))
    {
    }

    twostate lemma CompletedChange(request: ScheduledRequest)
      requires old(Valid()) && OnlyChanged(request) && old(IsFiled(request))
      ensures Book(completed) == if request.Id() in completed
                                 then old(Book(completed))[request.Id() := request.Value()]
                                 else old(Book(completed))
    {
    }

    twostate lemma PendingUnchanged(request: ScheduledRequest)
      requires old(Valid()) && OnlyChanged(request) && old(IsFiled(request))
      ensures Valid() && Values(pending) == old(Values(pending))
      ensures request.Id() in running ==> request.Id() !in completed
    {
      assert request !in pending;
    }

    /** A write by the engine to a filed request is an amendment of the queue. */
    twostate lemma FiledChange(request: ScheduledRequest)
      requires old(Valid()) && old(IsFiled(request)) && OnlyChanged(request)
      ensures Valid() && View() == Amend(old(View()), request.Id(), request.Value())
    {
      hide Book, Values, RequestScheduler.Valid, RequestScheduler.Owned;
      PendingUnchanged(request);
      RunningChange(request);
      CompletedChange(request);
    }

    method FailRequest(request: ScheduledRequest, why: string, now: real)
      requires Valid() && IsFiled(request)
      modifies request
      ensures Valid() && View() == Fail(old(View()), request.Id(), why, now)
    {
      request.Fail(why, now);
      FiledChange(request);
    }
  }
}
