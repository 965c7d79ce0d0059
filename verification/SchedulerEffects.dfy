/** What timeouts, batches and cancellations do to the queue, in terms of filters of the pending list. */
module SchedulerEffects {
  import opened Prelude
  import opened SchedulerModel
  import opened SchedulerOrder

  function OnTime(now: real): Request -> bool { (r: Request) => !r.IsTimedOut(now) }

  function NotAmong(ids: set<Id>): Request -> bool { (r: Request) => r.Id() !in ids }

  function Outside(ids: set<Id>): Id -> bool { (id: Id) => id !in ids }

  ghost function IdSet(rs: seq<Request>): set<Id> {
    if rs == [] then {} else IdSet(Init(rs)) + {Last(rs).Id()}
  }

  lemma {:induction false} IdsSnoc(rs: seq<Request>)
    requires rs != []
    ensures Ids(rs) == Ids(Init(rs)) + [Last(rs).Id()]
    ensures NoDup(Ids(rs)) ==> NoDup(Ids(Init(rs))) && Last(rs).Id() !in Ids(Init(rs))
  {
    assert Ids(rs) == Ids(Init(rs)) + [Last(rs).Id()];
    assert forall i | 0 <= i < |rs| - 1 :: Ids(Init(rs))[i] == Ids(rs)[i];
  }

  lemma {:induction false} IdSetMembers(rs: seq<Request>)
    ensures forall id :: id in IdSet(rs) <==> id in Ids(rs)
    ensures forall r | r in rs :: r.Id() in IdSet(rs)
  {
    if rs != [] {
      IdSetMembers(Init(rs));
      IdsSnoc(rs);
      assert rs == Init(rs) + [Last(rs)];
    }
  }

  lemma {:induction false} IdsConcat(a: seq<Request>, b: seq<Request>)
    ensures Ids(a + b) == Ids(a) + Ids(b)
  {
  }

  lemma {:induction false} SameIdSet(a: seq<Request>, b: seq<Request>)
    requires Ids(a) == Ids(b)
    ensures IdSet(a) == IdSet(b)
  {
    IdSetMembers(a);
    IdSetMembers(b);
    assert forall id :: id in IdSet(a) <==> id in IdSet(b);
  }

  lemma {:induction false} FilterIds(ids: set<Id>, rs: seq<Request>)
    ensures Ids(Filter(NotAmong(ids), rs)) == Filter(Outside(ids), Ids(rs))
  {
    if rs != [] {
      var init, x := Init(rs), Last(rs);
      FilterIds(ids, init);
      assert Ids(rs) == Ids(init) + [x.Id()];
      FilterSnoc(Outside(ids), Ids(init), x.Id());
      IdsConcat(Filter(NotAmong(ids), init), [x]);
      assert Ids([x]) == [x.Id()];
    }
  }

  /** A filtered list keeps distinct ids distinct. */
  lemma {:induction false} FilterDistinct(p: Request -> bool, rs: seq<Request>)
    requires NoDup(Ids(rs))
    ensures NoDup(Ids(Filter(p, rs)))
    ensures forall id | id in Ids(Filter(p, rs)) :: id in Ids(rs)
  {
    if rs != [] {
      var init, x := Init(rs), Last(rs);
      assert Ids(rs) == Ids(init) + [x.Id()];
      assert forall i | 0 <= i < |init| :: Ids(init)[i] == Ids(rs)[i];
      FilterDistinct(p, init);
      IdsConcat(Filter(p, init), [x]);
      assert Ids([x]) == [x.Id()];
      assert x.Id() !in Ids(init);
    }
  }

  lemma {:induction false} FilterSplits(p: Request -> bool, q: Request -> bool, rs: seq<Request>)
    requires forall r | r in rs :: q(r) == !p(r)
    ensures |Filter(p, rs)| + |Filter(q, rs)| == |rs|
  {
    if rs != [] {
      assert rs == Init(rs) + [Last(rs)];
      FilterSplits(p, q, Init(rs));
    }
  }

  /** In a list of distinct ids, dropping one id removes exactly one request. */
  lemma {:induction false} DropOne(rs: seq<Request>, id: Id)
    requires NoDup(Ids(rs)) && id in Ids(rs)
    ensures |Drop(rs, id)| == |rs| - 1
  {
    var init, x := Init(rs), Last(rs);
    assert Ids(rs) == Ids(init) + [x.Id()];
    assert forall i | 0 <= i < |init| :: Ids(init)[i] == Ids(rs)[i];
    if x.Id() == id {
      assert id !in Ids(init);
      forall r | r in init ensures Other(id)(r) {
        var i :| 0 <= i < |init| && init[i] == r;
        assert Ids(init)[i] == r.Id();
      }
      FilterAll(Other(id), init);
    } else {
      DropOne(init, id);
    }
  }

  // ----- timeouts -----

  ghost function ExpiredAll(late: seq<Request>, now: real): (rs: seq<Request>)
    ensures |rs| == |late| && Ids(rs) == Ids(late)
    ensures forall i | 0 <= i < |late| :: rs[i] == Expired(late[i], now)
  {
    seq(|late|, i requires 0 <= i < |late| => Expired(late[i], now))
  }

  lemma {:induction false} ExpireAllEffect(s: Scheduler, late: seq<Request>, now: real)
    ensures ExpireAll(s, late, now) == s.(
      pending := Filter(NotAmong(IdSet(late)), s.pending),
      completed := AddAll(s.completed, ExpiredAll(late, now)),
      totalTimedOut := s.totalTimedOut + |late|)
  {
    if late == [] {
      FilterAll(NotAmong({}), s.pending);
    } else {
      var init, x := Init(late), Last(late);
      ExpireAllEffect(s, init, now);
      FilterTwice(NotAmong(IdSet(init)), Other(x.Id()), NotAmong(IdSet(late)), s.pending);
      assert Init(ExpiredAll(late, now)) == ExpiredAll(init, now);
    }
  }

  lemma {:induction false} SameIdSameRequest(rs: seq<Request>, a: Request, b: Request)
    requires NoDup(Ids(rs)) && a in rs && b in rs && a.Id() == b.Id()
    ensures a == b
  {
    var i :| 0 <= i < |rs| && rs[i] == a;
    var j :| 0 <= j < |rs| && rs[j] == b;
    assert Ids(rs)[i] == Ids(rs)[j];
  }

  lemma {:induction false} LateIsAmong(rs: seq<Request>, now: real)
    requires NoDup(Ids(rs))
    ensures forall r | r in rs :: r.Id() in IdSet(Filter(Late(now), rs)) <==> r.IsTimedOut(now)
  {
    var late := Filter(Late(now), rs);
    FilterMembers(Late(now), rs);
    IdSetMembers(late);
    forall r | r in rs && r.Id() in IdSet(late) ensures r.IsTimedOut(now) {
      var i :| 0 <= i < |late| && late[i].Id() == r.Id();
      assert late[i] in rs;
      SameIdSameRequest(rs, r, late[i]);
    }
  }

  /** m' is m with the requests rs filed under their ids. */
  ghost predicate Added(m: map<Id, Request>, m': map<Id, Request>, rs: seq<Request>) {
    && m'.Keys == m.Keys + IdSet(rs) && |m'| == |m| + |rs|
    && (forall id | id in m :: id in m' && m'[id] == m[id])
    && (forall r | r in rs :: r.Id() in m' && m'[r.Id()] == r)
  }

  lemma {:induction false} NewKey(mid: map<Id, Request>, id: Id, x: Request)
    ensures mid[id := x].Keys == mid.Keys + {id}
    ensures id !in mid.Keys ==> |mid[id := x]| == |mid| + 1
  {
  }

  lemma {:induction false} IdSetSnoc(init: seq<Request>, x: Request)
    ensures IdSet(init + [x]) == IdSet(init) + {x.Id()}
  {
    assert Init(init + [x]) == init;
  }

  lemma {:induction false} KeysPlus(a: set<Id>, b: set<Id>, id: Id, keys: set<Id>)
    requires keys == a + b + {id}
    ensures keys == a + (b + {id})
  {
  }

  lemma {:induction false} OneMore(mid: map<Id, Request>, init: seq<Request>, x: Request)
    requires x.Id() !in mid && forall r | r in init :: r.Id() in mid && mid[r.Id()] == r
    ensures forall r | r in init + [x] :: r.Id() in mid[x.Id() := x] && mid[x.Id() := x][r.Id()] == r
  {
    forall r | r in init + [x] ensures r.Id() in mid[x.Id() := x] && mid[x.Id() := x][r.Id()] == r {
      assert r in init || r == x;
    }
  }

  lemma {:induction false} AddOne(m: map<Id, Request>, mid: map<Id, Request>, init: seq<Request>, x: Request)
    requires Added(m, mid, init) && x.Id() !in m && x.Id() !in IdSet(init)
    ensures Added(m, mid[x.Id() := x], init + [x])
  {
    hide IdSet;
    IdSetSnoc(init, x);
    var id, m' := x.Id(), mid[x.Id() := x];
    NewKey(mid, id, x);
    KeysPlus(m.Keys, IdSet(init), id, m'.Keys);
    OneMore(mid, init, x);
  }

  lemma {:induction false} FreshLast(m: map<Id, Request>, rs: seq<Request>)
    requires rs != [] && NoDup(Ids(rs)) && IdSet(rs) !! m.Keys
    ensures NoDup(Ids(Init(rs))) && IdSet(Init(rs)) !! m.Keys
    ensures Last(rs).Id() !in m && Last(rs).Id() !in IdSet(Init(rs))
  {
    IdsSnoc(rs);
    IdSetMembers(Init(rs));
  }

  lemma {:induction false} AddNone(m: map<Id, Request>)
    ensures Added(m, m, [])
  {
    assert IdSet([]) == {};
  }

  lemma {:induction false} AddAllEffect(m: map<Id, Request>, rs: seq<Request>)
    requires NoDup(Ids(rs)) && IdSet(rs) !! m.Keys
    ensures Added(m, AddAll(m, rs), rs)
  {
    hide Added, Ids, NoDup, IdSet;
    if rs == [] {
      AddNone(m);
    } else {
      var init, x := Init(rs), Last(rs);
      FreshLast(m, rs);
      AddAllEffect(m, init);
      AddOne(m, AddAll(m, init), init, x);
      assert rs == init + [x];
    }
  }

  /** Enforcing timeouts files every late pending request as cancelled, and keeps the others in order. */
  lemma {:induction false} EnforceEffect(s: Scheduler, now: real)
    requires NoDup(Ids(s.pending)) && forall id | id in Ids(s.pending) :: id !in s.completed
    ensures var s' := EnforceTimeouts(s, now);
      var late := Filter(Late(now), s.pending);
      && s'.pending == Filter(OnTime(now), s.pending) == Filter(NotAmong(IdSet(late)), s.pending)
      && s' == s.(pending := s'.pending, completed := s'.completed, totalTimedOut := s.totalTimedOut + |late|)
      && s'.completed.Keys == s.completed.Keys + IdSet(late)
      && |s'.completed| == |s.completed| + |late|
      && |s'.pending| + |late| == |s.pending|
      && (forall id | id in s.completed :: id in s'.completed && s'.completed[id] == s.completed[id])
      && (forall r | r in late :: r.Id() in s'.completed && s'.completed[r.Id()] == Expired(r, now))
  {
    hide Filter;
    var late := Filter(Late(now), s.pending);
    FilterDistinct(Late(now), s.pending);
    FilterMembers(Late(now), s.pending);
    ExpireAllEffect(s, late, now);
    var expired := ExpiredAll(late, now);
    SameIdSet(expired, late);
    IdSetMembers(late);
    AddAllEffect(s.completed, expired);
    var s' := EnforceTimeouts(s, now);
    forall r | r in late ensures r.Id() in s'.completed && s'.completed[r.Id()] == Expired(r, now) {
      var i :| 0 <= i < |late| && late[i] == r;
      assert expired[i] in expired;
    }
    FilterSplits(Late(now), OnTime(now), s.pending);
    LateIsAmong(s.pending, now);
    FilterAgree(NotAmong(IdSet(late)), OnTime(now), s.pending);
  }

  // ----- batches -----

  lemma {:induction false} AddedFacts(m: map<Id, Request>, m': map<Id, Request>, rs: seq<Request>)
    requires Added(m, m', rs)
    ensures |m'| == |m| + |rs|
    ensures forall id :: id in m' <==> id in m || id in Ids(rs)
    ensures forall id | id in m :: m'[id] == m[id]
    ensures forall r | r in rs :: r.Id() in m' && m'[r.Id()] == r
  {
    IdSetMembers(rs);
    assert forall id :: id in m' <==> id in m'.Keys;
  }

  lemma {:induction false} SameMembersSameIds(a: seq<Request>, b: seq<Request>)
    requires forall r :: r in a <==> r in b
    ensures forall id :: id in Ids(a) <==> id in Ids(b)
  {
    forall id ensures id in Ids(a) <==> id in Ids(b) {
      if id in Ids(a) {
        var i :| 0 <= i < |a| && Ids(a)[i] == id;
        assert a[i] in b;
        var j :| 0 <= j < |b| && b[j] == a[i];
        assert Ids(b)[j] == id;
      }
      if id in Ids(b) {
        var i :| 0 <= i < |b| && Ids(b)[i] == id;
        assert b[i] in a;
        var j :| 0 <= j < |a| && a[j] == b[i];
        assert Ids(a)[j] == id;
      }
    }
  }

  lemma {:induction false} InsertDistinct(rs: seq<Request>, x: Request)
    requires NoDup(Ids(rs)) && x.Id() !in Ids(rs)
    ensures NoDup(Ids(Insert(rs, x)))
    ensures forall id :: id in Ids(Insert(rs, x)) <==> id in Ids(rs) || id == x.Id()
  {
    var t := Insert(rs, x);
    if rs == [] || KeyLe(Last(rs), x) {
      IdsConcat(rs, [x]);
      assert Ids(t) == Ids(rs) + [x.Id()];
    } else {
      var init, y := Init(rs), Last(rs);
      IdsSnoc(rs);
      InsertDistinct(init, x);
      var u := Insert(init, x);
      IdsConcat(u, [y]);
      assert Ids(t) == Ids(u) + [y.Id()];
      assert y.Id() !in Ids(u);
    }
  }

  lemma {:induction false} SortDistinct(rs: seq<Request>)
    requires NoDup(Ids(rs))
    ensures NoDup(Ids(StableSort(rs)))
    ensures forall id :: id in Ids(StableSort(rs)) <==> id in Ids(rs)
  {
    if rs != [] {
      var init, y := Init(rs), Last(rs);
      IdsSnoc(rs);
      SortDistinct(init);
      InsertDistinct(StableSort(init), y);
    }
  }

  lemma {:induction false} InOrderMembers(policy: string, rs: seq<Request>)
    ensures |InOrder(policy, rs)| == |rs|
    ensures forall r :: r in InOrder(policy, rs) <==> r in rs
    ensures NoDup(Ids(rs)) ==> NoDup(Ids(InOrder(policy, rs)))
    ensures forall id :: id in Ids(InOrder(policy, rs)) <==> id in Ids(rs)
  {
    if policy == "priority" {
      StableSortMembers(rs);
      SameMembersSameIds(StableSort(rs), rs);
      if NoDup(Ids(rs)) {
        SortDistinct(rs);
      }
    }
  }

  /** A batch is the front of the ordered on-time queue; the rest stays pending. */
  lemma {:induction false} BatchEffect(s: Scheduler, now: real, k: nat)
    requires NoDup(Ids(s.pending)) && forall id | id in Ids(s.pending) :: id !in s.completed
    ensures var (s', batch) := GetNextBatch(s, now, k);
      var queue := InOrder(s.policy, Filter(OnTime(now), s.pending));
      var n := Min(k, |queue|);
      && s'.pending == queue[n..] && batch == StartAll(queue[..n], now)
      && s' == EnforceTimeouts(s, now).(pending := queue[n..], running := AddAll(s.running, batch))
  {
    EnforceEffect(s, now);
  }
}
