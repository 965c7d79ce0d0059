/** The stable order of the priority policy, and how it commutes with removing requests. */
module SchedulerOrder {
  import opened Prelude
  import opened SchedulerModel

  ghost predicate SortedByKey(rs: seq<Request>) {
    forall i, j | 0 <= i < j < |rs| :: KeyLe(rs[i], rs[j])
  }

  lemma {:induction false} BelowLast(rs: seq<Request>, x: Request, t: seq<Request>)
    requires rs != [] && SortedByKey(rs) && KeyLe(x, Last(rs)) && multiset(t) == multiset(Init(rs)) + multiset{x}
    ensures forall i | 0 <= i < |t| :: KeyLe(t[i], Last(rs))
  {
    forall i | 0 <= i < |t| ensures KeyLe(t[i], Last(rs)) {
      assert t[i] in multiset(t);
    }
  }

  lemma {:induction false} InsertSorted(rs: seq<Request>, x: Request)
    requires SortedByKey(rs)
    ensures SortedByKey(Insert(rs, x))
    ensures multiset(Insert(rs, x)) == multiset(rs) + multiset{x}
  {
    if rs != [] && !KeyLe(Last(rs), x) {
      var init := Init(rs);
      assert rs == init + [Last(rs)];
      InsertSorted(init, x);
      BelowLast(rs, x, Insert(init, x));
    }
  }

  lemma {:induction false} StableSortSorts(rs: seq<Request>)
    ensures SortedByKey(StableSort(rs))
    ensures multiset(StableSort(rs)) == multiset(rs)
  {
    if rs != [] {
      StableSortSorts(Init(rs));
      InsertSorted(StableSort(Init(rs)), Last(rs));
      assert rs == Init(rs) + [Last(rs)];
    }
  }

  /** Members and length survive the sort. */
  lemma {:induction false} StableSortMembers(rs: seq<Request>)
    ensures |StableSort(rs)| == |rs|
    ensures forall r :: r in StableSort(rs) <==> r in rs
  {
    StableSortSorts(rs);
    assert |multiset(StableSort(rs))| == |multiset(rs)|;
    forall r ensures r in StableSort(rs) <==> r in rs {
      assert r in StableSort(rs) <==> r in multiset(StableSort(rs));
      assert r in rs <==> r in multiset(rs);
    }
  }

  lemma {:induction false} SortSorted(rs: seq<Request>)
    requires SortedByKey(rs)
    ensures StableSort(rs) == rs
  {
    if rs != [] {
      var init := Init(rs);
      assert rs == init + [Last(rs)];
      assert forall i | 0 <= i < |init| :: init[i] == rs[i];
      SortSorted(init);
    }
  }

  lemma {:induction false} InsertBefore(rs: seq<Request>, y: Request, x: Request)
    requires !KeyLe(y, x)
    ensures Insert(rs + [y], x) == Insert(rs, x) + [y]
  {
    assert Init(rs + [y]) == rs;
  }

  lemma {:induction false} InsertFilter(p: Request -> bool, rs: seq<Request>, x: Request)
    requires SortedByKey(rs)
    ensures Filter(p, Insert(rs, x)) == if p(x) then Insert(Filter(p, rs), x) else Filter(p, rs)
  {
    if rs == [] || KeyLe(Last(rs), x) {
      FilterSnoc(p, rs, x);
      FilterMembers(p, rs);
      if Filter(p, rs) != [] {
        assert Last(Filter(p, rs)) in Filter(p, rs);
      }
    } else {
      var init, y := Init(rs), Last(rs);
      assert forall i | 0 <= i < |init| :: init[i] == rs[i];
      assert rs == init + [y];
      InsertFilter(p, init, x);
      FilterSnoc(p, init, y);
      FilterSnoc(p, Insert(init, x), y);
      InsertBefore(Filter(p, init), y, x);
    }
  }

  lemma {:induction false} SortSnoc(rs: seq<Request>, x: Request)
    ensures StableSort(rs + [x]) == Insert(StableSort(rs), x)
  {
    assert Init(rs + [x]) == rs;
  }

  /** Removing requests before or after sorting is the same. */
  lemma {:induction false} SortFilter(p: Request -> bool, rs: seq<Request>)
    ensures StableSort(Filter(p, rs)) == Filter(p, StableSort(rs))
  {
    if rs != [] {
      hide Insert, SortedByKey;
      var init, x := Init(rs), Last(rs);
      assert rs == init + [x];
      SortFilter(p, init);
      StableSortSorts(init);
      InsertFilter(p, StableSort(init), x);
      FilterSnoc(p, init, x);
      SortSnoc(init, x);
      SortSnoc(Filter(p, init), x);
    }
  }

  function SameKey(k: Request): Request -> bool {
    (r: Request) => r.priority == k.priority && r.createdAt == k.createdAt
  }

  /** What the priority policy promises of its order: ascending (priority, created_at), the same requests,
      and requests with equal keys stay in the order they had. */
  lemma {:induction false} StableSortSpec(rs: seq<Request>, k: Request)
    ensures SortedByKey(StableSort(rs))
    ensures multiset(StableSort(rs)) == multiset(rs)
    ensures Filter(SameKey(k), StableSort(rs)) == Filter(SameKey(k), rs)
  {
    StableSortSorts(rs);
    SortFilter(SameKey(k), rs);
    var same := Filter(SameKey(k), rs);
    FilterMembers(SameKey(k), rs);
    assert forall i | 0 <= i < |same| :: same[i] in same;
    SortSorted(same);
  }
}
