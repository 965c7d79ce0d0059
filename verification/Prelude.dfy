/** Small value types and sequence helpers shared by every component. */
module Prelude {
  datatype Option<+T> = None | Some(value: T)

  type Pos = n: nat | 0 < n witness 1

  /** A request id; the cache uses it as its sequence id. */
  datatype Id = Id(name: string)

  function Min(a: int, b: int): int { if a <= b then a else b }

  function Max(a: int, b: int): int { if a <= b then b else a }

  function Last<T>(s: seq<T>): T
    requires s != []
  {
    s[|s| - 1]
  }

  function Init<T>(s: seq<T>): seq<T>
    requires s != []
  {
    s[..|s| - 1]
  }

  ghost predicate NoDup<T>(s: seq<T>) {
    forall i, j | 0 <= i < j < |s| :: s[i] != s[j]
  }

  /** The elements of s that satisfy p, in order. */
  function Filter<T>(p: T -> bool, s: seq<T>): seq<T> {
    if s == [] then [] else Filter(p, Init(s)) + if p(Last(s)) then [Last(s)] else []
  }

  /** s with every occurrence of x removed: what deleting a key does to an insertion-ordered dictionary. */
  function Without(s: seq<Id>, x: Id): seq<Id> {
    if s == [] then [] else Without(Init(s), x) + if Last(s) == x then [] else [Last(s)]
  }

  lemma {:induction false} FilterMembers<T>(p: T -> bool, s: seq<T>)
    ensures forall x :: x in Filter(p, s) <==> x in s && p(x)
    ensures |Filter(p, s)| <= |s|
    ensures NoDup(s) ==> NoDup(Filter(p, s))
  {
    if s != [] {
      FilterMembers(p, Init(s));
      assert s == Init(s) + [Last(s)];
    }
  }

  lemma {:induction false} FilterSnoc<T>(p: T -> bool, s: seq<T>, x: T)
    ensures Filter(p, s + [x]) == if p(x) then Filter(p, s) + [x] else Filter(p, s)
  {
    assert Init(s + [x]) == s;
  }

  lemma {:induction false} FilterConcat<T>(p: T -> bool, a: seq<T>, b: seq<T>)
    ensures Filter(p, a + b) == Filter(p, a) + Filter(p, b)
  {
    if b == [] {
      assert a + b == a;
    } else {
      assert Init(a + b) == a + Init(b);
      FilterConcat(p, a, Init(b));
    }
  }

  lemma {:induction false} FilterAll<T>(p: T -> bool, s: seq<T>)
    requires forall x | x in s :: p(x)
    ensures Filter(p, s) == s
  {
    if s != [] {
      assert s == Init(s) + [Last(s)];
      FilterAll(p, Init(s));
    }
  }

  lemma {:induction false} FilterNone<T>(p: T -> bool, s: seq<T>)
    requires forall x | x in s :: !p(x)
    ensures Filter(p, s) == []
  {
    if s != [] {
      assert forall x | x in Init(s) :: x in s;
      FilterNone(p, Init(s));
    }
  }

  /** Filtering depends only on what the predicate says of the members. */
  lemma {:induction false} FilterAgree<T>(p: T -> bool, q: T -> bool, s: seq<T>)
    requires forall x | x in s :: p(x) == q(x)
    ensures Filter(p, s) == Filter(q, s)
  {
    if s != [] {
      assert forall x | x in Init(s) :: x in s;
      FilterAgree(p, q, Init(s));
    }
  }

  lemma {:induction false} FilterTwice<T>(p: T -> bool, q: T -> bool, both: T -> bool, s: seq<T>)
    requires forall x | x in s :: both(x) == (p(x) && q(x))
    ensures Filter(q, Filter(p, s)) == Filter(both, s)
  {
    if s != [] {
      var init, x := Init(s), Last(s);
      assert s == init + [x];
      FilterTwice(p, q, both, init);
      FilterSnoc(p, init, x);
      FilterSnoc(q, Filter(p, init), x);
      FilterSnoc(both, init, x);
    }
  }

  lemma {:induction false} WithoutMembers(s: seq<Id>, x: Id)
    ensures forall y :: y in Without(s, x) <==> y in s && y != x
    ensures NoDup(s) ==> NoDup(Without(s, x))
    ensures x !in s ==> Without(s, x) == s
  {
    if s != [] {
      WithoutMembers(Init(s), x);
      assert s == Init(s) + [Last(s)];
      if NoDup(s) {
        assert forall i | 0 <= i < |Init(s)| :: Init(s)[i] == s[i];
        assert NoDup(Init(s)) && Last(s) !in Init(s);
        assert Last(s) !in Without(Init(s), x);
      }
    }
  }

  lemma {:induction false} WithoutConcat(a: seq<Id>, b: seq<Id>, x: Id)
    ensures Without(a + b, x) == Without(a, x) + Without(b, x)
  {
    if b == [] {
      assert a + b == a;
    } else {
      assert Init(a + b) == a + Init(b);
      WithoutConcat(a, Init(b), x);
    }
  }

  /** Where x stands in a duplicate-free list is the only place Without cuts. */
  lemma {:induction false} WithoutAt(s: seq<Id>, k: nat)
    requires NoDup(s) && k < |s|
    ensures Without(s, s[k]) == s[..k] + s[k + 1..]
  {
    assert s == s[..k] + ([s[k]] + s[k + 1..]);
    WithoutConcat(s[..k], [s[k]] + s[k + 1..], s[k]);
    WithoutConcat([s[k]], s[k + 1..], s[k]);
    WithoutMembers(s[..k], s[k]);
    WithoutMembers(s[k + 1..], s[k]);
  }
}
