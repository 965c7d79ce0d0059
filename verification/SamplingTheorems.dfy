/** What the sampling filters keep. */
module SamplingTheorems {
  import opened Prelude
  import opened Sampling

  /** The two facts about the exponential that the proofs use. */
  ghost predicate IsExp(exp: real -> real) {
    (forall x :: exp(x) > 0.0) && (forall x, y | x < y :: exp(x) < exp(y))
  }

  // ----- sorting -----

  ghost predicate SortsFirst(order: seq<nat>, v: seq<Logit>, n: nat)
    requires n <= |v|
  {
    && |order| == n && (forall j | 0 <= j < n :: order[j] < n)
    && NoDup(order) && (forall i | 0 <= i < n :: i in order)
    && (forall j, k | 0 <= j < k < n :: Leq(v[order[k]], v[order[j]]))
  }

  lemma {:induction false} InsertIndexSpec(v: seq<Logit>, order: seq<nat>, i: nat)
    requires i < |v| && (forall j | 0 <= j < |order| :: order[j] < |v|)
    requires NoDup(order) && i !in order
    requires forall j, k | 0 <= j < k < |order| :: Leq(v[order[k]], v[order[j]])
    ensures var r := InsertIndex(v, order, i);
      && NoDup(r) && (forall x :: x in r <==> x in order || x == i)
      && (forall j, k | 0 <= j < k < |r| :: Leq(v[r[k]], v[r[j]]))
  {
    if order != [] && !Before(v, Last(order), i) {
      var init, y := Init(order), Last(order);
      assert order == init + [y];
      assert forall j | 0 <= j < |init| :: init[j] == order[j];
      InsertIndexSpec(v, init, i);
      var t := InsertIndex(v, init, i);
      assert y !in t;
      forall j | 0 <= j < |t| ensures Leq(v[y], v[t[j]]) {
        assert t[j] in t;
      }
    }
  }

  lemma {:induction false} SortIndicesSpec(v: seq<Logit>, n: nat)
    requires n <= |v|
    ensures SortsFirst(SortIndices(v, n), v, n)
  {
    if n > 0 {
      SortIndicesSpec(v, n - 1);
      var order := SortIndices(v, n - 1);
      InsertIndexSpec(v, order, n - 1);
      var r := SortIndices(v, n);
      forall j | 0 <= j < n ensures r[j] < n {
        assert r[j] in r;
      }
    }
  }

  lemma {:induction false} SortIsSort(v: seq<Logit>)
    ensures IsSort(SortIndices(v, |v|), v)
  {
    SortIndicesSpec(v, |v|);
  }

  // ----- probabilities -----

  ghost predicate HasFinite(v: seq<Logit>) {
    exists i :: 0 <= i < |v| && v[i].Fin?
  }

  lemma {:induction false} SumNonNegative(s: seq<real>)
    requires forall i | 0 <= i < |s| :: s[i] >= 0.0
    ensures Sum(s) >= 0.0
    ensures forall i | 0 <= i < |s| :: s[i] <= Sum(s)
  {
    if s != [] {
      var init := Init(s);
      assert forall i | 0 <= i < |init| :: init[i] == s[i];
      SumNonNegative(init);
    }
  }

  lemma {:induction false} SumDivided(p: seq<real>, w: seq<real>, t: real)
    requires t > 0.0 && |p| == |w| && forall i | 0 <= i < |w| :: p[i] == w[i] / t
    ensures Sum(p) == Sum(w) / t
  {
    if w != [] {
      var p', w' := Init(p), Init(w);
      assert forall i | 0 <= i < |w'| :: p'[i] == p[i] && w'[i] == w[i];
      SumDivided(p', w', t);
    }
  }

  lemma {:induction false} TotalPositive(exp: real -> real, v: seq<Logit>)
    requires IsExp(exp) && HasFinite(v)
    ensures Sum(Weights(exp, v)) > 0.0
  {
    SumNonNegative(Weights(exp, v));
    var i :| 0 <= i < |v| && v[i].Fin?;
    assert Weights(exp, v)[i] > 0.0;
  }

  lemma {:induction false} DivSelf(t: real)
    requires t > 0.0
    ensures t / t == 1.0
  {
    var q := t / t;
    assert q * t == t;
    assert (q - 1.0) * t == 0.0;
  }

  lemma {:induction false} Quotients(a: real, b: real, t: real)
    requires t > 0.0
    ensures a <= b <==> a / t <= b / t
    ensures 0.0 / t == 0.0
  {
    var x, y := a / t, b / t;
    assert x * t == a && y * t == b;
    assert x <= y ==> x * t <= y * t;
    assert x > y ==> x * t > y * t;
  }

  /** The probabilities are non-negative, add up to one, and order the tokens as their logits do. */
  lemma {:induction false} ProbsSpec(exp: real -> real, v: seq<Logit>)
    requires IsExp(exp) && HasFinite(v)
    ensures var p := Probs(exp, v);
      && (forall i | 0 <= i < |p| :: p[i] >= 0.0) && Sum(p) == 1.0
      && (forall i, j | 0 <= i < |p| && 0 <= j < |p| :: p[i] <= p[j] <==> Leq(v[i], v[j]))
  {
    var w, p := Weights(exp, v), Probs(exp, v);
    var t := Sum(w);
    TotalPositive(exp, v);
    SumDivided(p, w, t);
    DivSelf(t);
    forall i | 0 <= i < |p| ensures p[i] >= 0.0 {
      Quotients(0.0, w[i], t);
    }
    forall i, j | 0 <= i < |p| && 0 <= j < |p| ensures p[i] <= p[j] <==> Leq(v[i], v[j]) {
      Quotients(w[i], w[j], t);
      assert w[i] <= w[j] <==> Leq(v[i], v[j]);
    }
  }

  lemma {:induction false} SumPrefix(p: seq<real>, j: nat)
    requires j < |p|
    ensures Sum(p[..j + 1]) == Sum(p[..j]) + p[j]
  {
    assert Init(p[..j + 1]) == p[..j];
  }

  lemma {:induction false} SumGrows(p: seq<real>, j: nat, k: nat)
    requires j <= k <= |p| && forall i | 0 <= i < |p| :: p[i] >= 0.0
    ensures Sum(p[..j]) <= Sum(p[..k])
  {
    if j < k {
      SumGrows(p, j, k - 1);
      SumPrefix(p, k - 1);
    }
  }

  /** How many of the first n positions are needed to reach mass topP. */
  ghost function Needed(p: seq<real>, topP: real, n: nat): (m: nat)
    requires n <= |p|
    ensures m <= n
  {
    if n == 0 || Sum(p[..n - 1]) < topP then n else Needed(p, topP, n - 1)
  }

  lemma {:induction false} NeededSpec(p: seq<real>, topP: real, n: nat)
    requires n <= |p| && (forall i | 0 <= i < |p| :: p[i] >= 0.0) && Sum(p[..n]) >= topP > 0.0
    ensures var m := Needed(p, topP, n);
      && 1 <= m && Sum(p[..m]) >= topP && (forall k | 0 <= k < m :: Sum(p[..k]) < topP)
      && (forall k | m <= k <= |p| :: Sum(p[..k]) >= topP)
  {
    var m := Needed(p, topP, n);
    assert p[..0] == [];
    if n == 0 {
    } else if Sum(p[..n - 1]) < topP {
      forall k | 0 <= k < m ensures Sum(p[..k]) < topP {
        SumGrows(p, k, n - 1);
      }
      forall k | m <= k <= |p| ensures Sum(p[..k]) >= topP {
        SumGrows(p, n, k);
      }
    } else {
      NeededSpec(p, topP, n - 1);
    }
  }

  lemma {:induction false} ScatterSpec(into: seq<Logit>, order: seq<nat>, values: seq<Logit>)
    requires |order| == |values| && (forall j | 0 <= j < |order| :: order[j] < |into|) && NoDup(order)
    ensures forall j | 0 <= j < |order| :: Scatter(into, order, values)[order[j]] == values[j]
  {
    if order != [] {
      var init := Init(order);
      assert forall j | 0 <= j < |init| :: init[j] == order[j] && init[j] != Last(order);
      ScatterSpec(into, init, Init(values));
    }
  }

  /** The nucleus filter means what it says, whatever order ties are sorted in: with the sorted
      probabilities p, it keeps the shortest prefix of the sorted order whose mass reaches topP. Each kept
      token has its own logit at its own index, and every other token is masked. */
  lemma {:induction false} NucleusMeaning(exp: real -> real, v: seq<Logit>, order: seq<nat>, topP: real)
    requires IsExp(exp) && HasFinite(v) && IsSort(order, v) && 0.0 < topP < 1.0
    ensures var p := Probs(exp, Permute(v, order));
      var m := Needed(p, topP, |p|);
      var r := TopP(exp, v, order, topP);
      && 1 <= m <= |v|
      && Sum(p[..m]) >= topP && (forall k | 0 <= k < m :: Sum(p[..k]) < topP)
      && (forall j | 0 <= j < |v| :: r[order[j]] == if j < m then v[order[j]] else NegInf)
  {
    var sorted := Permute(v, order);
    var i :| 0 <= i < |v| && v[i].Fin?;
    assert i in order;
    var j0 :| 0 <= j0 < |order| && order[j0] == i;
    assert sorted[j0].Fin?;
    ProbsSpec(exp, sorted);
    var p := Probs(exp, sorted);
    assert p[..|p|] == p;
    NeededSpec(p, topP, |p|);
    var m := Needed(p, topP, |p|);
    var keep := KeptPositions(p, topP);
    forall j | 0 <= j < |p| ensures keep[j] == (j < m) {
      SumPrefix(p, j);
    }
    ScatterSpec(Zeros(|v|), order, Mask(sorted, keep));
  }

  ghost predicate IsMax(v: seq<Logit>, i: int) {
    0 <= i < |v| && v[i].Fin? && forall j | 0 <= j < |v| :: Leq(v[j], v[i])
  }

  lemma {:induction false} FirstIsMax(v: seq<Logit>, order: seq<nat>, i: nat)
    requires IsSort(order, v) && i < |v| && v[i].Fin?
    ensures IsMax(v, order[0])
  {
    forall j | 0 <= j < |v| ensures Leq(v[j], v[order[0]]) {
      assert j in order;
      var k :| 0 <= k < |order| && order[k] == j;
    }
    assert Leq(v[i], v[order[0]]);
  }

  /** r is v with some entries masked, but not all of the largest ones. */
  ghost predicate KeepsAMax(v: seq<Logit>, r: seq<Logit>) {
    && |r| == |v| && (forall i | 0 <= i < |v| :: r[i] == v[i] || r[i] == NegInf)
    && exists i :: IsMax(v, i) && r[i] == v[i]
  }

  lemma {:induction false} TopPKeeps(exp: real -> real, v: seq<Logit>, order: seq<nat>, topP: real)
    requires IsExp(exp) && HasFinite(v) && IsSort(order, v) && topP > 0.0
    ensures KeepsAMax(v, TopP(exp, v, order, topP))
  {
    var i :| 0 <= i < |v| && v[i].Fin?;
    FirstIsMax(v, order, i);
    if topP < 1.0 {
      NucleusMeaning(exp, v, order, topP);
      var r := TopP(exp, v, order, topP);
      forall k | 0 <= k < |v| ensures r[k] == v[k] || r[k] == NegInf {
        assert k in order;
        var j :| 0 <= j < |order| && order[j] == k;
        assert r[order[j]] == v[order[j]] || r[order[j]] == NegInf;
      }
      assert r[order[0]] == v[order[0]];
    }
  }

  lemma {:induction false} SortedHasFinite(v: seq<Logit>, order: seq<nat>)
    requires HasFinite(v) && IsSort(order, v)
    ensures HasFinite(Permute(v, order))
  {
    var i :| 0 <= i < |v| && v[i].Fin?;
    assert i in order;
    var j :| 0 <= j < |order| && order[j] == i;
    assert Permute(v, order)[j].Fin?;
  }

  /** The nucleus filter leaves a token to choose exactly when topP is positive: at zero, which the
      request schema admits, every logit is masked. */
  lemma {:induction false} NucleusLeavesSomething(exp: real -> real, v: seq<Logit>, order: seq<nat>, topP: real)
    requires IsExp(exp) && HasFinite(v) && IsSort(order, v)
    ensures HasFinite(TopP(exp, v, order, topP)) <==> topP > 0.0
  {
    hide Sum;
    if topP > 0.0 {
      TopPKeeps(exp, v, order, topP);
    } else {
      var sorted := Permute(v, order);
      SortedHasFinite(v, order);
      ProbsSpec(exp, sorted);
      var p := Probs(exp, sorted);
      var r := TopP(exp, v, order, topP);
      ScatterSpec(Zeros(|v|), order, Mask(sorted, KeptPositions(p, topP)));
      forall k | 0 <= k < |v| ensures r[k] == NegInf {
        assert k in order;
        var j :| 0 <= j < |order| && order[j] == k;
        SumPrefix(p, j);
        SumNonNegative(p[..j]);
        assert Masked(p, topP, j);
      }
    }
  }

  // ----- the greedy choice -----

  lemma {:induction false} MaxOfMasked(v: seq<Logit>, r: seq<Logit>, i: int)
    requires KeepsAMax(v, r) && IsMax(r, i)
    ensures IsMax(v, i) && r[i] == v[i]
  {
    var k :| IsMax(v, k) && r[k] == v[k];
    assert Leq(r[k], r[i]);
  }

  lemma {:induction false} KeepsCompose(v: seq<Logit>, r: seq<Logit>, t: seq<Logit>)
    requires KeepsAMax(v, r) && KeepsAMax(r, t)
    ensures KeepsAMax(v, t)
  {
    var i :| IsMax(r, i) && t[i] == r[i];
    MaxOfMasked(v, r, i);
  }

  lemma {:induction false} SomeMax(v: seq<Logit>)
    requires HasFinite(v)
    ensures exists i :: IsMax(v, i)
  {
    SortIsSort(v);
    var order := SortIndices(v, |v|);
    var i :| 0 <= i < |v| && v[i].Fin?;
    FirstIsMax(v, order, i);
    assert IsMax(v, order[0]);
  }

  ghost function Prefix(order: seq<nat>, n: nat): set<nat>
    requires n <= |order|
  {
    set j | 0 <= j < n :: order[j]
  }

  lemma {:induction false} PrefixSize(order: seq<nat>, n: nat)
    requires n <= |order| && NoDup(order)
    ensures |Prefix(order, n)| == n
  {
    if n > 0 {
      PrefixSize(order, n - 1);
      assert Prefix(order, n) == Prefix(order, n - 1) + {order[n - 1]};
    }
  }

  lemma {:induction false} Within(small: set<nat>, large: set<nat>)
    requires small <= large
    ensures |small| <= |large|
  {
    assert large == small + (large - small);
  }

  /** The tokens with a strictly larger logit than token i. */
  ghost function Above(v: seq<Logit>, i: nat): set<nat>
    requires i < |v|
  {
    set j: nat | j < |v| && !Leq(v[j], v[i])
  }

  /** The top-k filter keeps exactly the tokens that fewer than k others beat, ties with the k-th included. */
  lemma {:induction false} TopKMeaning(v: seq<Logit>, k: int, i: nat)
    requires i < |v|
    ensures TopK(v, k)[i] == if 0 < k < |v| ==> |Above(v, i)| < k then v[i] else NegInf
  {
    if 0 < k < |v| {
      SortIsSort(v);
      var order := SortIndices(v, |v|);
      var threshold := v[order[k - 1]];
      PrefixSize(order, k);
      PrefixSize(order, k - 1);
      if Leq(threshold, v[i]) {
        forall j | j in Above(v, i) ensures j in Prefix(order, k - 1) {
          assert j in order;
          var m :| 0 <= m < |order| && order[m] == j;
          assert m < k - 1;
        }
        Within(Above(v, i), Prefix(order, k - 1));
      } else {
        forall j | j in Prefix(order, k) ensures j in Above(v, i) {
          var m :| 0 <= m < k && order[m] == j;
          assert Leq(threshold, v[order[m]]);
        }
        Within(Prefix(order, k), Above(v, i));
      }
    }
  }

  lemma {:induction false} TopKKeeps(v: seq<Logit>, k: int)
    requires HasFinite(v)
    ensures KeepsAMax(v, TopK(v, k))
  {
    SomeMax(v);
    var i :| IsMax(v, i);
    assert TopK(v, k)[i] == v[i];
  }

  lemma {:induction false} ArgmaxSpec(p: seq<real>)
    requires p != []
    ensures forall j | 0 <= j < |p| :: p[j] <= p[Argmax(p)]
    ensures forall j | 0 <= j < Argmax(p) :: p[j] < p[Argmax(p)]
  {
    if |p| > 1 {
      var init := Init(p);
      assert forall j | 0 <= j < |init| :: init[j] == p[j];
      ArgmaxSpec(init);
    }
  }

  lemma {:induction false} MostProbableIsMax(exp: real -> real, r: seq<Logit>, k: int, token: nat)
    requires IsExp(exp) && 0 <= k < |r| && r[k].Fin? && token < |r|
    requires forall j | 0 <= j < |r| :: Probs(exp, r)[j] <= Probs(exp, r)[token]
    ensures IsMax(r, token)
  {
    ProbsSpec(exp, r);
    assert Probs(exp, r)[k] <= Probs(exp, r)[token];
  }

  lemma {:induction false} FilteredKeeps(exp: real -> real, logits: seq<real>, temperature: real, topK: int, topP: real)
    requires IsExp(exp) && logits != [] && topP > 0.0
    ensures var v := Scale(logits, Clamp(temperature));
      (forall j | 0 <= j < |v| :: v[j].Fin?) && KeepsAMax(v, Filtered(exp, logits, temperature, topK, topP))
  {
    hide TopK, TopP, SortIndices;
    var v := Scale(logits, Clamp(temperature));
    assert v[0].Fin?;
    var scaled := TopK(v, topK);
    TopKKeeps(v, topK);
    var i :| IsMax(v, i) && scaled[i] == v[i];
    assert scaled[i].Fin?;
    SortIsSort(scaled);
    TopPKeeps(exp, scaled, SortIndices(scaled, |scaled|), topP);
    KeepsCompose(v, scaled, Filtered(exp, logits, temperature, topK, topP));
  }

  /** For any top-k and any positive top-p, the greedy token is one of the largest raw logits. */
  lemma {:induction false} GreedyIsMaximiser(exp: real -> real, logits: seq<real>, temperature: real, topK: int,
                                             topP: real)
    requires IsExp(exp) && logits != [] && topP > 0.0
    ensures var token := Argmax(Probs(exp, Filtered(exp, logits, temperature, topK, topP)));
      token < |logits| && forall j | 0 <= j < |logits| :: logits[j] <= logits[token]
  {
    hide TopK, TopP, SortIndices, Probs, Scale;
    FilteredKeeps(exp, logits, temperature, topK, topP);
    var t := Clamp(temperature);
    var v := Scale(logits, t);
    var r := Filtered(exp, logits, temperature, topK, topP);
    var k :| IsMax(v, k) && r[k] == v[k];
    ProbsSpec(exp, r);
    var p := Probs(exp, r);
    var token := Argmax(p);
    ArgmaxSpec(p);
    MostProbableIsMax(exp, r, k, token);
    MaxOfMasked(v, r, token);
    forall j | 0 <= j < |logits| ensures logits[j] <= logits[token] {
      assert Leq(v[j], v[token]);
      Quotients(logits[j], logits[token], t);
    }
  }
}
