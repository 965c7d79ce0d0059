/** The distribution a token is drawn from, in terms of the raw logits: temperature, top-k and top-p together. */
module SamplingMeaning {
  import opened Prelude
  import opened Sampling
  import opened SamplingTheorems

  /** The tokens whose raw logit is strictly larger than that of token i. */
  ghost function Beaters(logits: seq<real>, i: nat): set<nat>
    requires i < |logits|
  {
    set j: nat | j < |logits| && logits[j] > logits[i]
  }

  /** The tokens that fewer than topK others beat; all of them when topK is not positive or not below the size. */
  ghost function TopTokens(logits: seq<real>, topK: int): set<nat> {
    set i: nat | i < |logits| && (0 < topK < |logits| ==> |Beaters(logits, i)| < topK)
  }

  /** exp(logit / t) for the tokens of a set, zero for the others. */
  ghost function SetWeights(exp: real -> real, logits: seq<real>, t: real, kept: set<nat>): (w: seq<real>)
    requires t > 0.0
    ensures |w| == |logits|
    ensures forall i | 0 <= i < |w| :: w[i] == if i in kept then exp(logits[i] / t) else 0.0
  {
    seq(|logits|, i requires 0 <= i < |logits| => if i in kept then exp(logits[i] / t) else 0.0)
  }

  /** All tokens, those of `top` first and by descending logit. */
  ghost predicate Ranking(logits: seq<real>, top: set<nat>, order: seq<nat>) {
    && |order| == |logits| && NoDup(order) && (forall i: nat :: i in order <==> i < |logits|)
    && (forall j, k | 0 <= j < k < |order| ::
          (order[k] in top ==> order[j] in top && order[k] < |logits| && order[j] < |logits|
                               && logits[order[k]] <= logits[order[j]]))
  }

  ghost function Ranked(w: seq<real>, order: seq<nat>): (r: seq<real>)
    requires forall j | 0 <= j < |order| :: order[j] < |w|
    ensures |r| == |order| && forall j | 0 <= j < |order| :: r[j] == w[order[j]]
  {
    seq(|order|, j requires 0 <= j < |order| => w[order[j]])
  }

  /** The first m of a ranking of `top`, for the least m whose weight reaches the share topP of the total. */
  ghost predicate Nucleus(exp: real -> real, logits: seq<real>, t: real, top: set<nat>, topP: real, order: seq<nat>,
                          m: nat)
    requires t > 0.0
  {
    && Ranking(logits, top, order) && 1 <= m <= |order|
    && var w := SetWeights(exp, logits, t, top);
       assert forall j | 0 <= j < |order| :: order[j] in order;
       var r := Ranked(w, order);
       Sum(r[..m]) >= topP * Sum(r) && forall k | 0 <= k < m :: Sum(r[..k]) < topP * Sum(r)
  }

  ghost function FirstOf(order: seq<nat>, m: nat): set<nat>
    requires m <= |order|
  {
    set j | 0 <= j < m :: order[j]
  }

  /** The tokens that may be chosen. */
  ghost predicate Survivors(exp: real -> real, logits: seq<real>, t: real, topK: int, topP: real, kept: set<nat>)
    requires t > 0.0
  {
    var top := TopTokens(logits, topK);
    if topP >= 1.0 then kept == top
    else kept <= top && exists order, m :: Nucleus(exp, logits, t, top, topP, order, m) && kept == FirstOf(order, m)
  }

  /** The softmax of logits / t over the tokens of `kept`. */
  ghost predicate SoftmaxOver(exp: real -> real, logits: seq<real>, t: real, kept: set<nat>, p: seq<real>)
    requires t > 0.0
  {
    var w := SetWeights(exp, logits, t, kept);
    Sum(w) > 0.0 && |p| == |logits| && forall i | 0 <= i < |p| :: p[i] == w[i] / Sum(w)
  }

  /** What a token is drawn from. */
  ghost predicate Distribution(exp: real -> real, logits: seq<real>, temperature: real, topK: int, topP: real,
                               p: seq<real>)
  {
    var t := if temperature > 0.0000001 then temperature else 0.0000001;
    exists kept :: Survivors(exp, logits, t, topK, topP, kept) && SoftmaxOver(exp, logits, t, kept, p)
  }

  // ----- after temperature and top-k -----

  /** The tokens of a set keep their logit over the temperature, the others are masked. */
  ghost predicate MaskedTo(logits: seq<real>, t: real, kept: set<nat>, v: seq<Logit>)
    requires t > 0.0
  {
    |v| == |logits| && forall i | 0 <= i < |v| :: v[i] == if i in kept then Fin(logits[i] / t) else NegInf
  }

  lemma {:induction false} SameBeaters(logits: seq<real>, t: real, i: nat)
    requires t > 0.0 && i < |logits|
    ensures Above(Scale(logits, t), i) == Beaters(logits, i)
  {
    forall j: nat | j < |logits| ensures !Leq(Scale(logits, t)[j], Scale(logits, t)[i]) <==> logits[j] > logits[i] {
      Quotients(logits[j], logits[i], t);
    }
  }

  lemma {:induction false} TopKKeepsTop(logits: seq<real>, t: real, topK: int)
    requires t > 0.0
    ensures MaskedTo(logits, t, TopTokens(logits, topK), TopK(Scale(logits, t), topK))
  {
    hide TopK;
    var v := Scale(logits, t);
    forall i | 0 <= i < |v|
      ensures TopK(v, topK)[i] == if i in TopTokens(logits, topK) then Fin(logits[i] / t) else NegInf
    {
      TopKMeaning(v, topK, i);
      SameBeaters(logits, t, i);
    }
  }

  lemma {:induction false} LargestAt(logits: seq<real>, n: nat) returns (i: nat)
    requires 0 < n <= |logits|
    ensures i < n && forall j | 0 <= j < n :: logits[j] <= logits[i]
  {
    if n == 1 {
      i := 0;
    } else {
      i := LargestAt(logits, n - 1);
      if logits[i] < logits[n - 1] {
        i := n - 1;
      }
    }
  }

  /** The largest logit is always among the top tokens. */
  lemma {:induction false} TopIsNotEmpty(logits: seq<real>, topK: int) returns (i: nat)
    requires logits != []
    ensures i < |logits| && i in TopTokens(logits, topK)
  {
    i := LargestAt(logits, |logits|);
    assert Beaters(logits, i) == {};
  }

  // ----- the softmax of a masked row -----

  lemma {:induction false} MaskedWeights(exp: real -> real, logits: seq<real>, t: real, kept: set<nat>, v: seq<Logit>)
    requires t > 0.0 && MaskedTo(logits, t, kept, v)
    ensures Weights(exp, v) == SetWeights(exp, logits, t, kept)
  {
  }

  lemma {:induction false} MaskedSoftmax(exp: real -> real, logits: seq<real>, t: real, kept: set<nat>, v: seq<Logit>)
    requires IsExp(exp) && t > 0.0 && MaskedTo(logits, t, kept, v) && HasFinite(v)
    ensures SoftmaxOver(exp, logits, t, kept, Probs(exp, v))
  {
    MaskedWeights(exp, logits, t, kept, v);
    TotalPositive(exp, v);
  }

  // ----- after top-p -----

  lemma {:induction false} SortRanks(logits: seq<real>, t: real, top: set<nat>, v: seq<Logit>, order: seq<nat>)
    requires t > 0.0 && MaskedTo(logits, t, top, v) && IsSort(order, v)
    ensures Ranking(logits, top, order)
  {
    forall j, k | 0 <= j < k < |order| && order[k] in top
      ensures order[j] in top && logits[order[k]] <= logits[order[j]]
    {
      assert Leq(v[order[k]], v[order[j]]);
      Quotients(logits[order[k]], logits[order[j]], t);
    }
    forall i: nat ensures i in order <==> i < |logits| {
      if i in order {
        var j :| 0 <= j < |order| && order[j] == i;
      }
    }
  }

  lemma {:induction false} SumTailZero(s: seq<real>, j: nat)
    requires j <= |s| && forall k | j <= k < |s| :: s[k] == 0.0
    ensures Sum(s[..j]) == Sum(s)
    decreases |s| - j
  {
    if j == |s| {
      assert s[..j] == s;
    } else {
      SumTailZero(s, j + 1);
      SumPrefix(s, j);
    }
  }

  lemma {:induction false} ShareOfTotal(x: real, total: real, topP: real)
    requires total > 0.0
    ensures x / total >= topP <==> x >= topP * total
  {
    var q := x / total;
    assert q * total == x;
    assert q >= topP ==> q * total >= topP * total;
    assert q < topP ==> q * total < topP * total;
  }

  lemma {:induction false} PrefixShare(p: seq<real>, w: seq<real>, total: real, k: nat)
    requires total > 0.0 && k <= |w| == |p| && forall i | 0 <= i < |w| :: p[i] == w[i] / total
    ensures Sum(p[..k]) == Sum(w[..k]) / total
  {
    SumDivided(p[..k], w[..k], total);
  }

  /** The sorted weights, and the probabilities the filter sums up, are the same up to their total. */
  lemma {:induction false} SortedShares(exp: real -> real, logits: seq<real>, t: real, top: set<nat>, v: seq<Logit>,
                                        order: seq<nat>)
    requires IsExp(exp) && t > 0.0 && MaskedTo(logits, t, top, v) && HasFinite(v) && IsSort(order, v)
    ensures var p, r := Probs(exp, Permute(v, order)), Ranked(SetWeights(exp, logits, t, top), order);
      |p| == |r| && Sum(r) > 0.0 && forall i | 0 <= i < |p| :: p[i] == r[i] / Sum(r)
  {
    hide Sum;
    var sorted := Permute(v, order);
    SortedHasFinite(v, order);
    TotalPositive(exp, sorted);
    assert Weights(exp, sorted) == Ranked(SetWeights(exp, logits, t, top), order);
  }

  lemma {:induction false} PrefixReaches(p: seq<real>, w: seq<real>, topP: real, k: nat)
    requires Sum(w) > 0.0 && k <= |w| == |p| && forall i | 0 <= i < |w| :: p[i] == w[i] / Sum(w)
    ensures Sum(p[..k]) >= topP <==> Sum(w[..k]) >= topP * Sum(w)
  {
    hide Sum;
    PrefixShare(p, w, Sum(w), k);
    ShareOfTotal(Sum(w[..k]), Sum(w), topP);
  }

  lemma {:induction false} AllIsEnough(mass: real, topP: real, total: real)
    requires topP < 1.0 && mass == total > 0.0
    ensures mass >= topP * total
  {
    var rest := 1.0 - topP;
    assert rest * total > 0.0;
    assert topP * total + rest * total == total;
  }

  /** A run that stops as soon as it reaches its share stops before the zeros at the end. */
  lemma {:induction false} StopsInTop(w: seq<real>, order: seq<nat>, top: set<nat>, topP: real, m: nat)
    requires m <= |w| == |order| && topP < 1.0 && Sum(w) > 0.0
    requires forall j, k | 0 <= j < k < |order| && order[k] in top :: order[j] in top
    requires forall k | 0 <= k < |order| && order[k] !in top :: w[k] == 0.0
    requires forall k | 0 <= k < m :: Sum(w[..k]) < topP * Sum(w)
    ensures FirstOf(order, m) <= top
  {
    forall j | 0 <= j < m ensures order[j] in top {
      if order[j] !in top {
        assert forall k | j <= k < |order| :: order[k] !in top;
        SumTailZero(w, j);
        AllIsEnough(Sum(w[..j]), topP, Sum(w));
      }
    }
  }

  /** The prefix that the sorted filter keeps is a nucleus of the top tokens, and lies within them. */
  lemma {:induction false} PrefixIsNucleus(exp: real -> real, logits: seq<real>, t: real, top: set<nat>, topP: real,
                                           v: seq<Logit>, order: seq<nat>, m: nat)
    requires IsExp(exp) && t > 0.0 && MaskedTo(logits, t, top, v) && HasFinite(v) && IsSort(order, v) && topP < 1.0
    requires var p := Probs(exp, Permute(v, order));
      1 <= m <= |p| && Sum(p[..m]) >= topP && forall k | 0 <= k < m :: Sum(p[..k]) < topP
    ensures Nucleus(exp, logits, t, top, topP, order, m) && FirstOf(order, m) <= top
  {
    hide Sum, Probs;
    SortRanks(logits, t, top, v, order);
    SortedShares(exp, logits, t, top, v, order);
    var p, r := Probs(exp, Permute(v, order)), Ranked(SetWeights(exp, logits, t, top), order);
    PrefixReaches(p, r, topP, m);
    forall k | 0 <= k < m ensures Sum(r[..k]) < topP * Sum(r) {
      PrefixReaches(p, r, topP, k);
    }
    StopsInTop(r, order, top, topP, m);
  }

  lemma {:induction false} TopPKeepsFirst(exp: real -> real, logits: seq<real>, t: real, top: set<nat>, topP: real,
                                          v: seq<Logit>)
    returns (kept: set<nat>)
    requires IsExp(exp) && t > 0.0 && MaskedTo(logits, t, top, v) && HasFinite(v) && 0.0 < topP < 1.0
    ensures kept <= top && exists order, m :: Nucleus(exp, logits, t, top, topP, order, m) && kept == FirstOf(order, m)
    ensures MaskedTo(logits, t, kept, TopP(exp, v, SortIndices(v, |v|), topP))
    ensures HasFinite(TopP(exp, v, SortIndices(v, |v|), topP))
  {
    hide Sum, TopP, SortIndices, Probs, Ranking, Nucleus;
    SortIsSort(v);
    var order := SortIndices(v, |v|);
    NucleusMeaning(exp, v, order, topP);
    NucleusLeavesSomething(exp, v, order, topP);
    var p := Probs(exp, Permute(v, order));
    var m := Needed(p, topP, |p|);
    PrefixIsNucleus(exp, logits, t, top, topP, v, order, m);
    kept := FirstOf(order, m);
    assert Nucleus(exp, logits, t, top, topP, order, m);
    var r := TopP(exp, v, order, topP);
    forall i | 0 <= i < |r| ensures r[i] == if i in kept then Fin(logits[i] / t) else NegInf {
      assert i in order;
      var j :| 0 <= j < |order| && order[j] == i;
      assert j < m <==> i in kept;
    }
  }

  // ----- the whole pipeline -----

  /** Temperature, top-k and top-p together, on the raw logits. What may be chosen: the tokens that fewer than
      topK others beat and, below topP = 1, of those the shortest run of the most likely ones whose weight
      reaches the share topP. They keep the logit divided by the temperature, with 1e-7 as its least value,
      and the rest is masked; the probabilities are their softmax. */
  lemma {:induction false} DistributionMeaning(exp: real -> real, logits: seq<real>, temperature: real, topK: int,
                                               topP: real)
    returns (kept: set<nat>)
    requires IsExp(exp) && logits != [] && topP > 0.0
    ensures var t := if temperature > 0.0000001 then temperature else 0.0000001;
      var v := Filtered(exp, logits, temperature, topK, topP);
      && Survivors(exp, logits, t, topK, topP, kept)
      && (forall i | 0 <= i < |logits| :: v[i] == if i in kept then Fin(logits[i] / t) else NegInf)
      && SoftmaxOver(exp, logits, t, kept, Probs(exp, v))
    ensures var v := Filtered(exp, logits, temperature, topK, topP);
      Distribution(exp, logits, temperature, topK, topP, Probs(exp, v))
  {
    hide Nucleus, SoftmaxOver, TopK, TopTokens, SortIndices, Probs;
    var t := Clamp(temperature);
    var top := TopTokens(logits, topK);
    var v := TopK(Scale(logits, t), topK);
    TopKKeepsTop(logits, t, topK);
    var i := TopIsNotEmpty(logits, topK);
    assert v[i].Fin?;
    if topP < 1.0 {
      kept := TopPKeepsFirst(exp, logits, t, top, topP, v);
    } else {
      kept := top;
    }
    MaskedSoftmax(exp, logits, t, kept, Filtered(exp, logits, temperature, topK, topP));
  }

  /** Which tokens have a chance at all. */
  lemma {:induction false} PositiveIffKept(exp: real -> real, logits: seq<real>, t: real, kept: set<nat>, p: seq<real>)
    requires IsExp(exp) && t > 0.0 && SoftmaxOver(exp, logits, t, kept, p)
    ensures forall i | 0 <= i < |p| :: (p[i] > 0.0 <==> i in kept) && (p[i] == 0.0 <==> i !in kept)
  {
    var w := SetWeights(exp, logits, t, kept);
    forall i | 0 <= i < |p| ensures (p[i] > 0.0 <==> i in kept) && (p[i] == 0.0 <==> i !in kept) {
      Quotients(w[i], 0.0, Sum(w));
      Quotients(0.0, w[i], Sum(w));
    }
  }

  /** A token beaten by topK others is never chosen; without a nucleus exactly the other tokens can be. */
  lemma {:induction false} TopKCutsOff(exp: real -> real, logits: seq<real>, temperature: real, topK: int, topP: real,
                                       i: nat)
    requires IsExp(exp) && i < |logits| && topP > 0.0 && 0 < topK < |logits|
    ensures var p := Probs(exp, Filtered(exp, logits, temperature, topK, topP));
      && (|Beaters(logits, i)| >= topK ==> p[i] == 0.0)
      && (topP >= 1.0 ==> (p[i] > 0.0 <==> |Beaters(logits, i)| < topK))
  {
    hide Filtered, Probs, Nucleus, SoftmaxOver;
    var t := if temperature > 0.0000001 then temperature else 0.0000001;
    var kept := DistributionMeaning(exp, logits, temperature, topK, topP);
    PositiveIffKept(exp, logits, t, kept, Probs(exp, Filtered(exp, logits, temperature, topK, topP)));
  }

  /** Without a positive topP every logit is masked. */
  lemma {:induction false} NothingWithoutTopP(exp: real -> real, logits: seq<real>, temperature: real, topK: int,
                                              topP: real)
    requires IsExp(exp) && logits != [] && topP <= 0.0
    ensures forall i | 0 <= i < |logits| :: Filtered(exp, logits, temperature, topK, topP)[i] == NegInf
  {
    hide TopK, TopP, SortIndices, TopTokens;
    var v := TopK(Scale(logits, Clamp(temperature)), topK);
    TopKKeepsTop(logits, Clamp(temperature), topK);
    var i := TopIsNotEmpty(logits, topK);
    assert v[i].Fin?;
    SortIsSort(v);
    NucleusLeavesSomething(exp, v, SortIndices(v, |v|), topP);
    var r := Filtered(exp, logits, temperature, topK, topP);
    assert !HasFinite(r);
    forall j | 0 <= j < |r| ensures r[j] == NegInf {
    }
  }
}
