/** Turning the logits of one position into a token: temperature, top-k, top-p, and the final choice. */
module Sampling {
  import opened Prelude

  type Token = nat

  /** A logit, or the minus infinity that masking writes. */
  datatype Logit = NegInf | Fin(value: real)

  predicate Leq(a: Logit, b: Logit) {
    a.NegInf? || (b.Fin? && a.value <= b.value)
  }

  // ----- sorting indices by descending logit -----

  predicate Before(v: seq<Logit>, i: nat, j: nat)
    requires i < |v| && j < |v|
  {
    Leq(v[j], v[i])
  }

  function InsertIndex(v: seq<Logit>, order: seq<nat>, i: nat): (r: seq<nat>)
    requires i < |v| && forall j | 0 <= j < |order| :: order[j] < |v|
    ensures |r| == |order| + 1 && forall j | 0 <= j < |r| :: r[j] < |v|
  {
    if order == [] || Before(v, Last(order), i) then order + [i]
    else InsertIndex(v, Init(order), i) + [Last(order)]
  }

  /** The indices 0, ..., n-1 by descending logit. */
  function SortIndices(v: seq<Logit>, n: nat): (r: seq<nat>)
    requires n <= |v|
    ensures |r| == n && forall j | 0 <= j < |r| :: r[j] < |v|
  {
    if n == 0 then [] else InsertIndex(v, SortIndices(v, n - 1), n - 1)
  }

  /** A sort of v: every index once, logits descending. Ties may stand in any order. */
  ghost predicate IsSort(order: seq<nat>, v: seq<Logit>) {
    && |order| == |v| && (forall j | 0 <= j < |order| :: order[j] < |v|)
    && NoDup(order) && (forall i | 0 <= i < |v| :: i in order)
    && (forall j, k | 0 <= j < k < |order| :: Leq(v[order[k]], v[order[j]]))
  }

  // ----- filters -----

  function Mask(v: seq<Logit>, keep: seq<bool>): (r: seq<Logit>)
    requires |keep| == |v|
    ensures |r| == |v| && forall i | 0 <= i < |v| :: r[i] == if keep[i] then v[i] else NegInf
  {
    seq(|v|, i requires 0 <= i < |v| => if keep[i] then v[i] else NegInf)
  }

  /** Keep the logits that reach the k-th largest one. */
  function TopK(v: seq<Logit>, k: int): (r: seq<Logit>)
    ensures |r| == |v|
  {
    if 0 < k < |v| then
      var threshold := v[SortIndices(v, |v|)[k - 1]];
      Mask(v, seq(|v|, i requires 0 <= i < |v| => Leq(threshold, v[i])))
    else v
  }

  function Weight(exp: real -> real, l: Logit): real {
    if l.NegInf? then 0.0 else exp(l.value)
  }

  function Sum(s: seq<real>): real {
    if s == [] then 0.0 else Sum(Init(s)) + Last(s)
  }

  function Weights(exp: real -> real, v: seq<Logit>): (w: seq<real>)
    ensures |w| == |v| && forall i | 0 <= i < |v| :: w[i] == Weight(exp, v[i])
  {
    seq(|v|, i requires 0 <= i < |v| => Weight(exp, v[i]))
  }

  /** The softmax. With every logit masked the code gets NaN; here it is all zeros. */
  function Probs(exp: real -> real, v: seq<Logit>): (p: seq<real>)
    ensures |p| == |v|
  {
    var total := Sum(Weights(exp, v));
    if total == 0.0 then Weights(exp, v)
    else seq(|v|, i requires 0 <= i < |v| => Weight(exp, v[i]) / total)
  }

  function Permute(v: seq<Logit>, order: seq<nat>): (r: seq<Logit>)
    requires forall j | 0 <= j < |order| :: order[j] < |v|
    ensures |r| == |order| && forall j | 0 <= j < |order| :: r[j] == v[order[j]]
  {
    seq(|order|, j requires 0 <= j < |order| => v[order[j]])
  }

  /** The mask of the code: the probability mass strictly before position j already reaches topP. */
  predicate Masked(probs: seq<real>, topP: real, j: nat)
    requires j < |probs|
  {
    Sum(probs[..j + 1]) - probs[j] >= topP
  }

  /** Write sorted values back to the indices they came from, one at a time. */
  function Scatter(into: seq<Logit>, order: seq<nat>, values: seq<Logit>): (r: seq<Logit>)
    requires |order| == |values| && forall j | 0 <= j < |order| :: order[j] < |into|
    ensures |r| == |into|
  {
    if order == [] then into
    else Scatter(into, Init(order), Init(values))[Last(order) := Last(values)]
  }

  function Zeros(n: nat): (z: seq<Logit>)
    ensures |z| == n
  {
    seq(n, i => Fin(0.0))
  }

  function KeptPositions(probs: seq<real>, topP: real): (keep: seq<bool>)
    ensures |keep| == |probs| && forall j | 0 <= j < |probs| :: keep[j] == !Masked(probs, topP, j)
  {
    seq(|probs|, j requires 0 <= j < |probs| => !Masked(probs, topP, j))
  }

  /** Nucleus filter: sort, mask the tail past mass topP, scatter back. */
  function TopP(exp: real -> real, v: seq<Logit>, order: seq<nat>, topP: real): (r: seq<Logit>)
    requires forall j | 0 <= j < |order| :: order[j] < |v|
    ensures |r| == |v|
  {
    if topP < 1.0 then
      var sorted := Permute(v, order);
      Scatter(Zeros(|v|), order, Mask(sorted, KeptPositions(Probs(exp, sorted), topP)))
    else v
  }

  const MIN_TEMPERATURE: real := 0.0000001
  const GREEDY_BELOW: real := 0.01

  function Clamp(temperature: real): (t: real)
    ensures t > 0.0
  {
    if temperature < MIN_TEMPERATURE then MIN_TEMPERATURE else temperature
  }

  function Scale(logits: seq<real>, temperature: real): (v: seq<Logit>)
    requires temperature > 0.0
    ensures |v| == |logits| && forall i | 0 <= i < |v| :: v[i] == Fin(logits[i] / temperature)
  {
    seq(|logits|, i requires 0 <= i < |logits| => Fin(logits[i] / temperature))
  }

  /** First index of a largest element. */
  function Argmax(p: seq<real>): (i: nat)
    ensures p != [] ==> i < |p|
  {
    if |p| <= 1 then 0 else
      var best := Argmax(Init(p));
      if p[best] < Last(p) then |p| - 1 else best
  }

  /** The distribution the token is chosen from. */
  function Filtered(exp: real -> real, logits: seq<real>, temperature: real, topK: int, topP: real): (v: seq<Logit>)
    ensures |v| == |logits|
  {
    var scaled := TopK(Scale(logits, Clamp(temperature)), topK);
    TopP(exp, scaled, SortIndices(scaled, |scaled|), topP)
  }

  predicate IsGreedy(temperature: real) {
    Clamp(temperature) < GREEDY_BELOW
  }
}
