/** The sampling filters as the code runs them: masks written in place on a row of logits. */
module TokenSampler {
  import opened Prelude
  import opened Sampling

  /** A fresh row of logits divided by the temperature. */
  method ScaledLogits(logits: seq<real>, temperature: real) returns (scaled: array<Logit>)
    requires temperature > 0.0
    ensures fresh(scaled) && scaled[..] == Scale(logits, temperature)
  {
    scaled := new Logit[|logits|](i requires 0 <= i < |logits| => Fin(logits[i] / temperature));
  }

  /** Mask every logit below the k-th largest. */
  method ApplyTopK(scaled: array<Logit>, k: int)
    modifies scaled
    ensures scaled[..] == TopK(old(scaled[..]), k)
  {
    if 0 < k < scaled.Length {
      ghost var v := scaled[..];
      var order := SortIndices(scaled[..], scaled.Length);
      var threshold := scaled[order[k - 1]];
      for i := 0 to scaled.Length
        invariant forall j | 0 <= j < i :: scaled[j] == if Leq(threshold, v[j]) then v[j] else NegInf
        invariant forall j | i <= j < scaled.Length :: scaled[j] == v[j]
      {
        if !Leq(threshold, scaled[i]) {
          scaled[i] := NegInf;
        }
      }
    }
  }

  /** Mask a descending row from the position where the mass before it reaches topP, keeping a running sum. */
  method MaskTail(sorted: array<Logit>, probs: seq<real>, topP: real)
    requires |probs| == sorted.Length
    modifies sorted
    ensures sorted[..] == Mask(old(sorted[..]), KeptPositions(probs, topP))
  {
    ghost var v := sorted[..];
    var cumulative := 0.0;
    assert probs[..0] == [];
    for j := 0 to sorted.Length
      invariant cumulative == Sum(probs[..j])
      invariant forall i | 0 <= i < j :: sorted[i] == if Masked(probs, topP, i) then NegInf else v[i]
      invariant forall i | j <= i < sorted.Length :: sorted[i] == v[i]
    {
      assert Init(probs[..j + 1]) == probs[..j];
      cumulative := cumulative + probs[j];
      if cumulative - probs[j] >= topP {
        sorted[j] := NegInf;
      }
    }
  }

  /** Write the sorted row back to the indices it came from, over a row of zeros. */
  method ScatterInto(row: array<Logit>, order: seq<nat>, values: seq<Logit>)
    requires |order| == |values| && forall j | 0 <= j < |order| :: order[j] < row.Length
    modifies row
    ensures row[..] == Scatter(Zeros(row.Length), order, values)
  {
    for i := 0 to row.Length
      invariant forall j | 0 <= j < i :: row[j] == Fin(0.0)
    {
      row[i] := Fin(0.0);
    }
    assert row[..] == Zeros(row.Length);
    for j := 0 to |order|
      invariant row[..] == Scatter(Zeros(row.Length), order[..j], values[..j])
    {
      assert Init(order[..j + 1]) == order[..j] && Init(values[..j + 1]) == values[..j];
      row[order[j]] := values[j];
    }
    assert order[..|order|] == order && values[..|order|] == values;
  }

  /** Nucleus filtering of a row. */
  method ApplyTopP(exp: real -> real, scaled: array<Logit>, topP: real)
    modifies scaled
    ensures scaled[..] == TopP(exp, old(scaled[..]), SortIndices(old(scaled[..]), scaled.Length), topP)
  {
    if topP < 1.0 {
      ghost var v := scaled[..];
      var order := SortIndices(scaled[..], scaled.Length);
      var sorted := new Logit[scaled.Length](j requires 0 <= j < |order|
        && order[j] < scaled.Length reads scaled => scaled[order[j]]);
      assert sorted[..] == Permute(v, order);
      MaskTail(sorted, Probs(exp, sorted[..]), topP);
      ScatterInto(scaled, order, sorted[..]);
    }
  }

  /** The distribution of the next token, filtered in place step by step. */
  method NextDistribution(exp: real -> real, logits: seq<real>, temperature: real, topK: int, topP: real)
    returns (probs: seq<real>)
    ensures probs == Probs(exp, Filtered(exp, logits, temperature, topK, topP))
  {
    var scaled := ScaledLogits(logits, Clamp(temperature));
    ApplyTopK(scaled, topK);
    ghost var afterTopK := scaled[..];
    ApplyTopP(exp, scaled, topP);
    assert scaled[..] == Filtered(exp, logits, temperature, topK, topP);
    probs := Probs(exp, scaled[..]);
  }

  /** Index of a largest probability, the first one on ties. */
  method ArgmaxOf(probs: seq<real>) returns (best: nat)
    ensures best == Argmax(probs)
  {
    best := 0;
    if probs == [] {
      return;
    }
    for i := 1 to |probs|
      invariant best == Argmax(probs[..i])
    {
      assert Init(probs[..i + 1]) == probs[..i];
      if probs[best] < probs[i] {
        best := i;
      }
    }
    assert probs[..|probs|] == probs;
  }
}
