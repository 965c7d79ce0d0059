/** The model and tokenizer as opaque functions, and decoding one prompt alone. */
module Decoding {
  import opened Prelude
  import opened Sampling
  import opened SamplingMeaning
  import opened SamplingTheorems
  import opened SchedulerModel

  /** Code this repository calls and does not contain. `cached` is the model given past key-values, which
      are represented by the tokens they were computed from; `draw` is the n-th multinomial draw. */
  datatype Backend = Backend(
    encode: string -> seq<Token>,
    decode: (seq<Token>, bool) -> string,
    forward: seq<Token> -> seq<seq<real>>,
    cached: (seq<Token>, seq<Token>) -> seq<seq<real>>,
    exp: real -> real,
    draw: (nat, seq<real>) -> Token,
    eos: Option<Token>,
    pad: Option<Token>)

  function At(logits: seq<seq<real>>, p: int): seq<real> {
    if 0 <= p < |logits| then logits[p] else []
  }

  /** Causality: the logits at a position depend only on the tokens up to it. */
  ghost predicate Causal(b: Backend) {
    forall row: seq<Token>, p: nat | p < |row| ::
      At(b.forward(row), p) == At(b.forward(row[..p + 1]), p)
  }

  /** Running on new tokens with past key-values gives the logits of the whole row at the new positions. */
  ghost predicate CacheAgrees(b: Backend) {
    forall past: seq<Token>, input: seq<Token> | input != [] ::
      At(b.cached(past, input), |b.cached(past, input)| - 1) == At(b.forward(past + input), |past + input| - 1)
  }

  /** One logit vector per position. */
  ghost predicate PerPosition(b: Backend) {
    forall row: seq<Token> :: |b.forward(row)| == |row|
  }

  ghost predicate Tokenizes(b: Backend) {
    forall prompt :: b.encode(prompt) != []
  }

  /** The premises on foreign code that the decoding theorems use. */
  ghost predicate Sane(b: Backend) {
    Causal(b) && CacheAgrees(b) && PerPosition(b) && Tokenizes(b)
  }

  const MAX_PROMPT: nat := 1024

  /** Tokenization with truncation. */
  function Encode(b: Backend, prompt: string): (ids: seq<Token>)
    ensures |ids| <= MAX_PROMPT
  {
    var ids := b.encode(prompt);
    if |ids| <= MAX_PROMPT then ids else ids[..MAX_PROMPT]
  }

  /** The prompt is cut at 1024 tokens, and a shorter one is left as it is. */
  lemma {:induction false} EncodeIsTruncation(b: Backend, prompt: string)
    ensures Encode(b, prompt) <= b.encode(prompt) && |Encode(b, prompt)| == Min(|b.encode(prompt)|, 1024)
    ensures |b.encode(prompt)| <= 1024 ==> Encode(b, prompt) == b.encode(prompt)
  {
  }

  /** The engine's sampler: it tests the clamped temperature for greediness. */
  function Sample(b: Backend, p: Params, logits: seq<real>, drawIndex: nat): Token {
    var probs := Probs(b.exp, Filtered(b.exp, logits, p.temperature, p.topK, p.topP));
    if Clamp(p.temperature) < GREEDY_BELOW then Argmax(probs) else b.draw(drawIndex, probs)
  }

  predicate Greedy(p: Params) { IsGreedy(p.temperature) }

  /** Below temperature 0.01 the token is one of the largest logits; from there on it is the draw of that index
      from the distribution of those logits under the request's own parameters. */
  lemma {:induction false} SampleMeaning(b: Backend, p: Params, logits: seq<real>, drawIndex: nat)
    requires IsExp(b.exp) && logits != [] && p.topP > 0.0
    ensures Greedy(p) <==> p.temperature < 0.01
    ensures p.temperature < 0.01 ==>
      var token := Sample(b, p, logits, drawIndex);
      token < |logits| && forall j | 0 <= j < |logits| :: logits[j] <= logits[token]
    ensures p.temperature >= 0.01 ==>
      exists probs :: Distribution(b.exp, logits, p.temperature, p.topK, p.topP, probs)
                      && Sample(b, p, logits, drawIndex) == b.draw(drawIndex, probs)
  {
    hide Probs, Filtered, Argmax, Distribution, Survivors;
    GreedyIsMaximiser(b.exp, logits, p.temperature, p.topK, p.topP);
    var kept := DistributionMeaning(b.exp, logits, p.temperature, p.topK, p.topP);
  }

  /** What a greedy request generates next after the given tokens. */
  function NextToken(b: Backend, p: Params, ids: seq<Token>): Token {
    Sample(b, p, At(b.forward(ids), |ids| - 1), 0)
  }

  /** At least one token is generated before the length limit is looked at. */
  function Budget(p: Params): (n: nat)
    ensures n >= 1
  {
    if p.maxTokens < 1 then 1 else p.maxTokens
  }

  predicate IsEos(b: Backend, t: Token) { b.eos == Some(t) }

  // ----- what a sampled or greedy sequence may generate -----

  /** The logits at the last position of a row that stands alone. */
  function EndLogits(b: Backend, row: seq<Token>): seq<real> { At(b.forward(row), |row| - 1) }

  lemma {:induction false} EndLogitsAreLast(b: Backend, row: seq<Token>)
    requires PerPosition(b) && row != []
    ensures EndLogits(b, row) == b.forward(row)[|row| - 1]
  {
  }

  /** The token is a sample of the logits at the end of this row, under these parameters. */
  ghost predicate SampledAfter(b: Backend, p: Params, row: seq<Token>, t: Token) {
    exists drawIndex: nat :: t == Sample(b, p, EndLogits(b, row), drawIndex)
  }

  /** Each token is a sample of the prompt followed by the tokens before it, and of nothing else. */
  ghost predicate SampledFrom(b: Backend, p: Params, ids: seq<Token>, out: seq<Token>) {
    forall i | 0 <= i < |out| :: SampledAfter(b, p, ids + out[..i], out[i])
  }

  /** Generation has not met an EOS or the limit. */
  ghost predicate Open(b: Backend, p: Params, out: seq<Token>) {
    |out| < Max(p.maxTokens, 1) && forall i | 0 <= i < |out| :: b.eos != Some(out[i])
  }

  /** Generation has just met an EOS or the limit, for the first time. */
  ghost predicate Closed(b: Backend, p: Params, out: seq<Token>) {
    && 1 <= |out| <= Max(p.maxTokens, 1) && (forall i | 0 <= i < |out| - 1 :: b.eos != Some(out[i]))
    && (b.eos == Some(Last(out)) || |out| == Max(p.maxTokens, 1))
  }

  /** An output this request may end with. */
  ghost predicate Genuine(b: Backend, p: Params, out: seq<Token>) {
    SampledFrom(b, p, Encode(b, p.prompt), out) && Closed(b, p, out)
  }

  /** The first 1024 tokens. */
  ghost function Truncated(ids: seq<Token>): seq<Token> { ids[..Min(|ids|, 1024)] }

  lemma {:induction false} EncodedIsTruncated(b: Backend, prompt: string)
    ensures Encode(b, prompt) == Truncated(b.encode(prompt))
  {
  }

  lemma {:induction false} SampledSnoc(b: Backend, p: Params, ids: seq<Token>, out: seq<Token>, t: Token)
    requires SampledFrom(b, p, ids, out) && SampledAfter(b, p, ids + out, t)
    ensures SampledFrom(b, p, ids, out + [t])
  {
    hide SampledAfter;
    forall i | 0 <= i < |out + [t]| ensures SampledAfter(b, p, ids + (out + [t])[..i], (out + [t])[i]) {
      if i < |out| {
        assert (out + [t])[..i] == out[..i];
      } else {
        assert (out + [t])[..i] == out;
      }
    }
  }

  /** Greedy decoding of one sequence on its own: up to `left` tokens, stopping after an EOS. */
  function SoloFrom(b: Backend, p: Params, ids: seq<Token>, left: nat): (out: seq<Token>)
    ensures |out| <= left
    decreases left
  {
    if left == 0 then [] else
      var t := NextToken(b, p, ids);
      if IsEos(b, t) then [t] else [t] + SoloFrom(b, p, ids + [t], left - 1)
  }

  function Solo(b: Backend, p: Params): seq<Token> {
    SoloFrom(b, p, Encode(b, p.prompt), Budget(p))
  }

  /** The unbounded greedy continuation of a prompt, without any stopping rule. */
  function Continuation(b: Backend, p: Params, ids: seq<Token>, n: nat): (out: seq<Token>)
    ensures |out| == n
    decreases n
  {
    if n == 0 then [] else
      var before := Continuation(b, p, ids, n - 1);
      before + [NextToken(b, p, ids + before)]
  }

  lemma {:induction false} ContinuationFront(b: Backend, p: Params, ids: seq<Token>, n: nat)
    requires n > 0
    ensures var t := NextToken(b, p, ids);
      Continuation(b, p, ids, n) == [t] + Continuation(b, p, ids + [t], n - 1)
    decreases n
  {
    hide NextToken;
    var t := NextToken(b, p, ids);
    if n == 1 {
      assert ids + [] == ids;
      assert Continuation(b, p, ids, 0) == [];
    } else {
      ContinuationFront(b, p, ids, n - 1);
      var before := Continuation(b, p, ids + [t], n - 2);
      assert ids + ([t] + before) == ids + [t] + before;
    }
  }

  lemma {:induction false} NoContinuation(b: Backend, p: Params, ids: seq<Token>)
    ensures Continuation(b, p, ids, 0) == []
  {
  }

  /** Decoding alone is the unbounded continuation cut at the first EOS or at the limit, whichever is first. */
  lemma {:induction false} SoloIsCut(b: Backend, p: Params, ids: seq<Token>, left: nat)
    ensures var out := SoloFrom(b, p, ids, left);
      && out == Continuation(b, p, ids, |out|)
      && (forall i | 0 <= i < |out| - 1 :: !IsEos(b, out[i]))
      && (|out| < left ==> out != [] && IsEos(b, Last(out)))
      && (left > 0 ==> out != [])
    decreases left
  {
    hide NextToken, Continuation;
    if left == 0 {
      NoContinuation(b, p, ids);
    } else {
      var t := NextToken(b, p, ids);
      ContinuationFront(b, p, ids, |SoloFrom(b, p, ids, left)|);
      if IsEos(b, t) {
        NoContinuation(b, p, ids + [t]);
      } else {
        SoloIsCut(b, p, ids + [t], left - 1);
        var rest := SoloFrom(b, p, ids + [t], left - 1);
        var out := [t] + rest;
        assert forall i | 1 <= i < |out| :: out[i] == rest[i - 1];
      }
    }
  }

  /** Padding does not show: in a longer row the logits at the last real position are those of the row itself. */
  lemma {:induction false} PaddingInvisible(b: Backend, ids: seq<Token>, padding: seq<Token>)
    requires Causal(b) && ids != []
    ensures At(b.forward(ids + padding), |ids| - 1) == At(b.forward(ids), |ids| - 1)
  {
    var row := ids + padding;
    assert row[..|ids|] == ids;
    assert At(b.forward(row), |ids| - 1) == At(b.forward(row[..|ids| - 1 + 1]), |ids| - 1);
  }

  lemma {:induction false} EncodeNonEmpty(b: Backend, prompt: string)
    requires Tokenizes(b)
    ensures Encode(b, prompt) != []
  {
  }

  /** A greedy choice does not consult the random source. */
  lemma {:induction false} GreedyIgnoresDraw(b: Backend, p: Params, logits: seq<real>, k: nat)
    requires Greedy(p)
    ensures Sample(b, p, logits, k) == Sample(b, p, logits, 0)
  {
  }

  // ----- the premises can be met -----

  function Echo(row: seq<Token>): (logits: seq<seq<real>>)
    ensures |logits| == |row| && forall p | 0 <= p < |row| :: logits[p] == [row[p] as real]
  {
    seq(|row|, p requires 0 <= p < |row| => [row[p] as real])
  }

  function Curve(x: real): real {
    if x < 0.0 then 1.0 / (1.0 - x) else 1.0 + x
  }

  /** A toy model that predicts each token again, with a rational curve for the exponential. */
  function EchoBackend(): Backend {
    Backend(
      encode := (prompt: string) => [|prompt|],
      decode := (ids: seq<Token>, skip: bool) => "",
      forward := (row: seq<Token>) => Echo(row),
      cached := (past: seq<Token>, input: seq<Token>) => Echo(past + input),
      exp := (x: real) => Curve(x),
      draw := (n: nat, probs: seq<real>) => 0,
      eos := None,
      pad := None)
  }

  lemma {:induction false} Reciprocals(a: real, b: real)
    requires a > b > 0.0
    ensures 0.0 < 1.0 / a < 1.0 / b
  {
    assert (1.0 / a) * a == 1.0 && (1.0 / b) * b == 1.0;
    assert (1.0 / b) * a > (1.0 / a) * a;
  }

  lemma {:induction false} CurveRises(x: real, y: real)
    requires x < y
    ensures 0.0 < Curve(x) < Curve(y)
  {
    if x < 0.0 {
      Reciprocals(1.0 - x, if y < 0.0 then 1.0 - y else 1.0);
    }
  }

  /** No theorem here holds for want of a model: some model and exponential satisfy all their premises. */
  lemma {:induction false} PremisesCanBeMet()
    ensures Sane(EchoBackend()) && IsExp(EchoBackend().exp)
  {
    var b := EchoBackend();
    assert IsExp(b.exp) by {
      hide Curve;
      forall x: real, y: real | x < y ensures 0.0 < b.exp(x) < b.exp(y) {
        CurveRises(x, y);
      }
      forall x: real ensures b.exp(x) > 0.0 {
        assert b.exp(x) > 0.0 by { CurveRises(x, x + 1.0); }
      }
    }
  }
}
