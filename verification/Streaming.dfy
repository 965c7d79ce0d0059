/** Token-by-token generation with past key-values: the decode loop, its events, and its agreement with
    decoding by recomputation. */
module Streaming {
  import opened Prelude
  import opened Sampling
  import opened Decoding
  import opened TokenSampler
  import opened SchedulerModel

  datatype Event =
    | TokenEvent(token: string, index: nat, finishReason: Option<string>)
    | DoneEvent(generatedTokens: nat)

  /** The streaming sampler: it tests the raw temperature for greediness. */
  function StreamSample(b: Backend, p: Params, logits: seq<real>, drawIndex: nat): Token {
    var probs := Probs(b.exp, Filtered(b.exp, logits, p.temperature, p.topK, p.topP));
    if p.temperature < GREEDY_BELOW then Argmax(probs) else b.draw(drawIndex, probs)
  }

  /** One model call: the whole prompt at first, then the last token against what was already consumed. */
  function ModelCall(b: Backend, ids: seq<Token>, past: Option<seq<Token>>): seq<seq<real>>
    requires past.Some? ==> ids != []
  {
    if past.Some? then b.cached(past.value, [Last(ids)]) else b.forward(ids)
  }

  function Consumed(ids: seq<Token>, past: Option<seq<Token>>): seq<Token>
    requires past.Some? ==> ids != []
  {
    if past.Some? then past.value + [Last(ids)] else ids
  }

  function StreamNext(b: Backend, p: Params, ids: seq<Token>, past: Option<seq<Token>>, i: nat): Token
    requires past.Some? ==> ids != []
  {
    var logits := ModelCall(b, ids, past);
    StreamSample(b, p, At(logits, |logits| - 1), i)
  }

  /** The tokens the decode loop samples from iteration i on, ending with an EOS if it meets one. */
  function StreamTokens(b: Backend, p: Params, ids: seq<Token>, past: Option<seq<Token>>, i: nat,
                        left: nat): (out: seq<Token>)
    requires past.Some? ==> ids != []
    ensures |out| <= left
    decreases left
  {
    if left == 0 then [] else
      var t := StreamNext(b, p, ids, past, i);
      if IsEos(b, t) then [t]
      else [t] + StreamTokens(b, p, ids + [t], Some(Consumed(ids, past)), i + 1, left - 1)
  }

  function EventFor(b: Backend, t: Token, i: nat, maxTokens: int): Event {
    if IsEos(b, t) then TokenEvent("", i, Some("eos"))
    else TokenEvent(b.decode([t], false), i, if i == maxTokens - 1 then Some("length") else None)
  }

  function TokenEvents(b: Backend, tokens: seq<Token>, maxTokens: int): (es: seq<Event>)
    ensures |es| == |tokens| && forall i | 0 <= i < |es| :: es[i] == EventFor(b, tokens[i], i, maxTokens)
  {
    seq(|tokens|, i requires 0 <= i < |tokens| => EventFor(b, tokens[i], i, maxTokens))
  }

  /** The tokens without the EOS that ended them. */
  function WithoutEos(b: Backend, tokens: seq<Token>): seq<Token> {
    if tokens != [] && IsEos(b, Last(tokens)) then Init(tokens) else tokens
  }

  function Streamed(b: Backend, p: Params): seq<Token> {
    StreamTokens(b, p, Encode(b, p.prompt), None, 0, Max(p.maxTokens, 0))
  }

  function StreamEvents(b: Backend, p: Params): seq<Event> {
    var tokens := Streamed(b, p);
    TokenEvents(b, tokens, p.maxTokens) + [DoneEvent(|WithoutEos(b, tokens)|)]
  }

  lemma {:induction false} EosLast(b: Backend, tokens: seq<Token>, t: Token)
    requires IsEos(b, t)
    ensures WithoutEos(b, tokens + [t]) == tokens
  {
  }

  lemma {:induction false} StreamStep(b: Backend, p: Params, ids: seq<Token>, past: Option<seq<Token>>, i: nat,
                                      left: nat)
    requires left > 0 && (past.Some? ==> ids != [])
    ensures var t := StreamNext(b, p, ids, past, i);
      StreamTokens(b, p, ids, past, i, left)
        == if IsEos(b, t) then [t] else [t] + StreamTokens(b, p, ids + [t], Some(Consumed(ids, past)), i + 1, left - 1)
  {
  }

  lemma {:induction false} EventsSnoc(b: Backend, tokens: seq<Token>, t: Token, maxTokens: int)
    ensures TokenEvents(b, tokens + [t], maxTokens)
      == TokenEvents(b, tokens, maxTokens) + [EventFor(b, t, |tokens|, maxTokens)]
  {
  }

  lemma {:induction false} NoEos(b: Backend, tokens: seq<Token>)
    requires forall j | 0 <= j < |tokens| :: !IsEos(b, tokens[j])
    ensures WithoutEos(b, tokens) == tokens
  {
  }

  /** What an iteration of the decode loop settles: the stream ends with its token, or goes on after it. */
  lemma {:induction false} StreamGoesOn(b: Backend, p: Params, emitted: seq<Token>, ids: seq<Token>,
                                        past: Option<seq<Token>>, i: nat, left: nat)
    requires left > 0 && (past.Some? ==> ids != [] && past.value == Init(ids))
    requires Streamed(b, p) == emitted + StreamTokens(b, p, ids, past, i, left)
    ensures var t := StreamNext(b, p, ids, past, i);
      && (IsEos(b, t) ==> Streamed(b, p) == emitted + [t])
      && (!IsEos(b, t) ==>
            Streamed(b, p) == emitted + [t] + StreamTokens(b, p, ids + [t], Some(Consumed(ids, past)), i + 1, left - 1))
    ensures Consumed(ids, past) == ids
  {
    hide Streamed, StreamNext, StreamTokens;
    StreamStep(b, p, ids, past, i, left);
    if past.Some? {
      assert Init(ids) + [Last(ids)] == ids;
    }
    var t := StreamNext(b, p, ids, past, i);
    if !IsEos(b, t) {
      var rest := StreamTokens(b, p, ids + [t], Some(Consumed(ids, past)), i + 1, left - 1);
      assert emitted + ([t] + rest) == emitted + [t] + rest;
    }
  }

  lemma {:induction false} StreamStart(b: Backend, p: Params)
    ensures Streamed(b, p) == [] + StreamTokens(b, p, Encode(b, p.prompt), None, 0, Max(p.maxTokens, 0))
  {
    assert [] + Streamed(b, p) == Streamed(b, p);
  }

  lemma {:induction false} StreamEnd(b: Backend, p: Params, ids: seq<Token>, past: Option<seq<Token>>, i: nat)
    requires past.Some? ==> ids != []
    ensures StreamTokens(b, p, ids, past, i, 0) == []
  {
  }

  lemma {:induction false} NoEvents(b: Backend, maxTokens: int)
    ensures TokenEvents(b, [], maxTokens) == []
  {
  }

  class StreamingGenerator {
    const backend: Backend

    constructor (backend: Backend)
      ensures this.backend == backend
    {
      this.backend := backend;
    }

    method Sample(logits: seq<real>, p: Params, drawIndex: nat) returns (token: Token)
      ensures token == StreamSample(backend, p, logits, drawIndex)
    {
      var probs := NextDistribution(backend.exp, logits, p.temperature, p.topK, p.topP);
      if p.temperature < GREEDY_BELOW {
        token := ArgmaxOf(probs);
      } else {
        token := backend.draw(drawIndex, probs);
      }
    }

    /** One model call, sampled at its last position. */
    method NextToken(inputIds: seq<Token>, past: Option<seq<Token>>, p: Params, drawIndex: nat) returns (token: Token)
      requires past.Some? ==> inputIds != []
      ensures token == StreamNext(backend, p, inputIds, past, drawIndex)
    {
      var logits := ModelCall(backend, inputIds, past);
      token := Sample(At(logits, |logits| - 1), p, drawIndex);
    }

    /** The decode loop. Its invariant: the past covers all of the input but its last token. */
    method GenerateStream(p: Params) returns (events: seq<Event>)
      ensures events == StreamEvents(backend, p)
    {
      hide StreamNext, Streamed, Encode, StreamTokens, TokenEvents, WithoutEos, Consumed;
      var maxTokens := Max(p.maxTokens, 0);
      var inputIds := Encode(backend, p.prompt);
      var past: Option<seq<Token>> := None;
      var generatedCount := 0;
      events := [];
      ghost var emitted: seq<Token> := [];
      NoEvents(backend, p.maxTokens);
      StreamStart(backend, p);
      for i := 0 to maxTokens
        invariant |emitted| == generatedCount == i
        invariant past.Some? ==> inputIds != [] && past.value == Init(inputIds)
        invariant i > 0 <==> past.Some?
        invariant forall j | 0 <= j < i :: !IsEos(backend, emitted[j])
        invariant Streamed(backend, p) == emitted + StreamTokens(backend, p, inputIds, past, i, maxTokens - i)
        invariant events == TokenEvents(backend, emitted, p.maxTokens)
      {
        var token := NextToken(inputIds, past, p, i);
        StreamGoesOn(backend, p, emitted, inputIds, past, i, maxTokens - i);
        EventsSnoc(backend, emitted, token, p.maxTokens);
        past := Some(Consumed(inputIds, past));
        if IsEos(backend, token) {
          EosLast(backend, emitted, token);
          events := events + [TokenEvent("", i, Some("eos"))] + [DoneEvent(generatedCount)];
          return;
        }
        generatedCount := generatedCount + 1;
        var text := backend.decode([token], false);
        events := events + [TokenEvent(text, i, if i == maxTokens - 1 then Some("length") else None)];
        assert past.value == Init(inputIds + [token]);
        inputIds := inputIds + [token];
        emitted := emitted + [token];
      }
      StreamEnd(backend, p, inputIds, past, maxTokens);
      assert emitted + [] == emitted;
      NoEos(backend, emitted);
      events := events + [DoneEvent(generatedCount)];
    }
  }

  // ----- agreement with recomputation -----

  lemma {:induction false} SamplersAgree(b: Backend, p: Params, logits: seq<real>, i: nat)
    ensures StreamSample(b, p, logits, i) == Sample(b, p, logits, i)
  {
  }

  /** With the past covering all but the last token, a step against it samples what recomputing the row samples. */
  lemma {:induction false} StepAgrees(b: Backend, p: Params, ids: seq<Token>, past: Option<seq<Token>>, i: nat)
    requires CacheAgrees(b) && PerPosition(b) && Greedy(p) && ids != [] && (past.Some? ==> past.value == Init(ids))
    ensures StreamNext(b, p, ids, past, i) == NextToken(b, p, ids)
    ensures Consumed(ids, past) == ids
  {
    hide Sample, StreamSample;
    var out := ModelCall(b, ids, past);
    SamplersAgree(b, p, At(out, |out| - 1), i);
    GreedyIgnoresDraw(b, p, At(out, |out| - 1), i);
    if past.Some? {
      assert past.value + [Last(ids)] == ids;
    }
  }

  lemma {:induction false} SoloStep(b: Backend, p: Params, ids: seq<Token>, left: nat)
    ensures var t := NextToken(b, p, ids);
      SoloFrom(b, p, ids, left)
        == if left == 0 then [] else if IsEos(b, t) then [t] else [t] + SoloFrom(b, p, ids + [t], left - 1)
  {
  }

  lemma {:induction false} StreamIsSolo(b: Backend, p: Params, ids: seq<Token>, past: Option<seq<Token>>, i: nat,
                                        left: nat)
    requires CacheAgrees(b) && PerPosition(b) && Greedy(p) && ids != [] && (past.Some? ==> past.value == Init(ids))
    ensures StreamTokens(b, p, ids, past, i, left) == SoloFrom(b, p, ids, left)
    decreases left
  {
    hide StreamNext, NextToken, Greedy, IsEos, StreamTokens, SoloFrom, CacheAgrees, PerPosition;
    SoloStep(b, p, ids, left);
    if left == 0 {
      StreamEnd(b, p, ids, past, i);
    } else {
      StepAgrees(b, p, ids, past, i);
      StreamStep(b, p, ids, past, i, left);
      var t := NextToken(b, p, ids);
      if !IsEos(b, t) {
        assert Init(ids + [t]) == ids;
        StreamIsSolo(b, p, ids + [t], Some(Consumed(ids, past)), i + 1, left - 1);
      }
    }
  }

  /** Incremental decoding emits exactly the batching engine's tokens, minus a trailing EOS, if and only if
      max_tokens is positive or the very first token is an EOS: at zero the engine still generates one token. */
  lemma {:induction false} StreamMatchesEngine(b: Backend, p: Params)
    requires Sane(b) && Greedy(p)
    ensures WithoutEos(b, Streamed(b, p)) == WithoutEos(b, Solo(b, p)) <==>
      p.maxTokens >= 1 || IsEos(b, NextToken(b, p, Encode(b, p.prompt)))
    ensures p.maxTokens >= 1 ==> Streamed(b, p) == Solo(b, p)
  {
    hide NextToken, Greedy, Causal, CacheAgrees, PerPosition;
    var ids := Encode(b, p.prompt);
    EncodeNonEmpty(b, p.prompt);
    StreamIsSolo(b, p, ids, None, 0, Max(p.maxTokens, 0));
    var t := NextToken(b, p, ids);
    assert SoloFrom(b, p, ids + [t], 0) == [];
    assert SoloFrom(b, p, ids, 1) == [t];
  }

  lemma {:induction false} SoloUnfold(b: Backend, p: Params)
    requires p.maxTokens >= 1
    ensures Solo(b, p) == SoloFrom(b, p, Encode(b, p.prompt), p.maxTokens)
  {
  }

  // ----- what every stream sends, sampled or greedy -----

  /** The logits that iteration i samples: at first those of the whole prompt, then those of the last token alone,
      run against the past that covers everything before it. */
  function LogitsAt(b: Backend, ids: seq<Token>, out: seq<Token>, i: nat): seq<real>
    requires i <= |out|
  {
    var logits := if i == 0 then b.forward(ids) else b.cached(ids + out[..i - 1], [out[i - 1]]);
    At(logits, |logits| - 1)
  }

  /** From iteration i on, each token is sampled with its own draw, and the loop goes on until an EOS or the limit. */
  ghost predicate StreamedFrom(b: Backend, p: Params, ids: seq<Token>, out: seq<Token>, i: nat, limit: nat) {
    && i <= |out| <= limit
    && (forall j | i <= j < |out| :: out[j] == StreamSample(b, p, LogitsAt(b, ids, out, j), j))
    && (forall j | i <= j < |out| - 1 :: b.eos != Some(out[j]))
    && (|out| < limit ==> i < |out| && b.eos == Some(Last(out)))
  }

  lemma {:induction false} StreamedMore(b: Backend, p: Params, ids: seq<Token>, out: seq<Token>, i: nat, limit: nat)
    requires i < |out| && StreamedFrom(b, p, ids, out, i + 1, limit)
    requires out[i] == StreamSample(b, p, LogitsAt(b, ids, out, i), i) && b.eos != Some(out[i])
    ensures StreamedFrom(b, p, ids, out, i, limit)
  {
    hide StreamSample, LogitsAt;
  }

  lemma {:induction false} CallAt(b: Backend, p: Params, ids: seq<Token>, before: seq<Token>, out: seq<Token>)
    requires before <= out && (before != [] ==> ids + before != [])
    ensures var past := if before == [] then None else Some(ids + before[..|before| - 1]);
      && StreamNext(b, p, ids + before, past, |before|) == StreamSample(b, p, LogitsAt(b, ids, out, |before|), |before|)
      && Consumed(ids + before, past) == ids + before
  {
    hide StreamSample;
    if before == [] {
      assert ids + before == ids;
    } else {
      assert Last(ids + before) == Last(before) == out[|before| - 1];
      assert before[..|before| - 1] == out[..|before| - 1];
      assert ids + before[..|before| - 1] + [Last(before)] == ids + before;
    }
  }

  lemma {:induction false} EosStreamed(b: Backend, p: Params, ids: seq<Token>, out: seq<Token>, i: nat, limit: nat)
    requires i + 1 == |out| <= limit && IsEos(b, out[i])
    requires out[i] == StreamSample(b, p, LogitsAt(b, ids, out, i), i)
    ensures StreamedFrom(b, p, ids, out, i, limit)
  {
    hide StreamSample, LogitsAt;
  }

  lemma {:induction false} NothingStreamed(b: Backend, p: Params, ids: seq<Token>, out: seq<Token>)
    ensures StreamedFrom(b, p, ids, out, |out|, |out|)
  {
  }

  lemma {:induction false} PrefixAgain(ids: seq<Token>, before: seq<Token>, t: Token)
    ensures (before + [t])[..|before + [t]| - 1] == before && ids + (before + [t]) == ids + before + [t]
  {
  }

  lemma {:induction false} StreamTokensMeaning(b: Backend, p: Params, ids: seq<Token>, before: seq<Token>, left: nat)
    ensures var past := if before == [] then None else Some(ids + before[..|before| - 1]);
      var out := before + StreamTokens(b, p, ids + before, past, |before|, left);
      StreamedFrom(b, p, ids, out, |before|, |before| + left)
    decreases left
  {
    hide StreamSample, StreamNext, StreamTokens, LogitsAt, Consumed, StreamedFrom;
    var past := if before == [] then None else Some(ids + before[..|before| - 1]);
    var out := before + StreamTokens(b, p, ids + before, past, |before|, left);
    if left == 0 {
      StreamEnd(b, p, ids + before, past, |before|);
      assert out == before;
      NothingStreamed(b, p, ids, before);
    } else {
      StreamStep(b, p, ids + before, past, |before|, left);
      CallAt(b, p, ids, before, out);
      var t := StreamNext(b, p, ids + before, past, |before|);
      if IsEos(b, t) {
        assert out == before + [t];
        EosStreamed(b, p, ids, out, |before|, |before| + left);
      } else {
        StreamTokensMeaning(b, p, ids, before + [t], left - 1);
        PrefixAgain(ids, before, t);
        var rest := StreamTokens(b, p, ids + before + [t], Some(ids + before), |before| + 1, left - 1);
        assert before + ([t] + rest) == before + [t] + rest;
        StreamedMore(b, p, ids, out, |before|, |before| + left);
      }
    }
  }

  /** Every stream, sampled or greedy: it starts from the prompt, cut at 1024 tokens, samples token i from the
      model run on the token before it against a past that covers all the rest, and ends with the first EOS or
      at max_tokens. It sends one event per token, in order: the decoded text of that token, the last one's
      too, or nothing for an EOS. */
  lemma {:induction false} StreamMeaning(b: Backend, p: Params)
    ensures var out, es := Streamed(b, p), StreamEvents(b, p);
      && StreamedFrom(b, p, Truncated(b.encode(p.prompt)), out, 0, Max(p.maxTokens, 0))
      && |es| == |out| + 1
      && (forall i | 0 <= i < |out| ::
            && es[i].TokenEvent? && es[i].index == i
            && es[i].token == if b.eos == Some(out[i]) then "" else b.decode([out[i]], false))
      && Last(es) == DoneEvent(|out| - if out != [] && b.eos == Some(Last(out)) then 1 else 0)
  {
    hide StreamedFrom, StreamTokens, Encode;
    var ids, limit := Encode(b, p.prompt), Max(p.maxTokens, 0);
    EncodedIsTruncated(b, p.prompt);
    StreamTokensMeaning(b, p, ids, [], limit);
    assert ids + [] == ids && [] + Streamed(b, p) == Streamed(b, p);
  }

  lemma {:induction false} CallSeesRow(b: Backend, ids: seq<Token>, out: seq<Token>, i: nat)
    requires CacheAgrees(b) && PerPosition(b) && i <= |out|
    ensures LogitsAt(b, ids, out, i) == EndLogits(b, ids + out[..i])
  {
    if i == 0 {
      assert ids + out[..i] == ids;
    } else {
      assert ids + out[..i - 1] + [out[i - 1]] == ids + out[..i];
    }
  }

  /** When the past stands for the tokens it was computed from, that is sampling the whole row at its end. */
  lemma {:induction false} StreamSamplesRows(b: Backend, p: Params)
    requires Sane(b)
    ensures var ids, out := Truncated(b.encode(p.prompt)), Streamed(b, p);
      forall i | 0 <= i < |out| :: out[i] == Sample(b, p, EndLogits(b, ids + out[..i]), i)
  {
    hide StreamSample, Sample, Streamed, StreamEvents, Truncated, Encode, Causal, CacheAgrees, PerPosition, LogitsAt,
         EndLogits;
    var ids, out := Truncated(b.encode(p.prompt)), Streamed(b, p);
    StreamMeaning(b, p);
    EncodedIsTruncated(b, p.prompt);
    forall i | 0 <= i < |out| ensures out[i] == Sample(b, p, EndLogits(b, ids + out[..i]), i) {
      SamplersAgree(b, p, LogitsAt(b, ids, out, i), i);
      CallSeesRow(b, ids, out, i);
    }
  }

  /** The finish reason comes with the last token and with no other: "eos" exactly when it is an EOS, and "length"
      otherwise. A stream of at least one token allowed sends at least one. */
  lemma {:induction false} StreamEventsShape(b: Backend, p: Params)
    ensures var es, out := StreamEvents(b, p), Streamed(b, p);
      && |es| == |out| + 1 && (out == [] <==> p.maxTokens <= 0)
      && (forall i | 0 <= i < |out| :: es[i].TokenEvent?)
      && (forall i | 0 <= i < |out| - 1 :: es[i].finishReason == None)
      && (out != [] ==> es[|out| - 1].finishReason == Some(if b.eos == Some(Last(out)) then "eos" else "length"))
  {
    hide StreamSample, LogitsAt, Streamed, Truncated;
    StreamMeaning(b, p);
  }
}
