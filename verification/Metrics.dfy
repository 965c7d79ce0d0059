/** Server metrics over a sliding window: the deque against the whole history, and the percentiles. */
module Metrics {
  import opened Prelude
  import opened Sampling

  datatype LatencyRecord = LatencyRecord(
    timestamp: real, totalMs: real, ttftMs: real, tokensGenerated: nat, tokensPerSecond: real)

  function Recent(cutoff: real): LatencyRecord -> bool { (r: LatencyRecord) => r.timestamp >= cutoff }

  ghost predicate Chronological(rs: seq<LatencyRecord>) {
    forall i, j | 0 <= i <= j < |rs| :: rs[i].timestamp <= rs[j].timestamp
  }

  /** Popping stale records off the front. */
  function Prune(rs: seq<LatencyRecord>, cutoff: real): seq<LatencyRecord> {
    if rs == [] || rs[0].timestamp >= cutoff then rs else Prune(rs[1..], cutoff)
  }

  /** In chronological order, popping the front until it is recent keeps exactly the recent records. */
  lemma {:induction false} PruneIsFilter(rs: seq<LatencyRecord>, cutoff: real)
    requires Chronological(rs)
    ensures Prune(rs, cutoff) == Filter(Recent(cutoff), rs)
  {
    if rs == [] {
    } else if rs[0].timestamp >= cutoff {
      FilterAll(Recent(cutoff), rs);
    } else {
      assert rs == [rs[0]] + rs[1..];
      FilterConcat(Recent(cutoff), [rs[0]], rs[1..]);
      assert Init([rs[0]]) == [];
      PruneIsFilter(rs[1..], cutoff);
    }
  }

  /** No stale record hides behind a recent one. */
  ghost predicate NoneHidden(rs: seq<LatencyRecord>, cutoff: real) {
    forall i, j | 0 <= i < j < |rs| :: rs[i].timestamp >= cutoff ==> rs[j].timestamp >= cutoff
  }

  /** Records are stamped before the lock is taken, so they can be filed out of order; pruning still keeps
      exactly the recent ones if and only if no stale record was filed behind a recent one. */
  lemma {:induction false} PruneExact(rs: seq<LatencyRecord>, cutoff: real)
    ensures Prune(rs, cutoff) == Filter(Recent(cutoff), rs) <==> NoneHidden(rs, cutoff)
  {
    if rs == [] {
    } else if rs[0].timestamp < cutoff {
      assert rs == [rs[0]] + rs[1..];
      FilterConcat(Recent(cutoff), [rs[0]], rs[1..]);
      assert Init([rs[0]]) == [];
      PruneExact(rs[1..], cutoff);
      assert forall j | 1 <= j < |rs| :: rs[j] == rs[1..][j - 1];
    } else {
      FilterMembers(Recent(cutoff), rs);
      if NoneHidden(rs, cutoff) {
        FilterAll(Recent(cutoff), rs);
      } else {
        var i, j :| 0 <= i < j < |rs| && rs[i].timestamp >= cutoff && rs[j].timestamp < cutoff;
        assert rs[j] in rs && rs[j] !in Filter(Recent(cutoff), rs);
      }
    }
  }

  /** Pruning drops records off the front as long as they are too old, whatever stands behind. */
  lemma {:induction false} PruneDropsFront(rs: seq<LatencyRecord>, cutoff: real)
    ensures var n := |rs| - |Prune(rs, cutoff)|;
      && n >= 0 && Prune(rs, cutoff) == rs[n..]
      && (forall i | 0 <= i < n :: rs[i].timestamp < cutoff) && (n < |rs| ==> rs[n].timestamp >= cutoff)
  {
    if rs != [] && rs[0].timestamp < cutoff {
      PruneDropsFront(rs[1..], cutoff);
    }
  }

  /** In chronological order a record survives exactly when it is no older than the window. */
  lemma {:induction false} PruneByAge(rs: seq<LatencyRecord>, cutoff: real)
    requires Chronological(rs)
    ensures forall r :: r in Prune(rs, cutoff) <==> r in rs && r.timestamp >= cutoff
  {
    PruneIsFilter(rs, cutoff);
    FilterMembers(Recent(cutoff), rs);
  }

  lemma {:induction false} ChronologicalSnoc(rs: seq<LatencyRecord>, r: LatencyRecord)
    requires Chronological(rs) && forall x | x in rs :: x.timestamp <= r.timestamp
    ensures Chronological(rs + [r])
  {
  }

  lemma {:induction false} ChronologicalInit(rs: seq<LatencyRecord>)
    requires Chronological(rs) && rs != []
    ensures Chronological(Init(rs)) && forall r | r in Init(rs) :: r.timestamp <= Last(rs).timestamp
  {
    forall r | r in Init(rs) ensures r.timestamp <= Last(rs).timestamp {
      var i :| 0 <= i < |Init(rs)| && Init(rs)[i] == r;
      assert rs[i].timestamp <= rs[|rs| - 1].timestamp;
    }
  }

  lemma {:induction false} KeptChronological(history: seq<LatencyRecord>, cutoff: real)
    requires Chronological(history)
    ensures Chronological(Filter(Recent(cutoff), history))
  {
    hide Chronological, Filter, Recent;
    if history == [] {
      FilterNone(Recent(cutoff), history);
    } else {
      var init, x := Init(history), Last(history);
      assert history == init + [x];
      ChronologicalInit(history);
      KeptChronological(init, cutoff);
      FilterMembers(Recent(cutoff), init);
      FilterSnoc(Recent(cutoff), init, x);
      ChronologicalSnoc(Filter(Recent(cutoff), init), x);
    }
  }

  /** Pruning again later is pruning the whole history once. */
  lemma {:induction false} LaterPrune(history: seq<LatencyRecord>, earlier: real, later: real)
    requires Chronological(history) && earlier <= later
    ensures Prune(Filter(Recent(earlier), history), later) == Filter(Recent(later), history)
  {
    KeptChronological(history, earlier);
    PruneIsFilter(Filter(Recent(earlier), history), later);
    FilterTwice(Recent(earlier), Recent(later), Recent(later), history);
  }

  ghost function TokenSum(rs: seq<LatencyRecord>): nat {
    if rs == [] then 0 else TokenSum(Init(rs)) + Last(rs).tokensGenerated
  }

  lemma {:induction false} TokenSumSnoc(rs: seq<LatencyRecord>, r: LatencyRecord)
    ensures TokenSum(rs + [r]) == TokenSum(rs) + r.tokensGenerated
  {
    assert Init(rs + [r]) == rs;
  }

  lemma {:induction false} Appended(history: seq<LatencyRecord>, r: LatencyRecord, earlier: real, later: real,
                                    records: seq<LatencyRecord>)
    requires Chronological(history) && (forall x | x in history :: x.timestamp <= r.timestamp)
    requires earlier <= later
    requires records == Filter(Recent(earlier), history)
    ensures Chronological(history + [r])
    ensures Prune(records + [r], later) == Filter(Recent(later), history + [r])
  {
    hide Filter, Chronological, Prune;
    KeptChronological(history, earlier);
    FilterMembers(Recent(earlier), history);
    ChronologicalSnoc(history, r);
    ChronologicalSnoc(records, r);
    PruneIsFilter(records + [r], later);
    FilterSnoc(Recent(later), records, r);
    FilterSnoc(Recent(later), history, r);
    FilterTwice(Recent(earlier), Recent(later), Recent(later), history);
  }

  // ----- rounding -----

  /** To the nearest integer, ties to the even one. */
  function Nearest(x: real): int {
    var low := x.Floor;
    var rest := x - low as real;
    if rest < 0.5 || (rest == 0.5 && low % 2 == 0) then low else low + 1
  }

  lemma {:induction false} NearestGrows(x: real, y: real)
    requires x <= y
    ensures Nearest(x) <= Nearest(y)
  {
  }

  /** To a multiple of 1 / scale. */
  function Round(x: real, scale: real): real
    requires scale > 0.0
  {
    Nearest(x * scale) as real / scale
  }

  lemma {:induction false} TimesGrows(x: real, y: real, scale: real)
    requires scale > 0.0 && x <= y
    ensures x * scale <= y * scale
  {
    assert (y - x) * scale >= 0.0;
  }

  lemma {:induction false} OverGrows(x: real, y: real, scale: real)
    requires scale > 0.0 && x <= y
    ensures x / scale <= y / scale
  {
    var a, b := x / scale, y / scale;
    assert a * scale == x && b * scale == y;
    assert a > b ==> (a - b) * scale > 0.0;
  }

  lemma {:induction false} TimesOver(x: real, d: real, scale: real)
    requires scale > 0.0
    ensures (x * scale + d) / scale == x + d / scale
  {
    var q := d / scale;
    assert q * scale == d;
    assert (x + q) * scale == x * scale + d;
  }

  lemma {:induction false} RoundGrows(x: real, y: real, scale: real)
    requires scale > 0.0 && x <= y
    ensures Round(x, scale) <= Round(y, scale)
  {
    hide Nearest;
    TimesGrows(x, y, scale);
    NearestGrows(x * scale, y * scale);
    OverGrows(Nearest(x * scale) as real, Nearest(y * scale) as real, scale);
  }

  /** Rounding moves a value by at most half a unit. */
  lemma {:induction false} RoundNear(x: real, scale: real)
    requires scale > 0.0
    ensures x + -0.5 / scale <= Round(x, scale) <= x + 0.5 / scale
  {
    var z := x * scale;
    var n := Nearest(z) as real;
    OverGrows(n, z + 0.5, scale);
    OverGrows(z + -0.5, n, scale);
    TimesOver(x, 0.5, scale);
    TimesOver(x, -0.5, scale);
  }

  /** out is x to a multiple of 1 / scale: the nearest one, and of two equally near ones the even one. */
  ghost predicate RoundedTo(x: real, scale: real, out: real) {
    var n := (out * scale).Floor;
    var rest := x * scale - n as real;
    out * scale == n as real && -0.5 <= rest <= 0.5 && (rest == 0.5 || rest == -0.5 ==> n % 2 == 0)
  }

  lemma {:induction false} OverTimes(n: real, scale: real)
    requires scale > 0.0
    ensures n / scale * scale == n
  {
  }

  lemma {:induction false} RoundMeaning(x: real, scale: real)
    requires scale > 0.0
    ensures RoundedTo(x, scale, Round(x, scale))
  {
    var k := Nearest(x * scale);
    OverTimes(k as real, scale);
    assert Round(x, scale) * scale == k as real;
  }

  // ----- percentiles -----

  function Latencies(rs: seq<LatencyRecord>): (xs: seq<real>)
    ensures |xs| == |rs| && forall i | 0 <= i < |rs| :: xs[i] == rs[i].totalMs
  {
    seq(|rs|, i requires 0 <= i < |rs| => rs[i].totalMs)
  }

  function InsertReal(xs: seq<real>, x: real): seq<real> {
    if xs == [] || Last(xs) <= x then xs + [x] else InsertReal(Init(xs), x) + [Last(xs)]
  }

  function SortReals(xs: seq<real>): seq<real> {
    if xs == [] then [] else InsertReal(SortReals(Init(xs)), Last(xs))
  }

  ghost predicate Ascending(xs: seq<real>) {
    forall i, j | 0 <= i <= j < |xs| :: xs[i] <= xs[j]
  }

  lemma {:induction false} InsertRealPermutes(xs: seq<real>, x: real)
    ensures multiset(InsertReal(xs, x)) == multiset(xs) + multiset{x}
  {
    if xs != [] && Last(xs) > x {
      assert xs == Init(xs) + [Last(xs)];
      InsertRealPermutes(Init(xs), x);
    }
  }

  lemma {:induction false} AscendingSnoc(xs: seq<real>, y: real)
    requires Ascending(xs) && forall x | x in multiset(xs) :: x <= y
    ensures Ascending(xs + [y])
  {
    assert forall i | 0 <= i < |xs| :: xs[i] in multiset(xs);
  }

  lemma {:induction false} AscendingInit(xs: seq<real>)
    requires Ascending(xs) && xs != []
    ensures Ascending(Init(xs)) && forall x | x in multiset(Init(xs)) :: x <= Last(xs)
  {
    forall x | x in multiset(Init(xs)) ensures x <= Last(xs) {
      var i :| 0 <= i < |Init(xs)| && Init(xs)[i] == x;
      assert xs[i] <= xs[|xs| - 1];
    }
  }

  lemma {:induction false} InsertRealSpec(xs: seq<real>, x: real)
    requires Ascending(xs)
    ensures Ascending(InsertReal(xs, x)) && multiset(InsertReal(xs, x)) == multiset(xs) + multiset{x}
  {
    hide Ascending;
    InsertRealPermutes(xs, x);
    if xs == [] {
      AscendingSnoc([], x);
      assert [] + [x] == xs + [x];
    } else {
      var init, last := Init(xs), Last(xs);
      AscendingInit(xs);
      if last <= x {
        assert multiset(xs) == multiset(init) + multiset{last} by { assert xs == init + [last]; }
        AscendingSnoc(xs, x);
      } else {
        InsertRealSpec(init, x);
        AscendingSnoc(InsertReal(init, x), last);
      }
    }
  }

  lemma {:induction false} SortRealsSpec(xs: seq<real>)
    ensures Ascending(SortReals(xs)) && multiset(SortReals(xs)) == multiset(xs) && |SortReals(xs)| == |xs|
  {
    if xs != [] {
      SortRealsSpec(Init(xs));
      InsertRealSpec(SortReals(Init(xs)), Last(xs));
      assert xs == Init(xs) + [Last(xs)];
    }
    assert |multiset(SortReals(xs))| == |multiset(xs)|;
  }

  /** A share p of n samples. */
  function Share(n: nat, p: real): real { n as real * p }

  lemma {:induction false} ShareFacts(n: nat, p: real)
    requires 0.0 <= p <= 1.0
    ensures 0.0 <= Share(n, p)
    ensures Share(n, 1.0 - p) == n as real - Share(n, p)
  {
    assert n as real * p >= 0.0;
    assert n as real * (1.0 - p) == n as real - n as real * p;
  }

  function Rank(n: nat, p: real): (k: int)
    requires n > 0 && 0.0 <= p <= 1.0
    ensures 0 <= k < n
  {
    ShareFacts(n, p);
    Min(Share(n, p).Floor, n - 1)
  }

  lemma {:induction false} ShareGrows(n: nat, p: real, q: real)
    requires p <= q
    ensures Share(n, p) <= Share(n, q)
  {
    assert n as real * p <= n as real * q;
  }

  /** The value at rank floor(n * p), capped at the last one. */
  function Ranked(sorted: seq<real>, p: real): real
    requires sorted != [] && 0.0 <= p <= 1.0
  {
    sorted[Rank(|sorted|, p)]
  }

  /** The ranked value to two decimals; 0 for no values. */
  function Percentile(sorted: seq<real>, p: real): real
    requires 0.0 <= p <= 1.0
  {
    if sorted == [] then 0.0 else Round(Ranked(sorted, p), 100.0)
  }

  function AtMost(v: real): real -> bool { (x: real) => x <= v }

  function AtLeast(v: real): real -> bool { (x: real) => x >= v }

  lemma {:induction false} FilterKeepsPart<T>(p: T -> bool, a: seq<T>, b: seq<T>, c: seq<T>)
    requires forall x | x in b :: p(x)
    ensures |Filter(p, a + b + c)| >= |b|
  {
    FilterConcat(p, a + b, c);
    FilterConcat(p, a, b);
    FilterAll(p, b);
  }

  lemma {:induction false} RanksAround(s: seq<real>, k: nat)
    requires Ascending(s) && k < |s|
    ensures k + 1 <= |Filter(AtMost(s[k]), s)| <= |s| && |Filter(AtLeast(s[k]), s)| >= |s| - k
  {
    var v, low, high := s[k], s[..k + 1], s[k..];
    assert s == [] + low + s[k + 1..] && s == s[..k] + high + [];
    FilterKeepsPart(AtMost(v), [], low, s[k + 1..]);
    FilterKeepsPart(AtLeast(v), s[..k], high, []);
    FilterMembers(AtMost(v), s);
  }

  /** A percentile is one of the samples, to within half a hundredth; more than a share p of them are at most
      that sample (or all are), and at least a share 1 - p of them are at least it. */
  lemma {:induction false} PercentileRank(xs: seq<real>, p: real)
    requires xs != [] && 0.0 <= p <= 1.0
    ensures var v := Ranked(SortReals(xs), p);
      var below, above := |Filter(AtMost(v), SortReals(xs))|, |Filter(AtLeast(v), SortReals(xs))|;
      && v in xs && v - 0.005 <= Percentile(SortReals(xs), p) <= v + 0.005
      && (below as real > Share(|xs|, p) || below == |xs|)
      && above as real >= Share(|xs|, 1.0 - p)
  {
    hide Share, Filter;
    SortRealsSpec(xs);
    var s := SortReals(xs);
    var k := Rank(|s|, p);
    var v := s[k];
    assert v in multiset(s) && multiset(s) == multiset(xs);
    RanksAround(s, k);
    ShareFacts(|xs|, p);
    RoundNear(v, 100.0);
  }

  ghost predicate RankedTo(sorted: seq<real>, p: real, out: real) {
    var k := Min((|sorted| as real * p).Floor, |sorted| - 1);
    0 <= k < |sorted| && RoundedTo(sorted[k], 100.0, out)
  }

  /** The value at rank floor(n * p) of the samples in ascending order, at most the last, to two decimals. */
  ghost predicate PercentileOf(samples: seq<real>, p: real, out: real) {
    if samples == [] then out == 0.0
    else exists sorted :: Ascending(sorted) && multiset(sorted) == multiset(samples) && RankedTo(sorted, p, out)
  }

  lemma {:induction false} RankMeaning(sorted: seq<real>, p: real)
    requires sorted != [] && 0.0 <= p <= 1.0
    ensures RankedTo(sorted, p, Percentile(sorted, p))
  {
    hide Round, RoundedTo;
    RoundMeaning(Ranked(sorted, p), 100.0);
    assert Share(|sorted|, p) == |sorted| as real * p;
  }

  lemma {:induction false} NoneSorted()
    ensures SortReals([]) == []
  {
  }

  lemma {:induction false} PercentileMeaning(samples: seq<real>, p: real)
    requires 0.0 <= p <= 1.0
    ensures PercentileOf(samples, p, Percentile(SortReals(samples), p))
  {
    hide SortReals, Ascending, RankedTo, Ranked;
    var sorted := SortReals(samples);
    SortRealsSpec(samples);
    NoneSorted();
    if samples != [] {
      assert |multiset(sorted)| == |multiset(samples)|;
      RankMeaning(sorted, p);
    }
  }

  /** p50 <= p95 <= p99, and so for any two shares. */
  lemma {:induction false} PercentilesAscend(xs: seq<real>, p: real, q: real)
    requires 0.0 <= p <= q <= 1.0
    ensures Percentile(SortReals(xs), p) <= Percentile(SortReals(xs), q)
  {
    hide Share, Round;
    SortRealsSpec(xs);
    ShareGrows(|xs|, p, q);
    if xs != [] {
      RoundGrows(Ranked(SortReals(xs), p), Ranked(SortReals(xs), q), 100.0);
    }
  }

  // ----- the report -----

  function Ttfts(rs: seq<LatencyRecord>): (xs: seq<real>)
    ensures |xs| == |rs| && forall i | 0 <= i < |rs| :: xs[i] == rs[i].ttftMs
  {
    seq(|rs|, i requires 0 <= i < |rs| => rs[i].ttftMs)
  }

  function Speeds(rs: seq<LatencyRecord>): (xs: seq<real>)
    ensures |xs| == |rs| && forall i | 0 <= i < |rs| :: xs[i] == rs[i].tokensPerSecond
  {
    seq(|rs|, i requires 0 <= i < |rs| => rs[i].tokensPerSecond)
  }

  /** The counters and gauges that do not depend on the window. */
  datatype Totals = Totals(
    requests: nat, tokens: nat, errors: nat, batchSize: int, queueDepth: int, cacheUtilization: real)

  datatype Report = Report(
    totals: Totals, uptime: real, requestsPerSecond: real,
    latencyP50: real, latencyP95: real, latencyP99: real, ttftP50: real, ttftP95: real,
    averageTokensPerSecond: real, windowSeconds: real, samples: nat)

  function Average(xs: seq<real>): real {
    if xs == [] then 0.0 else Sum(xs) / |xs| as real
  }

  function Rate(count: nat, uptime: real): real {
    if uptime > 0.0 then count as real / uptime else 0.0
  }

  function ReportOf(window: seq<LatencyRecord>, totals: Totals, uptime: real, windowSeconds: real): Report {
    var latencies, ttfts := SortReals(Latencies(window)), SortReals(Ttfts(window));
    Report(
      totals.(cacheUtilization := Round(totals.cacheUtilization, 1000.0)),
      Round(uptime, 10.0), Round(Rate(totals.requests, uptime), 100.0),
      Percentile(latencies, 0.50), Percentile(latencies, 0.95), Percentile(latencies, 0.99),
      Percentile(ttfts, 0.50), Percentile(ttfts, 0.95),
      Round(Average(Speeds(window)), 10.0), windowSeconds, |window|)
  }

  lemma {:induction false} AverageMeaning(xs: seq<real>)
    ensures if xs == [] then Average(xs) == 0.0 else Average(xs) * |xs| as real == Sum(xs)
  {
    if xs != [] {
      var n := |xs| as real;
      var mean := Sum(xs) / n;
      assert mean * n == Sum(xs);
    }
  }

  lemma {:induction false} NoSum()
    ensures Sum([]) == 0.0
  {
  }

  /** Every field of a report, from the columns of the records in the window. */
  lemma {:induction false} ReportMeaning(window: seq<LatencyRecord>, totals: Totals, uptime: real, windowSeconds: real,
                                         total: seq<real>, ttft: seq<real>, speed: seq<real>)
    returns (mean: real)
    requires |total| == |ttft| == |speed| == |window|
    requires forall i | 0 <= i < |window| ::
      total[i] == window[i].totalMs && ttft[i] == window[i].ttftMs && speed[i] == window[i].tokensPerSecond
    ensures var r := ReportOf(window, totals, uptime, windowSeconds);
      && PercentileOf(total, 0.50, r.latencyP50) && PercentileOf(total, 0.95, r.latencyP95)
      && PercentileOf(total, 0.99, r.latencyP99)
      && PercentileOf(ttft, 0.50, r.ttftP50) && PercentileOf(ttft, 0.95, r.ttftP95)
      && mean * |window| as real == Sum(speed) && (window == [] ==> mean == 0.0)
      && RoundedTo(mean, 10.0, r.averageTokensPerSecond)
      && RoundedTo(uptime, 10.0, r.uptime)
      && RoundedTo(if uptime > 0.0 then totals.requests as real / uptime else 0.0, 100.0, r.requestsPerSecond)
      && RoundedTo(totals.cacheUtilization, 1000.0, r.totals.cacheUtilization)
      && r.totals == totals.(cacheUtilization := r.totals.cacheUtilization)
      && r.windowSeconds == windowSeconds && r.samples == |window|
  {
    hide Percentile, SortReals, Round, RoundedTo, PercentileOf, Average, Sum;
    assert total == Latencies(window) && ttft == Ttfts(window) && speed == Speeds(window);
    PercentileMeaning(total, 0.50);
    PercentileMeaning(total, 0.95);
    PercentileMeaning(total, 0.99);
    PercentileMeaning(ttft, 0.50);
    PercentileMeaning(ttft, 0.95);
    mean := Average(speed);
    AverageMeaning(speed);
    NoSum();
    RoundMeaning(mean, 10.0);
    RoundMeaning(uptime, 10.0);
    RoundMeaning(Rate(totals.requests, uptime), 100.0);
    RoundMeaning(totals.cacheUtilization, 1000.0);
  }

  /** In every report the percentiles ascend. */
  lemma {:induction false} ReportAscends(window: seq<LatencyRecord>, totals: Totals, uptime: real, windowSeconds: real)
    ensures var r := ReportOf(window, totals, uptime, windowSeconds);
      r.latencyP50 <= r.latencyP95 <= r.latencyP99 && r.ttftP50 <= r.ttftP95
  {
    hide Percentile, SortReals;
    PercentilesAscend(Latencies(window), 0.50, 0.95);
    PercentilesAscend(Latencies(window), 0.95, 0.99);
    PercentilesAscend(Ttfts(window), 0.50, 0.95);
  }

  // ----- the collector -----

  class MetricsCollector {
    const windowSeconds: real
    const startTime: real
    var records: seq<LatencyRecord>
    var totalRequests: nat
    var totalTokensGenerated: nat
    var totalErrors: nat
    var currentBatchSize: int
    var currentQueueDepth: int
    var cacheUtilization: real
    ghost var history: seq<LatencyRecord>  // every record ever made
    ghost var clock: real                  // when the window was last pruned

    ghost predicate Valid()
      reads this
    {
      totalRequests == |history| && totalTokensGenerated == TokenSum(history)
    }

    /** The records came in the order of their stamps, none after the last prune, and the window is the whole
        history filtered by age. */
    ghost predicate InOrder()
      reads this
    {
      && Chronological(history) && (forall r | r in history :: r.timestamp <= clock)
      && records == Filter(Recent(clock - windowSeconds), history)
    }

    function Counters(): Totals
      reads this
    {
      Totals(totalRequests, totalTokensGenerated, totalErrors, currentBatchSize, currentQueueDepth, cacheUtilization)
    }

    constructor (windowSeconds: real, now: real)
      ensures Valid() && InOrder() && history == [] && clock == now
      ensures this.windowSeconds == windowSeconds && startTime == now && Counters() == Totals(0, 0, 0, 0, 0, 0.0)
    {
      this.windowSeconds, startTime := windowSeconds, now;
      records, totalRequests, totalTokensGenerated, totalErrors := [], 0, 0, 0;
      currentBatchSize, currentQueueDepth, cacheUtilization := 0, 0, 0.0;
      history, clock := [], now;
    }

    method PruneOldRecords(now: real)
      modifies this`records
      ensures records == Prune(old(records), now - windowSeconds)
    {
      var cutoff := now - windowSeconds;
      while records != [] && records[0].timestamp < cutoff
        invariant Prune(records, cutoff) == Prune(old(records), cutoff)
        decreases |records|
      {
        records := records[1..];
      }
    }

    /** The record is stamped before the lock is taken and the prune reads the clock after. While neither
        runs backwards, the window stays the whole history filtered by age. */
    method RecordRequest(stamp: real, now: real, totalMs: real, ttftMs: real, tokensGenerated: nat,
                         tokensPerSecond: real)
      requires Valid()
      modifies this`records, this`totalRequests, this`totalTokensGenerated, this`history, this`clock
      ensures Valid() && clock == now
      ensures var record := LatencyRecord(stamp, totalMs, ttftMs, tokensGenerated, tokensPerSecond);
        && history == old(history) + [record]
        && records == Prune(old(records) + [record], now - windowSeconds)
      ensures old(InOrder()) && old(clock) <= stamp <= now ==> InOrder()
    {
      hide Filter, Prune, Chronological, TokenSum;
      var record := LatencyRecord(stamp, totalMs, ttftMs, tokensGenerated, tokensPerSecond);
      if InOrder() && clock <= stamp <= now {
        Appended(history, record, clock - windowSeconds, now - windowSeconds, records);
      }
      records := records + [record];
      totalRequests := totalRequests + 1;
      totalTokensGenerated := totalTokensGenerated + tokensGenerated;
      PruneOldRecords(now);
      history := history + [record];
      TokenSumSnoc(old(history), record);
      clock := now;
    }

    method RecordError()
      requires Valid()
      modifies this`totalErrors
      ensures Valid() && totalErrors == old(totalErrors) + 1
    {
      totalErrors := totalErrors + 1;
    }

    method UpdateGauges(batchSize: Option<int>, queueDepth: Option<int>, utilization: Option<real>)
      requires Valid()
      modifies this`currentBatchSize, this`currentQueueDepth, this`cacheUtilization
      ensures Valid() && Counters() == old(Counters()).(
        batchSize := if batchSize.Some? then batchSize.value else old(currentBatchSize),
        queueDepth := if queueDepth.Some? then queueDepth.value else old(currentQueueDepth),
        cacheUtilization := if utilization.Some? then utilization.value else old(cacheUtilization))
    {
      if batchSize.Some? {
        currentBatchSize := batchSize.value;
      }
      if queueDepth.Some? {
        currentQueueDepth := queueDepth.value;
      }
      if utilization.Some? {
        cacheUtilization := utilization.value;
      }
    }

    /** The report of the window as of now; the clock is read again, as `later`, for the uptime. */
    method GetMetrics(now: real, later: real) returns (m: Report)
      requires Valid()
      modifies this`records, this`clock
      ensures Valid() && clock == now && records == Prune(old(records), now - windowSeconds)
      ensures m == ReportOf(records, Counters(), later - startTime, windowSeconds)
      ensures m.totals.requests == |history| && m.totals.tokens == TokenSum(history)
      ensures old(InOrder()) && old(clock) <= now ==> InOrder()
    {
      hide Filter, Prune, Chronological, TokenSum, Round;
      if InOrder() && clock <= now {
        LaterPrune(history, clock - windowSeconds, now - windowSeconds);
      }
      PruneOldRecords(now);
      clock := now;
      m := ReportOf(records, Counters(), later - startTime, windowSeconds);
    }
  }
}
