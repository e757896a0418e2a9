/** The test runner (internal/runner/runner.go): one test case becomes one `TestResult`, a run
    fills one result per test at the test's own index, and the results are summarised in
    `ModelMetrics`.

    Go runs the tests on goroutines bounded by a semaphore; each goroutine writes only its own
    slot of a pre-sized slice, so the model fills the same slots in index order. */
module Runner {
  import opened Wrappers
  import opened Types
  import Text
  import Compare
  import OpenRouter

  /** `New` clamps the parallelism to at least one request at a time. */
  function ClampParallel(parallel: int): (r: int)
    ensures r >= 1
    ensures parallel >= 1 ==> r == parallel
    ensures parallel < 1 ==> r == 1
  {
    if parallel < 1 then 1 else parallel
  }

  /** The zero `TestResult`, which `make` puts in every slot. */
  const ZeroResult: TestResult := TestResult("", false, "", "", [], "", "", 0, 0, 0)

  /** What `runSingleTest` produces for `test`, given the outcome of `Complete`. A client error
      leaves everything but the name, the expected text and the error at its zero value; a
      comparison error keeps the completion's data and prefixes the message; otherwise the
      diffs are those of the comparison and the test passes exactly when there are none. */
  ghost predicate Shaped(result: TestResult, test: TestCase, outcome: Result<OpenRouter.CompletionResult, OpenRouter.Error>,
                         decode: string -> Result<Json, string>)
  {
    result.testName == test.name && result.expected == test.expected &&
    match outcome
    case Failure(err) =>
      result == TestResult(test.name, false, test.expected, "", [], err.Text(), "", 0, 0, 0)
    case Success(c) =>
      result.actual == c.response && result.provider == c.provider && result.latency == c.latency &&
      result.tokensIn == c.tokensIn && result.tokensOut == c.tokensOut &&
      match Compare.ParseBoth(test.expected, c.response, decode)
      case Failure(msg) =>
        result.error == "comparison error: " + msg && !result.passed && result.diffs == []
      case Success((e, a)) =>
        result.error == "" && multiset(result.diffs) == Compare.Diffs("", e, a) &&
        (result.passed <==> result.diffs == []) && (result.passed <==> e == a)
  }

  /** The outcome of `Complete` for test `test` under the client's configuration. */
  function Outcome(config: OpenRouter.Settings, model: string, prompt: string, schema: string, test: TestCase,
                   decode: string -> Result<Json, string>, env: nat -> OpenRouter.Attempt)
    : Result<OpenRouter.CompletionResult, OpenRouter.Error>
  {
    OpenRouter.CompleteSpec(config, model, prompt, test.input, schema, decode, env).0
  }

  class Runner {
    var client: OpenRouter.Client
    var parallel: int

    /** `New(apiKey, parallel)`: a client with the default configuration. */
    constructor (apiKey: string, parallel: int)
      ensures this.parallel == ClampParallel(parallel)
      ensures fresh(client) && client.Config() == OpenRouter.Defaults(apiKey)
    {
      client := new OpenRouter.Client(apiKey, []);
      this.parallel := ClampParallel(parallel);
    }

    /** `runSingleTest`. */
    method RunSingleTest(model: string, prompt: string, schema: string, test: TestCase,
                         decode: string -> Result<Json, string>, env: nat -> OpenRouter.Attempt)
      returns (result: TestResult)
      ensures Shaped(result, test, Outcome(client.Config(), model, prompt, schema, test, decode, env), decode)
    {
      result := ZeroResult.(testName := test.name, expected := test.expected);
      var completion, _ := client.Complete(model, prompt, test.input, schema, decode, env);
      if completion.Failure? {
        result := result.(error := completion.error.Text());
        return;
      }
      var c := completion.value;
      result := result.(actual := c.response, provider := c.provider, latency := c.latency,
                        tokensIn := c.tokensIn, tokensOut := c.tokensOut);
      var diffs := Compare.Compare(test.expected, c.response, decode);
      if diffs.Failure? {
        result := result.(error := "comparison error: " + diffs.error);
        return;
      }
      result := result.(diffs := diffs.value, passed := |diffs.value| == 0);
    }

    /** `Run`: one result per test, at the test's index, then the metrics over all of them.
        `totalDuration` is the time the clock measured around the run. */
    method Run(model: string, prompt: string, schema: string, tests: seq<TestCase>,
               decode: string -> Result<Json, string>, env: nat -> nat -> OpenRouter.Attempt, totalDuration: int)
      returns (run: ModelRun)
      ensures run.model == model && |run.results| == |tests|
      ensures forall i :: 0 <= i < |tests| ==>
                Shaped(run.results[i], tests[i], Outcome(client.Config(), model, prompt, schema, tests[i], decode, env(i)), decode)
      ensures run.metrics == Metrics(model, run.results, totalDuration)
    {
      var results := new TestResult[|tests|](_ => ZeroResult);
      for i := 0 to |tests|
        invariant forall j :: 0 <= j < i ==>
                    Shaped(results[j], tests[j], Outcome(client.Config(), model, prompt, schema, tests[j], decode, env(j)), decode)
      {
        results[i] := RunSingleTest(model, prompt, schema, tests[i], decode, env(i));
      }
      var metrics := CalculateMetrics(model, results[..], totalDuration);
      run := ModelRun(model, results[..], metrics);
    }
  }

  /** `Passed` holds exactly when there is no error and no diff (client errors always carry a
      message, so an errored test is never counted as passed). */
  lemma PassedIffClean(result: TestResult, test: TestCase, config: OpenRouter.Settings, model: string, prompt: string,
                       schema: string, decode: string -> Result<Json, string>, env: nat -> OpenRouter.Attempt)
    requires OpenRouter.WellFormed(env)
    requires Shaped(result, test, Outcome(config, model, prompt, schema, test, decode, env), decode)
    ensures result.passed <==> result.error == "" && result.diffs == []
    ensures Outcome(config, model, prompt, schema, test, decode, env).Failure? ==>
              Classify(result) == Errored && result.tokensIn == 0 && result.tokensOut == 0 && result.latency == 0
  {
    var outcome := Outcome(config, model, prompt, schema, test, decode, env);
    if outcome.Failure? {
      match OpenRouter.BuildRequest(model, prompt, test.input, schema, decode)
      case Failure(e) =>
        assert e.Wrapped? && |e.context| > 0;
      case Success(body) =>
        OpenRouter.ErrorsHaveText(config, OpenRouter.NewHttpRequest(config, body), env, 0, None);
    }
  }

  // ---------------------------------------------------------------------------------------
  // Metrics

  datatype Class = Errored | Passed | Failed

  /** The classification `calculateMetrics` applies: an error first, then `Passed`. */
  function Classify(r: TestResult): Class
  {
    if r.error != "" then Errored else if r.passed then Passed else Failed
  }

  function CountClass(results: seq<TestResult>, c: Class): (n: nat)
    ensures n <= |results|
  {
    if results == [] then 0
    else CountClass(results[..|results| - 1], c) + (if Classify(results[|results| - 1]) == c then 1 else 0)
  }

  function TokensIn(results: seq<TestResult>): int
  {
    if results == [] then 0 else TokensIn(results[..|results| - 1]) + results[|results| - 1].tokensIn
  }

  function TokensOut(results: seq<TestResult>): int
  {
    if results == [] then 0 else TokensOut(results[..|results| - 1]) + results[|results| - 1].tokensOut
  }

  /** The latencies greater than zero, in result order. */
  function PositiveLatencies(results: seq<TestResult>): seq<int>
  {
    if results == [] then []
    else PositiveLatencies(results[..|results| - 1])
         + (if results[|results| - 1].latency > 0 then [results[|results| - 1].latency] else [])
  }

  function Accuracy(passed: int, total: int): real
  {
    if total > 0 then passed as real / total as real * 100.0 else 0.0
  }

  /** Tokens out per second of `totalDuration` (a count of nanoseconds). */
  function Throughput(tokensOut: int, totalDuration: int): real
  {
    if totalDuration > 0 then tokensOut as real / (totalDuration as real / 1_000_000_000.0) else 0.0
  }

  /** The percentile, computed only when there is a sample. */
  function Guarded(latencies: seq<int>, p: int): int
    requires 0 <= p
  {
    if |latencies| > 0 then Percentile(latencies, p) else 0
  }

  /** What `calculateMetrics` computes. */
  function Metrics(model: string, results: seq<TestResult>, totalDuration: int): ModelMetrics
  {
    var latencies := SortAscending(PositiveLatencies(results));
    var passed := CountClass(results, Passed);
    ModelMetrics(model, |results|, passed, CountClass(results, Failed), CountClass(results, Errored),
                 Accuracy(passed, |results|), TokensIn(results), TokensOut(results),
                 Guarded(latencies, 50), Guarded(latencies, 95), Guarded(latencies, 99),
                 totalDuration, Throughput(TokensOut(results), totalDuration))
  }

  /** `calculateMetrics`: one pass over the results, then the sort and the percentiles. */
  method CalculateMetrics(model: string, results: seq<TestResult>, totalDuration: int) returns (m: ModelMetrics)
    ensures m == Metrics(model, results, totalDuration)
  {
    var errors, passed, failed, tokensIn, tokensOut, latencies := Tally(results);
    var accuracy := 0.0;
    if |results| > 0 {
      accuracy := passed as real / |results| as real * 100.0;
    }
    assert accuracy == Accuracy(passed, |results|);
    var throughput := 0.0;
    if totalDuration > 0 {
      throughput := tokensOut as real / (totalDuration as real / 1_000_000_000.0);
    }
    assert throughput == Throughput(tokensOut, totalDuration);
    var p50, p95, p99 := 0, 0, 0;
    if |latencies| > 0 {
      latencies := SortAscending(latencies);
      p50 := Percentile(latencies, 50);
      p95 := Percentile(latencies, 95);
      p99 := Percentile(latencies, 99);
    }
    m := ModelMetrics(model, |results|, passed, failed, errors, accuracy, tokensIn, tokensOut,
                      p50, p95, p99, totalDuration, throughput);
  }

  /** The loop of `calculateMetrics`: the three counts, the token totals and the positive
      latencies, accumulated result by result. */
  method Tally(results: seq<TestResult>)
    returns (errors: int, passed: int, failed: int, tokensIn: int, tokensOut: int, latencies: seq<int>)
    ensures errors == CountClass(results, Errored) && passed == CountClass(results, Passed)
    ensures failed == CountClass(results, Failed)
    ensures tokensIn == TokensIn(results) && tokensOut == TokensOut(results)
    ensures latencies == PositiveLatencies(results)
  {
    errors, passed, failed := 0, 0, 0;
    tokensIn, tokensOut := 0, 0;
    latencies := [];
    for i := 0 to |results|
      invariant errors == CountClass(results[..i], Errored)
      invariant passed == CountClass(results[..i], Passed)
      invariant failed == CountClass(results[..i], Failed)
      invariant tokensIn == TokensIn(results[..i]) && tokensOut == TokensOut(results[..i])
      invariant latencies == PositiveLatencies(results[..i])
    {
      var r := results[i];
      Extended(results, i);
      if r.error != "" {
        errors := errors + 1;
      } else if r.passed {
        passed := passed + 1;
      } else {
        failed := failed + 1;
      }
      tokensIn := tokensIn + r.tokensIn;
      tokensOut := tokensOut + r.tokensOut;
      if r.latency > 0 {
        latencies := latencies + [r.latency];
      }
    }
    assert results[..|results|] == results;
  }

  /** How every running total changes when the loop takes one more result. */
  lemma Extended(results: seq<TestResult>, i: nat)
    requires i < |results|
    ensures CountClass(results[..i + 1], Errored) == CountClass(results[..i], Errored) + (if results[i].error != "" then 1 else 0)
    ensures CountClass(results[..i + 1], Passed) == CountClass(results[..i], Passed) + (if results[i].error == "" && results[i].passed then 1 else 0)
    ensures CountClass(results[..i + 1], Failed) == CountClass(results[..i], Failed) + (if results[i].error == "" && !results[i].passed then 1 else 0)
    ensures TokensIn(results[..i + 1]) == TokensIn(results[..i]) + results[i].tokensIn
    ensures TokensOut(results[..i + 1]) == TokensOut(results[..i]) + results[i].tokensOut
    ensures PositiveLatencies(results[..i + 1])
            == PositiveLatencies(results[..i]) + (if results[i].latency > 0 then [results[i].latency] else [])
  {
    assert results[..i + 1][..i] == results[..i];
  }

  lemma {:induction false} CountPartition(results: seq<TestResult>)
    ensures CountClass(results, Errored) + CountClass(results, Passed) + CountClass(results, Failed) == |results|
  {
    if results != [] {
      CountPartition(results[..|results| - 1]);
    }
  }

  /** Every test lands in exactly one of the three counts. */
  lemma MetricsPartition(model: string, results: seq<TestResult>, totalDuration: int)
    ensures var m := Metrics(model, results, totalDuration);
            m.errors + m.passed + m.failed == m.totalTests == |results|
  {
    CountPartition(results);
  }

  /** Accuracy is a percentage: 0 with no tests, 100 when every test passed. */
  lemma AccuracyRange(passed: int, total: int)
    requires 0 <= passed <= total
    ensures 0.0 <= Accuracy(passed, total) <= 100.0
    ensures total == 0 ==> Accuracy(passed, total) == 0.0
    ensures 0 < total == passed ==> Accuracy(passed, total) == 100.0
  {
    if total > 0 {
      assert passed as real / total as real <= 1.0;
    }
  }

  lemma AccuracyExample()
    ensures Accuracy(7, 10) == 70.0
  {
  }

  /** The percentile input holds exactly the positive latencies, in result order. */
  lemma {:induction false} PositiveLatenciesExact(results: seq<TestResult>)
    ensures forall x :: x in PositiveLatencies(results) ==> x > 0
    ensures forall i :: 0 <= i < |results| && results[i].latency > 0 ==> results[i].latency in PositiveLatencies(results)
    ensures (forall i :: 0 <= i < |results| ==> results[i].latency <= 0) <==> PositiveLatencies(results) == []
  {
    if results != [] {
      var init := results[..|results| - 1];
      PositiveLatenciesExact(init);
      assert forall i :: 0 <= i < |init| ==> init[i] == results[i];
    }
  }

  /** Without a positive latency every percentile is 0. */
  lemma NoLatencyNoPercentiles(model: string, results: seq<TestResult>, totalDuration: int)
    requires forall i :: 0 <= i < |results| ==> results[i].latency <= 0
    ensures var m := Metrics(model, results, totalDuration);
            m.latencyP50 == 0 && m.latencyP95 == 0 && m.latencyP99 == 0
  {
    PositiveLatenciesExact(results);
  }

  /** With a sample, P50 <= P95 <= P99, all within the smallest and the largest sample; the
      samples `calculateMetrics` passes are the sorted positive latencies. */
  lemma PercentilesOrdered(sorted: seq<int>)
    requires Sorted(sorted)
    ensures |sorted| > 0 ==>
              sorted[0] <= Guarded(sorted, 50) <= Guarded(sorted, 95) <= Guarded(sorted, 99) <= sorted[|sorted| - 1]
  {
    if |sorted| > 0 {
      PercentileWithin(sorted, 50);
      PercentileWithin(sorted, 99);
      PercentileMonotone(sorted, 50, 95);
      PercentileMonotone(sorted, 95, 99);
    }
  }

  // ---------------------------------------------------------------------------------------
  // Sorting and percentiles

  ghost predicate Sorted(s: seq<int>)
  {
    forall i, j :: 0 <= i <= j < |s| ==> s[i] <= s[j]
  }

  function Insert(x: int, s: seq<int>): (r: seq<int>)
    requires Sorted(s)
    ensures Sorted(r) && multiset(r) == multiset(s) + multiset{x} && |r| == |s| + 1
    ensures r[0] == x || (s != [] && r[0] == s[0])
  {
    if s == [] || x <= s[0] then [x] + s
    else
      assert s == [s[0]] + s[1..];
      var rest := Insert(x, s[1..]);
      assert s[0] <= rest[0];
      [s[0]] + rest
  }

  /** `slices.Sort`: ascending, and the same latencies. */
  function SortAscending(s: seq<int>): (r: seq<int>)
    ensures Sorted(r) && multiset(r) == multiset(s) && |r| == |s|
  {
    if s == [] then []
    else
      assert s == s[..|s| - 1] + [s[|s| - 1]];
      Insert(s[|s| - 1], SortAscending(s[..|s| - 1]))
  }

  /** Go's conversion of a float to an integer, which truncates toward zero. */
  function Trunc(x: real): (r: int)
    ensures x >= 0.0 ==> r as real <= x < r as real + 1.0
    ensures x < 0.0 ==> r as real - 1.0 < x <= r as real
  {
    if x >= 0.0 then x.Floor else -((-x).Floor)
  }

  lemma TruncMonotone(x: real, y: real)
    requires x <= y
    ensures Trunc(x) <= Trunc(y)
  {
  }

  /** The fractional rank `p/100 * (n-1)`. */
  function Rank(n: nat, p: int): real
  {
    p as real / 100.0 * (n - 1) as real
  }

  /** `percentile`: linear interpolation between the two samples around the fractional rank.
      A rank of -1 or below would index before the first sample, which Go does not survive. */
  function Percentile(sorted: seq<int>, p: int): int
    requires |sorted| <= 1 || Rank(|sorted|, p) > -1.0
  {
    if |sorted| == 0 then 0
    else if |sorted| == 1 then sorted[0]
    else
      var idx := Rank(|sorted|, p);
      var lower := Trunc(idx);
      var upper := lower + 1;
      if upper >= |sorted| then sorted[|sorted| - 1]
      else
        Trunc(Interpolate(sorted[lower], sorted[upper], idx - lower as real))
  }

  function Interpolate(lo: int, hi: int, weight: real): real
  {
    lo as real * (1.0 - weight) + hi as real * weight
  }

  lemma PercentileSmall(sorted: seq<int>, p: int)
    requires |sorted| <= 1
    ensures |sorted| == 0 ==> Percentile(sorted, p) == 0
    ensures |sorted| == 1 ==> Percentile(sorted, p) == sorted[0]
  {
  }

  lemma PercentileExample()
    ensures Percentile([10, 20, 30, 40], 50) == 25
  {
    assert Rank(4, 50) == 1.5;
    assert Trunc(1.5) == 1;
    assert Interpolate(20, 30, 0.5) == 25.0;
  }

  /** Interpolating between two integers and truncating stays between them. */
  lemma Between(lo: int, hi: int, w: real)
    requires lo <= hi && 0.0 <= w <= 1.0
    ensures lo <= Trunc(Interpolate(lo, hi, w)) <= hi
  {
    var v := Interpolate(lo, hi, w);
    assert v == lo as real + (hi - lo) as real * w;
    assert 0.0 <= (hi - lo) as real * w <= (hi - lo) as real;
    assert lo as real <= v <= hi as real;
  }

  lemma InterpolateMonotone(lo: int, hi: int, w1: real, w2: real)
    requires lo <= hi && w1 <= w2
    ensures Trunc(Interpolate(lo, hi, w1)) <= Trunc(Interpolate(lo, hi, w2))
  {
    assert Interpolate(lo, hi, w1) == lo as real + (hi - lo) as real * w1;
    assert Interpolate(lo, hi, w2) == lo as real + (hi - lo) as real * w2;
    assert (hi - lo) as real * w1 <= (hi - lo) as real * w2;
    TruncMonotone(Interpolate(lo, hi, w1), Interpolate(lo, hi, w2));
  }

  lemma RankMonotone(n: nat, p: int, q: int)
    requires 1 <= n && 0 <= p <= q
    ensures 0.0 <= Rank(n, p) <= Rank(n, q)
  {
    assert Rank(n, q) - Rank(n, p) == (q - p) as real / 100.0 * (n - 1) as real;
  }

  /** For sorted samples and 0 <= p, the percentile lies between the two samples at
      `lower = int(rank)` and `lower + 1`; past the last pair it is the largest sample. Hence it
      lies between the smallest and the largest sample. */
  lemma PercentileWithin(sorted: seq<int>, p: int)
    requires Sorted(sorted) && |sorted| >= 1 && 0 <= p
    ensures sorted[0] <= Percentile(sorted, p) <= sorted[|sorted| - 1]
    ensures |sorted| >= 2 ==> 0 <= Trunc(Rank(|sorted|, p))
    ensures |sorted| >= 2 && Trunc(Rank(|sorted|, p)) + 1 < |sorted| ==>
              sorted[Trunc(Rank(|sorted|, p))] <= Percentile(sorted, p) <= sorted[Trunc(Rank(|sorted|, p)) + 1]
    ensures |sorted| >= 2 && Trunc(Rank(|sorted|, p)) + 1 >= |sorted| ==>
              Percentile(sorted, p) == sorted[|sorted| - 1]
  {
    var n := |sorted|;
    if n >= 2 {
      var idx := Rank(n, p);
      RankMonotone(n, 0, p);
      var lower := Trunc(idx);
      if lower + 1 < n {
        Between(sorted[lower], sorted[lower + 1], idx - lower as real);
        assert Percentile(sorted, p) == Trunc(Interpolate(sorted[lower], sorted[lower + 1], idx - lower as real));
        assert sorted[0] <= sorted[lower] && sorted[lower + 1] <= sorted[n - 1];
      } else {
        assert sorted[n - 2] <= Percentile(sorted, p) <= sorted[n - 1];
      }
    }
  }

  /** A higher p never gives a smaller percentile of sorted samples. */
  lemma PercentileMonotone(sorted: seq<int>, p: int, q: int)
    requires Sorted(sorted) && |sorted| >= 1 && 0 <= p <= q
    ensures Percentile(sorted, p) <= Percentile(sorted, q)
  {
    var n := |sorted|;
    if n >= 2 {
      var ip, iq := Rank(n, p), Rank(n, q);
      RankMonotone(n, p, q);
      var lp, lq := Trunc(ip), Trunc(iq);
      TruncMonotone(ip, iq);
      if lq + 1 >= n {
        PercentileWithin(sorted, p);
      } else if lp == lq {
        InterpolateMonotone(sorted[lp], sorted[lp + 1], ip - lp as real, iq - lq as real);
      } else {
        Between(sorted[lp], sorted[lp + 1], ip - lp as real);
        Between(sorted[lq], sorted[lq + 1], iq - lq as real);
        assert sorted[lp + 1] <= sorted[lq];
      }
    }
  }
}
