/** The pure helpers of the terminal reporter (internal/reporter/terminal.go): the provider
    shown for a model, duration formatting, the status column, the clipping of names and
    values, and the scan that decides whether failure details are printed. Byte-measured
    clipping works on UTF-8 bytes, as Go's `len` and slicing of strings do. */
module Terminal {
  import Text
  import opened Types
  import Runner

  // ---------------------------------------------------------------------------------------
  // getProvider

  /** The first non-empty provider in result order, or "" when there is none. */
  function FirstProvider(results: seq<TestResult>): string
  {
    if results == [] then ""
    else if results[0].provider != "" then results[0].provider
    else FirstProvider(results[1..])
  }

  /** `getProvider`: a scan that returns at the first non-empty provider. */
  method GetProvider(results: seq<TestResult>) returns (provider: string)
    ensures provider == FirstProvider(results)
  {
    for i := 0 to |results|
      invariant FirstProvider(results) == FirstProvider(results[i..])
    {
      assert results[i..][1..] == results[i + 1..];
      if results[i].provider != "" {
        return results[i].provider;
      }
    }
    assert results[|results|..] == [];
    return "";
  }

  /** "" exactly when every provider is empty; otherwise the provider of some result, and
      every result before it has none. */
  lemma {:induction false} FirstProviderSpec(results: seq<TestResult>)
    ensures FirstProvider(results) == "" <==> forall i :: 0 <= i < |results| ==> results[i].provider == ""
    ensures FirstProvider(results) != "" ==>
              exists i :: 0 <= i < |results| && results[i].provider == FirstProvider(results) &&
                          forall j :: 0 <= j < i ==> results[j].provider == ""
  {
    if results != [] && results[0].provider == "" {
      var rest := results[1..];
      FirstProviderSpec(rest);
      assert forall i :: 0 < i < |results| ==> results[i] == rest[i - 1];
      if FirstProvider(rest) != "" {
        var k :| 0 <= k < |rest| && rest[k].provider == FirstProvider(rest) &&
                 forall j :: 0 <= j < k ==> rest[j].provider == "";
        assert results[k + 1].provider == FirstProvider(results);
        assert forall j :: 0 <= j < k + 1 ==> results[j].provider == "";
      }
    }
  }

  // ---------------------------------------------------------------------------------------
  // formatDuration

  const Microsecond: int := 1_000
  const Millisecond: int := 1_000_000
  const Second: int := 1_000_000_000

  /** Two decimal digits of `n < 100`, as `%.2f` prints the fraction. */
  function TwoDigits(n: nat): (s: string)
    requires n < 100
    ensures |s| == 2 && Text.IsDigit(s[0]) && Text.IsDigit(s[1])
    ensures (s[0] as int - '0' as int) * 10 + (s[1] as int - '0' as int) == n
  {
    [Text.DigitChar(n / 10), Text.DigitChar(n % 10)]
  }

  /** `formatDuration`: whole microseconds below a millisecond, whole milliseconds below a
      second (`Microseconds()` and `Milliseconds()` truncate toward zero), otherwise seconds
      with two decimals, rounded half up from the exact value. */
  function FormatDuration(d: int): string
  {
    if d < Millisecond then Text.IntToString(Text.GoQuo(d, Microsecond)) + "µs"
    else if d < Second then Text.IntToString(Text.GoQuo(d, Millisecond)) + "ms"
    else
      var centis := (d * 100 + Second / 2) / Second;
      Text.IntToString(centis / 100) + "." + TwoDigits(centis % 100) + "s"
  }

  /** The unit follows the magnitude, and the number printed before the unit reads back as the
      duration in that unit, truncated toward zero. */
  lemma FormatDurationUnits(d: int)
    ensures var r := FormatDuration(d);
            d < Millisecond ==> Text.EndsWith(r, "µs") && Text.ParseInt(r[..|r| - 2]) == Text.GoQuo(d, Microsecond)
    ensures var r := FormatDuration(d);
            Millisecond <= d < Second ==>
              Text.EndsWith(r, "ms") && Text.ParseInt(r[..|r| - 2]) == d / Millisecond && 1 <= d / Millisecond < 1000
    ensures var r := FormatDuration(d);
            d >= Second ==> Text.EndsWith(r, "s") && !Text.EndsWith(r, "ms") && !Text.EndsWith(r, "µs")
  {
    var r := FormatDuration(d);
    if d < Millisecond {
      var n := Text.IntToString(Text.GoQuo(d, Microsecond));
      assert r[..|r| - 2] == n;
      Text.ParseIntToString(Text.GoQuo(d, Microsecond));
    } else if d < Second {
      var n := Text.IntToString(Text.GoQuo(d, Millisecond));
      assert r[..|r| - 2] == n;
      Text.ParseIntToString(Text.GoQuo(d, Millisecond));
    } else {
      var centis := (d * 100 + Second / 2) / Second;
      var digits := TwoDigits(centis % 100);
      assert r[|r| - 2] == digits[1];
      assert r[|r| - 2..] != "ms" && r[|r| - 2..] != "µs";
    }
  }

  lemma FormatDurationExamples()
    ensures FormatDuration(250_000) == "250µs"
    ensures FormatDuration(-1_500) == "-1µs"
    ensures FormatDuration(1_500_000) == "1ms"
    ensures FormatDuration(1_234_000_000) == "1.23s"
  {
    assert Text.GoQuo(250_000, Microsecond) == 250;
    assert Text.NatToString(25) == "25";
    assert Text.IntToString(250) == "250";
    assert Text.GoQuo(-1_500, Microsecond) == -1;
    assert Text.IntToString(-1) == "-1";
    assert Text.GoQuo(1_500_000, Millisecond) == 1;
    assert Text.IntToString(1) == "1";
    assert (1_234_000_000 * 100 + Second / 2) / Second == 123;
    assert TwoDigits(23) == "23";
  }

  // ---------------------------------------------------------------------------------------
  // The results table and the failure details

  datatype Status = Pass | Fail | Error

  /** The status column of `printResultsTable`: an error wins over `Passed`. */
  function RowStatus(r: TestResult): Status
  {
    if r.error != "" then Error else if !r.passed then Fail else Pass
  }

  /** An error shows ERROR whatever `Passed` says; otherwise a test that did not pass shows
      FAIL. The row shows the same outcome the metrics count that result under. */
  lemma RowStatusMatchesMetrics(r: TestResult)
    ensures RowStatus(r) == Error <==> r.error != ""
    ensures RowStatus(r) == Fail <==> r.error == "" && !r.passed
    ensures RowStatus(r) == Error <==> Runner.Classify(r) == Runner.Errored
    ensures RowStatus(r) == Fail <==> Runner.Classify(r) == Runner.Failed
    ensures RowStatus(r) == Pass <==> Runner.Classify(r) == Runner.Passed
  {
  }

  /** The bytes of "...". */
  const Dots: seq<Text.Byte> := [46, 46, 46]

  /** Byte clipping: text longer than `limit` bytes keeps its first `limit - 3` bytes and gets
      "..." appended. */
  function Clip(b: seq<Text.Byte>, limit: nat): seq<Text.Byte>
    requires limit >= 3
  {
    if |b| > limit then b[..limit - 3] + Dots else b
  }

  lemma ClipShape(b: seq<Text.Byte>, limit: nat)
    requires limit >= 3
    ensures |b| <= limit ==> Clip(b, limit) == b
    ensures |b| > limit ==> |Clip(b, limit)| == limit && Clip(b, limit)[..limit - 3] == b[..limit - 3]
                            && Text.EndsWith(Clip(b, limit), Dots)
    ensures |Clip(b, limit)| <= limit
  {
  }

  /** The test name column: at most 40 bytes. */
  function ShortName(name: string): seq<Text.Byte>
  {
    Clip(Text.Utf8Encode(name), 40)
  }

  /** A name longer than 40 bytes becomes its first 37 bytes and "...", exactly 40 bytes. */
  lemma ShortNameShape(name: string)
    ensures |Text.Utf8Encode(name)| <= 40 ==> ShortName(name) == Text.Utf8Encode(name)
    ensures |Text.Utf8Encode(name)| > 40 ==>
              |ShortName(name)| == 40 && ShortName(name)[..37] == Text.Utf8Encode(name)[..37] &&
              ShortName(name)[37..] == Dots
  {
  }

  /** `formatValue`: a nil value is `<missing>`; anything else is its `%v` rendering, given as
      `rendered`, clipped to 60 bytes. */
  function FormatValue(v: Json, rendered: string): seq<Text.Byte>
  {
    if v.Null? then Text.Utf8Encode("<missing>") else Clip(Text.Utf8Encode(rendered), 60)
  }

  lemma FormatValueShape(v: Json, rendered: string)
    ensures v.Null? ==> FormatValue(v, rendered) == Text.Utf8Encode("<missing>")
    ensures !v.Null? && |Text.Utf8Encode(rendered)| <= 60 ==> FormatValue(v, rendered) == Text.Utf8Encode(rendered)
    ensures !v.Null? && |Text.Utf8Encode(rendered)| > 60 ==>
              |FormatValue(v, rendered)| == 60 && FormatValue(v, rendered)[..57] == Text.Utf8Encode(rendered)[..57]
  {
  }

  /** Whether a result counts as a failure for the details section. */
  predicate NeedsDetails(r: TestResult)
  {
    r.error != "" || !r.passed
  }

  /** The scan in `printFailureDetails`, which stops at the first failing result. */
  method HasFailures(results: seq<TestResult>) returns (hasFailures: bool)
    ensures hasFailures <==> exists i :: 0 <= i < |results| && NeedsDetails(results[i])
  {
    hasFailures := false;
    var i := 0;
    while i < |results|
      invariant 0 <= i <= |results|
      invariant !hasFailures && forall j :: 0 <= j < i ==> !NeedsDetails(results[j])
    {
      if NeedsDetails(results[i]) {
        hasFailures := true;
        break;
      }
      i := i + 1;
    }
  }

  /** The details section appears exactly when the metrics count a failed or errored test. */
  lemma {:induction false} DetailsIffCounted(results: seq<TestResult>)
    ensures (exists i :: 0 <= i < |results| && NeedsDetails(results[i])) <==>
              Runner.CountClass(results, Runner.Failed) + Runner.CountClass(results, Runner.Errored) > 0
  {
    if results != [] {
      var init := results[..|results| - 1];
      DetailsIffCounted(init);
      assert forall i :: 0 <= i < |init| ==> init[i] == results[i];
      if exists i :: 0 <= i < |results| && NeedsDetails(results[i]) {
        var i :| 0 <= i < |results| && NeedsDetails(results[i]);
        if i < |init| {
          assert NeedsDetails(init[i]);
        }
      }
    }
  }
}
