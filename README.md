# litmus, modelled in Dafny

litmus is a command-line tool that checks how well large language models produce structured
output. A test file lists cases, each with an input and the JSON the model is expected to
return. litmus sends every case to a model through the OpenRouter chat completions API with
a strict JSON schema. It compares the returned JSON with the expected JSON field by field and
reports pass, fail or error per case. It also reports accuracy, token totals and latency
percentiles per model.

This project models the core of litmus and proves properties of that model:

- `compare.dfy` (module `Compare`): the structural JSON comparator. The methods
  `Compare`, `CompareValues`, `CompareObjects` (with its two passes, `ExpectedPass` and
  `ExtraPass`) and `CompareArrays` append path-tagged diffs to a sequence accumulator.
  - Go visits map keys in an unspecified order. The methods pick the next key
    nondeterministically.
  - They are proved against the ghost multiset function `Diffs`.
  - Reflexivity, one-sided diffs, counts and swap symmetry are lemmas about `Diffs`.
- `openrouter.dfy` (module `OpenRouter`): the completion client.
  - The class `Client` holds the mutable configuration that `NewClient` and its options
    update. Its `Complete` method runs the retry loop over an oracle of per-attempt
    outcomes and returns a trace of waits and sends.
  - Request construction is modelled, and so is `doRequest`'s acceptance and extraction of
    a response.
- `runner.dfy` (module `Runner`): the test runner.
  - The class `Runner` has `RunSingleTest` (result shaping).
  - Its `Run` fills a pre-sized array at each test's index.
  - `CalculateMetrics` (with its loop `Tally`) is proved against the function `Metrics`.
  - `Percentile` interpolates over reals.
- `terminal.dfy` (module `Terminal`): the pure helpers of the terminal reporter.
  - The provider scan and the duration format.
  - The row status.
  - Byte clipping of names and values.
  - The scan that decides whether failure details are printed.
- `util.dfy` (module `Util`): the rune-based `Truncate`.
- `buildinfo.dfy` (module `BuildInfo`): the version string.
- `types.dfy`, `text.dfy`, `wrappers.dfy`:
  - the record types of `internal/types/types.go`;
  - decimal rendering and parsing, Go's truncating division and a UTF-8 encoder;
  - `Option` and `Result`.

Conventions:

- Durations are integer nanoseconds.
- Go strings are Dafny strings (sequences of runes). Where Go measures or slices a string
  in bytes, the model works on its UTF-8 encoding (`Text.Utf8Encode`).
- Decoding JSON (`json.Unmarshal`) is a parameter `decode: string -> Result<Json, string>`.
- The outcome of each HTTP exchange, and whether the context ended, come from an oracle
  `env`.

## Model

| member | source | states |
|---|---|---|
| Compare.JoinPath | internal/compare/compare.go:134-139 | the root contributes nothing; otherwise the base, one dot, then the key |
| Compare.PathOrRoot | internal/compare/compare.go:142-147 | the empty path is reported as "(root)"; a non-empty path is kept as is; so a reported path is never empty |
| Compare.IndexPath | internal/compare/compare.go:113 | an element path is the parent path, `[`, the decimal index and `]` (a bare `[i]` at the root) |
| Compare.IndexPathInjective | internal/compare/compare.go:112-113 | distinct indices under one parent get distinct paths |
| Compare.ParseBoth | internal/compare/compare.go:15-23 | the definition of the parse step: expected is parsed first, and each side's failure carries its own prefix; Compare's contract states its outcome |
| Compare.Diffs | internal/compare/compare.go:31-131 | the reference definition of what `compareValues` appends, as a multiset: nil/nil nothing, one full-context diff for a nil side or a kind mismatch, the two object passes, the indices of the arrays, a scalar diff when the scalars differ; its properties are NoDiffsIffEqual, DiffsSymmetric, ExpectedPassReports, ExtraPassReports and ArrayLengthMismatch |
| Compare.Compare | internal/compare/compare.go:14-28 | a parse error gives an error and no diff list; otherwise the diffs are exactly Diffs("", e, a) as a multiset, and the list is empty iff the two decoded values are equal |
| Compare.CompareValues | internal/compare/compare.go:31-77 | keeps the earlier diffs as a prefix; appends exactly Diffs(path, e, a); a single full-context diff at pathOrRoot(path) when exactly one side is nil or the kinds differ, without recursion; nothing appended iff the values are equal |
| Compare.CompareSameKind | internal/compare/compare.go:58-76 | for two non-nil values of one kind: appends Diffs, recursing into objects and arrays and comparing scalars by value |
| Compare.CompareObjects | internal/compare/compare.go:80-106 | the first-pass diffs all come before the second-pass diffs, and each part is its pass's multiset |
| Compare.ExpectedPass | internal/compare/compare.go:82-93 | appends, over all keys of expected in any order, the recursive diffs (key in actual) or a diff with actual nil (key missing) |
| Compare.ExtraPass | internal/compare/compare.go:95-105 | appends one diff with expected nil for each key only actual has |
| Compare.CompareArrays | internal/compare/compare.go:109-131 | appends, for each index below max(len), the element diffs or a one-sided diff at path[i]; ghost cuts split the appended diffs into one segment per index, in increasing index order |
| Compare.CompareElement | internal/compare/compare.go:113-129 | at index i: a diff with expected nil past the end of expected, one with actual nil past the end of actual, otherwise the element diffs |
| Compare.ObjectDiffsByKey | internal/compare/compare.go:80-106 | the two passes together contribute exactly one share per key of either object |
| Compare.NoDiffsIffEqual | internal/compare/compare.go:31-131 | no diff iff the two values are equal (reflexivity and its converse) |
| Compare.ObjectsNoDiffsIffEqual | internal/compare/compare.go:80-106 | two objects give no diff iff they have the same keys and equal values |
| Compare.ArraysNoDiffsIffEqual | internal/compare/compare.go:109-131 | two arrays give no diff iff they have the same length and equal elements |
| Compare.DiffsSymmetric | internal/compare/compare.go:31-147 | swapping expected and actual gives the same multiset of diffs with the two sides exchanged |
| Compare.ObjectsSymmetric | internal/compare/compare.go:80-106 | swap symmetry for objects: a key's diff may move from one pass to the other |
| Compare.KeySymmetric | internal/compare/compare.go:82-105 | swap symmetry for the share of one key |
| Compare.ArraysSymmetric | internal/compare/compare.go:109-131 | swap symmetry for arrays, index by index |
| Compare.ExpectedPassReports | internal/compare/compare.go:82-93 | a key of expected missing from actual is reported at joinPath(path, key) with actual nil; a key in both contributes its recursive diffs |
| Compare.ExtraPassReports | internal/compare/compare.go:95-105 | the second pass has exactly one diff per key only actual has, with expected nil, and no other diff |
| Compare.ArrayLengthMismatch | internal/compare/compare.go:109-127 | each index past the shorter array gives a one-sided diff at path[i]; there are at least as many diffs as the length difference |
| Compare.ArrayExample | internal/compare/compare.go:109-131 | `[1,2]` against `[1]` gives exactly one diff, at `[1]` with actual nil |
| Compare.ArrayExampleReversed | internal/compare/compare.go:109-131 | `[1]` against `[1,2]` gives exactly one diff, at `[1]` with expected nil |
| Compare.ObjectExample | internal/compare/compare.go:95-105 | `{"a":1}` against `{"a":1,"b":2}` gives one diff at `b` with expected nil |
| Compare.NullValueVersusMissingKey | internal/compare/compare.go:84-92 | a key holding null matches a key holding null, while a missing key yields a diff whose two sides are both nil |
| Compare.EmptyKeyAtRoot | internal/compare/compare.go:83-91 | a missing empty key at the root is reported at the empty path, because the missing-key diff does not go through pathOrRoot |
| OpenRouter.Defaults | internal/openrouter/client.go:14-19 | the defaults are 3 retries, a 1 s delay, a 120 s timeout and the OpenRouter base URL |
| OpenRouter.ApplyOption | internal/openrouter/client.go:33-60 | no option changes the API key |
| OpenRouter.ApplyOptions | internal/openrouter/client.go:71-73 | the reference definition of the options loop: each option applied in turn to the configuration; its properties are LaterOptionsOverride and NoOptionsGiveDefaults |
| OpenRouter.LaterOptionsOverride | internal/openrouter/client.go:63-75 | options apply in order: each field ends with the value of the last option that sets it, or its default |
| OpenRouter.NoOptionsGiveDefaults | internal/openrouter/client.go:63-70 | a client built without options has exactly the default configuration |
| OpenRouter.Client.constructor | internal/openrouter/client.go:63-75 | the configuration is the defaults with each option applied in turn |
| OpenRouter.Client.Apply | internal/openrouter/client.go:33-60 | one option closure called on the client changes its configuration as that option says |
| OpenRouter.Client.Complete | internal/openrouter/client.go:148-198 | the result and the trace of waits and sends are those of CompleteSpec, about which the lemmas below are proved |
| OpenRouter.Error.Text | internal/openrouter/client.go:162 | a wrapped error's message starts with its context |
| OpenRouter.BuildRequest | internal/openrouter/client.go:149-172 | an invalid schema gives "failed to wrap schema"; otherwise the request has the model, the two messages (system, then user), type json_schema, and a strict wrapper named response holding the caller's schema |
| OpenRouter.NewHttpRequest | internal/openrouter/client.go:206-214 | a POST to baseURL + "/chat/completions" with the JSON content type and the Bearer API key |
| OpenRouter.DoRequest | internal/openrouter/client.go:200-252 | success iff status 200, the body decodes and there is a choice; on success the first choice's content, the provider, the usage and the latency; for any other status the API-error message with status and body; every failure has a non-empty message that is not a context error |
| OpenRouter.Only200Accepted | internal/openrouter/client.go:230-232 | no 2xx status other than 200 is accepted |
| OpenRouter.Attempts | internal/openrouter/client.go:174-197 | the reference definition of the retry loop from attempt k on, returning the outcome and the trace of waits and sends; its properties are PacedSchedule, AttemptsBounded, SuccessIsLastSend, FirstSuccessReturned, CancellationStops, FirstCancellationReturned and ExhaustionWrapsLastError |
| OpenRouter.CompleteSpec | internal/openrouter/client.go:148-198 | the reference definition of `Complete`: the request is built, then Attempts runs from attempt 0; Client.Complete is proved equal to it, and ErrorsHaveText states its errors' messages |
| OpenRouter.PacedSchedule | internal/openrouter/client.go:177-195 | the trace is a prefix of the reference schedule: no wait before the first attempt, a wait of exactly retryDelay*k before attempt k > 0, the same request every time |
| OpenRouter.AttemptsBounded | internal/openrouter/client.go:177-197 | at most maxRetries requests are sent; with maxRetries <= 0 none are, and an error is returned |
| OpenRouter.SuccessIsLastSend | internal/openrouter/client.go:186-189 | whenever the loop succeeds, its last event is the request of an attempt below maxRetries and the result is that attempt's response |
| OpenRouter.CancellationStops | internal/openrouter/client.go:177-195 | whenever the loop returns a context error, the trace ends where that error was seen: at the wait of retryDelay*j before some attempt j > 0, or at the request of an attempt j that failed |
| OpenRouter.FirstSuccessReturned | internal/openrouter/client.go:177-189 | when attempts k..j-1 failed with the context live and attempt j is accepted, the result is j's response and the trace is the schedule up to j, then j's wait and request: no later attempt runs |
| OpenRouter.FirstCancellationReturned | internal/openrouter/client.go:177-195 | when attempts k..j-1 failed with the context live, a context that ends in the wait before attempt j > 0 returns that error with the trace ending in that wait, and one that has ended when attempt j fails returns that error with the trace ending in j's request: no later attempt runs |
| OpenRouter.ExhaustionWrapsLastError | internal/openrouter/client.go:177-197 | when every attempt fails with the context live, all maxRetries attempts run on schedule and the error wraps the final attempt's error |
| OpenRouter.ErrorsHaveText | internal/openrouter/client.go:148-198 | every error Complete returns has a non-empty message |
| Runner.ClampParallel | internal/runner/runner.go:28-30 | the parallelism is at least 1 and is kept when already positive |
| Runner.Runner.constructor | internal/runner/runner.go:27-35 | a clamped parallelism and a new client with the default configuration |
| Runner.Runner.RunSingleTest | internal/runner/runner.go:102-131 | a client error: only the name, the expected text and the error are set; a comparison error: "comparison error: " prefix, completion data kept, not passed; otherwise the comparator's diffs, and passed iff no diff iff the values are equal |
| Runner.Runner.Run | internal/runner/runner.go:69-99 | exactly one result per test, result i built from tests[i] (its name and expected text), and the metrics of the whole result list |
| Runner.PassedIffClean | internal/runner/runner.go:108-130 | passed iff no error and no diff; a client error is counted as errored with zero tokens and latency |
| Runner.Classify | internal/runner/runner.go:143-151 | the class a result is counted in: errored when it has an error, else passed or failed; its properties are PassedIffClean, CountPartition and RowStatusMatchesMetrics |
| Runner.CountClass | internal/runner/runner.go:143-151 | a count never exceeds the number of results |
| Runner.Metrics | internal/runner/runner.go:134-178 | the reference definition of the metrics: counts by class, token sums, accuracy, throughput and the three percentiles of the sorted positive latencies; its properties are MetricsPartition, AccuracyRange, NoLatencyNoPercentiles and PercentilesOrdered |
| Runner.CalculateMetrics | internal/runner/runner.go:134-178 | the metrics are those of Metrics: counts by class with error first, token sums, accuracy, throughput and percentiles of the sorted positive latencies |
| Runner.Tally | internal/runner/runner.go:143-158 | the loop yields the class counts, the token sums and the positive latencies in order |
| Runner.CountPartition | internal/runner/runner.go:143-151 | every result falls in exactly one class |
| Runner.MetricsPartition | internal/runner/runner.go:137-151 | errors + passed + failed == total tests == number of results |
| Runner.AccuracyRange | internal/runner/runner.go:160-162 | accuracy is between 0 and 100, is 0 with no tests and is 100 when all pass |
| Runner.AccuracyExample | internal/runner/runner.go:160-162 | 7 passed of 10 gives 70 |
| Runner.PositiveLatenciesExact | internal/runner/runner.go:155-157 | only latencies greater than 0 are kept, all of them are, and the list is empty iff none is positive |
| Runner.NoLatencyNoPercentiles | internal/runner/runner.go:168-175 | with no positive latency every percentile is 0 |
| Runner.PercentilesOrdered | internal/runner/runner.go:169-175 | for a sample, min <= P50 <= P95 <= P99 <= max |
| Runner.SortAscending | internal/runner/runner.go:170 | the result is sorted and a permutation of its input |
| Runner.Trunc | internal/runner/runner.go:190 | a float-to-int conversion truncates toward zero |
| Runner.Percentile | internal/runner/runner.go:181-199 | linear interpolation between the samples at int(p/100*(n-1)) and the next one, the last sample past the end; its properties are PercentileSmall, PercentileWithin and PercentileMonotone |
| Runner.PercentileSmall | internal/runner/runner.go:182-187 | an empty sample gives 0 and a singleton gives its element |
| Runner.PercentileExample | internal/runner/runner.go:181-199 | [10,20,30,40] at p=50 gives 25 |
| Runner.PercentileWithin | internal/runner/runner.go:189-198 | for sorted input and lower = int(p/100*(n-1)): lower >= 0; when lower+1 < n the percentile lies between sorted[lower] and sorted[lower+1]; otherwise it is the last sample; always within [min, max] |
| Runner.PercentileMonotone | internal/runner/runner.go:189-198 | a higher p never gives a lower percentile |
| Util.Truncate | internal/util/util.go:5-11 | the definition on runes; its properties are TruncateShape, TruncateBound, TruncateIdempotent and TruncateExample |
| Util.TruncateShape | internal/util/util.go:6-10 | a string of at most maxLen runes is unchanged; a longer one becomes its first maxLen-3 runes and "..." |
| Util.TruncateBound | internal/util/util.go:6-10 | for maxLen >= 3 the result has at most maxLen runes, exactly maxLen when the input had at least that many |
| Util.TruncateIdempotent | internal/util/util.go:5-11 | truncating twice is truncating once, for maxLen >= 3 |
| Util.TruncateExample | internal/util/util.go:5-11 | a 36-rune model name at 30 keeps 27 runes and "..."; a short name is unchanged |
| BuildInfo.String | internal/buildinfo/buildinfo.go:15-20 | the definition on UTF-8 bytes: the version alone for an unknown or short commit, otherwise version, " (", seven bytes of the commit and ")"; its properties are StringShape, StringAscii and DefaultsExample |
| BuildInfo.StringShape | internal/buildinfo/buildinfo.go:15-20 | the result starts with the version; it is the version alone for an unknown or short commit; otherwise it is 10 bytes longer |
| BuildInfo.StringAscii | internal/buildinfo/buildinfo.go:19 | with an ASCII commit the result is version + " (" + the first 7 characters + ")" |
| BuildInfo.DefaultsExample | internal/buildinfo/buildinfo.go:6-20 | the unset build gives "dev" |
| Terminal.FirstProvider | internal/reporter/terminal.go:211-218 | the reference definition of the provider scan: the first non-empty provider in result order, or ""; its property is FirstProviderSpec, and GetProvider is proved equal to it |
| Terminal.GetProvider | internal/reporter/terminal.go:211-218 | returns the first non-empty provider in result order (FirstProvider) |
| Terminal.FirstProviderSpec | internal/reporter/terminal.go:211-218 | "" iff every provider is empty; otherwise the provider of some result that only empty ones precede |
| Terminal.FormatDuration | internal/reporter/terminal.go:189-197 | the definition: microseconds below 1 ms, milliseconds below 1 s, otherwise seconds with two decimals; its properties are FormatDurationUnits and FormatDurationExamples |
| Terminal.FormatDurationUnits | internal/reporter/terminal.go:189-197 | below 1 ms whole microseconds with µs, from 1 ms to 1 s whole milliseconds (1..999) with ms, and seconds otherwise; the number reads back as the truncated value |
| Terminal.FormatDurationExamples | internal/reporter/terminal.go:189-197 | 250000 ns is "250µs", 1.5 ms is "1ms", 1.234 s is "1.23s" |
| Terminal.RowStatus | internal/reporter/terminal.go:112-117 | the definition of the status column; its property is RowStatusMatchesMetrics |
| Terminal.RowStatusMatchesMetrics | internal/reporter/terminal.go:112-117 | an error gives ERROR whatever Passed says, else not passed gives FAIL, else PASS; the same class the metrics count |
| Terminal.Clip | internal/reporter/terminal.go:120-121 | the byte clipping shared by names and values; its property is ClipShape |
| Terminal.ShortName | internal/reporter/terminal.go:119-122 | the name clipped at 40 bytes; its property is ShortNameShape |
| Terminal.ClipShape | internal/reporter/terminal.go:120-121 | text within the limit is unchanged; longer text is its first limit-3 bytes and "...", exactly limit bytes |
| Terminal.ShortNameShape | internal/reporter/terminal.go:119-122 | a name over 40 bytes becomes its first 37 bytes and "...", exactly 40 bytes; a shorter one is unchanged |
| Terminal.FormatValue | internal/reporter/terminal.go:199-208 | "<missing>" for nil, otherwise the rendering clipped at 60 bytes; its property is FormatValueShape |
| Terminal.FormatValueShape | internal/reporter/terminal.go:199-208 | nil is "<missing>"; a rendering over 60 bytes becomes its first 57 bytes and "..." |
| Terminal.HasFailures | internal/reporter/terminal.go:135-141 | true iff some result has an error or did not pass |
| Terminal.DetailsIffCounted | internal/reporter/terminal.go:135-145 | the failure details appear iff the metrics count a failed or errored test |

## Left out

- Concurrency in `Run`: the goroutines, the semaphore and the WaitGroup. Each goroutine writes only its own slot, so the model fills the slots in index order. The "at most `parallel` in flight" bound is not modelled.
- The network and transport of `doRequest`: marshalling, request creation, `httpClient.Do`, reading the body and decoding it. Each of these is an `Exchange` case supplied by an oracle, and the measured latency is a field of it.
- The clock and `time.After`: backoff waits are recorded as `Wait` events in a trace, and `totalDuration` is a parameter of `Run`.
- The context: whether it ended during a wait or by the time an attempt failed comes from the per-attempt oracle. One oracle per test is used, so the model does not force the same cancellation across tests.
- Map iteration order: object passes are specified up to order, as multisets. Array indices keep their order (CompareArrays' ghost cuts).
- Strings that are not valid UTF-8: a Go string may hold any bytes, a Dafny string holds only characters. How `[]rune(s)` in `Truncate` turns each invalid byte into U+FFFD, and the byte slicing of `shortName`, `formatValue` and `String` on such strings, is not modelled.
- `WithHTTPClient(nil)`: `HttpClient` is a value that cannot be nil, so the nil dereference this option leads to in Go is not modelled.
- `internal/runner/runner.go`'s `LoadTestFile` and `LoadSchema`: file I/O.
- `encoding/json`, `reflect.TypeOf` and `reflect.DeepEqual`:
  - decoding is a parameter;
  - numbers are a single kind compared by value, as Go decodes every JSON number to float64;
  - JSON null and a Go nil are both `Null`.
- OpenRouter.BuildRequest: the marshalled schema wrapper is modelled as the decoded schema value. Marshalling of a nil or empty `RawMessage` schema, which Go renders as `null` or rejects, is not distinguished from `decode` failing or succeeding.
- OpenRouter.Client.Apply: `WithTimeout` changes the timeout of the client's own `HttpClient` value. In Go it writes through a pointer that another client or the caller may share, and that aliasing is not modelled.
- Floating point:
  - accuracy, throughput, percentile interpolation and the float64 conversions are computed over reals, with truncation toward zero written out;
  - no float64 rounding is claimed;
  - Runner.Throughput divides by the duration in seconds exactly.
- Terminal.FormatDuration: the seconds branch rounds half up to hundredths of the exact value, which can differ from `%.2f` on float64 at exact ties.
- Integer widths: Go's `int` and `time.Duration` are 64-bit, and the model uses unbounded integers, so token sums and `retryDelay*attempt` never wrap.
- The terminal reporter's `Report`, the table and colour rendering, the comparison table and the accuracy colour thresholds: UI output.
  - `formatValue`'s `%v` rendering is a parameter; only its nil case and its clipping are modelled.
- The rest of `types.go`: `RunReport`, which only feeds the reporters, is not modelled.
- The CLI (`internal/cli`), the HTML and JSON reporters, and the documentation site configuration: plumbing over libraries.
