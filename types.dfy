/** The records shared by the runner, the comparator and the reporters (internal/types/types.go).
    Go's `json.RawMessage` fields hold the raw JSON text as a string; durations are integers
    counting nanoseconds, as `time.Duration` does. */
module Types {

  /** A decoded JSON value, the `any` that `encoding/json` produces: nil (JSON null), bool,
      float64 (here an exact real), string, `map[string]any` and `[]any`. */
  datatype Json =
    | Null
    | Bool(b: bool)
    | Number(n: real)
    | Str(s: string)
    | Object(fields: map<string, Json>)
    | Array(items: seq<Json>)

  datatype TestCase = TestCase(name: string, input: string, expected: string)

  /** One discrepancy. Go stores nil on the absent side, which the model writes `Null`, so an
      absent field and a field holding JSON null look the same here, as they do in Go. */
  datatype FieldDiff = FieldDiff(path: string, expected: Json, actual: Json)
  {
    /** The same discrepancy seen from the other side. */
    function Swapped(): FieldDiff { FieldDiff(path, actual, expected) }
  }

  /** Go's zero values stand for the omitted fields: `actual == ""` before any response,
      `error == ""` when there was no error. */
  datatype TestResult = TestResult(
    testName: string,
    passed: bool,
    expected: string,
    actual: string,
    diffs: seq<FieldDiff>,
    error: string,
    provider: string,
    latency: int,
    tokensIn: int,
    tokensOut: int)

  /** Accuracy and throughput are float64 in Go and exact reals here. */
  datatype ModelMetrics = ModelMetrics(
    model: string,
    totalTests: int,
    passed: int,
    failed: int,
    errors: int,
    accuracy: real,
    totalTokensIn: int,
    totalTokensOut: int,
    latencyP50: int,
    latencyP95: int,
    latencyP99: int,
    totalDuration: int,
    throughput: real)

  datatype ModelRun = ModelRun(model: string, results: seq<TestResult>, metrics: ModelMetrics)
}
