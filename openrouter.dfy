/** The OpenRouter completion client (internal/openrouter/client.go): client construction from
    defaults and options, request construction, acceptance of a response, and the retry loop.

    The network is not modelled. What one attempt experiences is an `Attempt`, supplied by an
    oracle `env` indexed by the attempt number: whether the context ended during the backoff
    wait, what the HTTP exchange produced, and whether the context had ended once the attempt
    had failed. Waiting is recorded in a trace rather than performed. */
module OpenRouter {
  import opened Wrappers
  import Text
  import opened Types

  // ---------------------------------------------------------------------------------------
  // Client configuration

  /** `time.Second`, in nanoseconds; every duration below is a count of nanoseconds. */
  const Second: int := 1_000_000_000
  const DefaultBaseURL: string := "https://openrouter.ai/api/v1"
  const DefaultMaxRetries: int := 3
  const DefaultRetryDelay: int := Second
  const DefaultTimeout: int := 120 * Second

  /** The part of `*http.Client` the options touch. */
  datatype HttpClient = HttpClient(timeout: int)

  /** The configurable fields of `Client`, as a value. */
  datatype Settings = Settings(httpClient: HttpClient, apiKey: string, baseURL: string,
                               maxRetries: int, retryDelay: int)

  /** The `Option` closures `WithBaseURL`, `WithHTTPClient`, `WithRetry` and `WithTimeout`. */
  datatype ClientOption =
    | WithBaseURL(url: string)
    | WithHTTPClient(client: HttpClient)
    | WithRetry(maxRetries: int, retryDelay: int)
    | WithTimeout(timeout: int)

  /** What `NewClient` starts from before applying any option. */
  function Defaults(apiKey: string): (s: Settings)
    ensures s.apiKey == apiKey && s.baseURL == DefaultBaseURL
    ensures s.maxRetries == 3 && s.retryDelay == Second && s.httpClient.timeout == 120 * Second
  {
    Settings(HttpClient(DefaultTimeout), apiKey, DefaultBaseURL, DefaultMaxRetries, DefaultRetryDelay)
  }

  /** One option applied to the configuration; no option changes the API key. */
  function ApplyOption(s: Settings, o: ClientOption): (r: Settings)
    ensures r.apiKey == s.apiKey
  {
    match o
    case WithBaseURL(url) => s.(baseURL := url)
    case WithHTTPClient(c) => s.(httpClient := c)
    case WithRetry(n, d) => s.(maxRetries := n, retryDelay := d)
    case WithTimeout(t) => s.(httpClient := s.httpClient.(timeout := t))
  }

  /** The options applied in the order given. */
  function ApplyOptions(s: Settings, opts: seq<ClientOption>): Settings
    decreases |opts|
  {
    if opts == [] then s else ApplyOptions(ApplyOption(s, opts[0]), opts[1..])
  }

  lemma {:induction false} ApplyOptionsSnoc(s: Settings, opts: seq<ClientOption>, o: ClientOption)
    ensures ApplyOptions(s, opts + [o]) == ApplyOption(ApplyOptions(s, opts), o)
    decreases |opts|
  {
    if opts != [] {
      assert (opts + [o])[1..] == opts[1..] + [o];
      ApplyOptionsSnoc(ApplyOption(s, opts[0]), opts[1..], o);
    }
  }

  // Reference definitions: the value each field ends with is set by the LAST option that
  // touches it, scanning from the end.

  function FinalBaseURL(start: string, opts: seq<ClientOption>): string
  {
    if opts == [] then start
    else if opts[|opts| - 1].WithBaseURL? then opts[|opts| - 1].url
    else FinalBaseURL(start, opts[..|opts| - 1])
  }

  function FinalRetry(start: (int, int), opts: seq<ClientOption>): (int, int)
  {
    if opts == [] then start
    else if opts[|opts| - 1].WithRetry? then (opts[|opts| - 1].maxRetries, opts[|opts| - 1].retryDelay)
    else FinalRetry(start, opts[..|opts| - 1])
  }

  function FinalTimeout(start: int, opts: seq<ClientOption>): int
  {
    if opts == [] then start
    else if opts[|opts| - 1].WithTimeout? then opts[|opts| - 1].timeout
    else if opts[|opts| - 1].WithHTTPClient? then opts[|opts| - 1].client.timeout
    else FinalTimeout(start, opts[..|opts| - 1])
  }

  /** Options are applied in order, so for every field a later option overrides an earlier
      one, and a field no option touches keeps its default. */
  lemma {:induction false} LaterOptionsOverride(s: Settings, opts: seq<ClientOption>)
    ensures ApplyOptions(s, opts).apiKey == s.apiKey
    ensures ApplyOptions(s, opts).baseURL == FinalBaseURL(s.baseURL, opts)
    ensures (ApplyOptions(s, opts).maxRetries, ApplyOptions(s, opts).retryDelay)
            == FinalRetry((s.maxRetries, s.retryDelay), opts)
    ensures ApplyOptions(s, opts).httpClient.timeout == FinalTimeout(s.httpClient.timeout, opts)
    decreases |opts|
  {
    if opts != [] {
      var init, last := opts[..|opts| - 1], opts[|opts| - 1];
      assert opts == init + [last];
      ApplyOptionsSnoc(s, init, last);
      LaterOptionsOverride(s, init);
    }
  }

  /** With no options the client has the documented defaults. */
  lemma NoOptionsGiveDefaults(apiKey: string)
    ensures ApplyOptions(Defaults(apiKey), []) == Settings(HttpClient(120 * Second), apiKey,
              "https://openrouter.ai/api/v1", 3, 1_000_000_000)
  {
  }

  /** `Client`. `NewClient` is the constructor. */
  class Client {
    var httpClient: HttpClient
    var apiKey: string
    var baseURL: string
    var maxRetries: int
    var retryDelay: int

    function Config(): Settings
      reads this
    {
      Settings(httpClient, apiKey, baseURL, maxRetries, retryDelay)
    }

    /** `NewClient(apiKey, opts...)`: the defaults, then each option in turn. */
    constructor (apiKey: string, opts: seq<ClientOption>)
      ensures Config() == ApplyOptions(Defaults(apiKey), opts)
    {
      httpClient := HttpClient(DefaultTimeout);
      this.apiKey := apiKey;
      baseURL := DefaultBaseURL;
      maxRetries := DefaultMaxRetries;
      retryDelay := DefaultRetryDelay;
      new;
      for i := 0 to |opts|
        invariant Config() == ApplyOptions(Defaults(apiKey), opts[..i])
      {
        Apply(opts[i]);
        assert opts[..i + 1] == opts[..i] + [opts[i]];
        ApplyOptionsSnoc(Defaults(apiKey), opts[..i], opts[i]);
      }
      assert opts[..|opts|] == opts;
    }

    /** Calling one `Option` closure on the client. */
    method Apply(o: ClientOption)
      modifies this
      ensures Config() == ApplyOption(old(Config()), o)
    {
      match o {
        case WithBaseURL(url) => baseURL := url;
        case WithHTTPClient(c) => httpClient := c;
        case WithRetry(n, d) => maxRetries := n; retryDelay := d;
        case WithTimeout(t) => httpClient := httpClient.(timeout := t);
      }
    }

    /** `Complete`: builds the request, then runs the retry loop. The result and the trace are
        those of `CompleteSpec`, whose properties are the lemmas below. */
    method Complete(model: string, systemPrompt: string, userInput: string, schema: string,
                    decode: string -> Result<Json, string>, env: nat -> Attempt)
      returns (r: Result<CompletionResult, Error>, trace: seq<Event>)
      ensures (r, trace) == CompleteSpec(Config(), model, systemPrompt, userInput, schema, decode, env)
    {
      var built := BuildRequest(model, systemPrompt, userInput, schema, decode);
      if built.Failure? {
        return Failure(built.error), [];
      }
      var s := Config();
      var req := NewHttpRequest(s, built.value);
      var lastErr: Option<Error> := None;
      trace := [];
      var attempt: nat := 0;
      ghost var whole := Attempts(s, req, env, 0, None);
      assert [] + whole.1 == whole.1;
      while attempt < maxRetries
        invariant s == Config()
        invariant Attempts(s, req, env, 0, None) == After(trace, Attempts(s, req, env, attempt, lastErr))
        decreases maxRetries - attempt
      {
        var at := env(attempt);
        ghost var before := trace;
        ghost var step := Attempts(s, req, env, attempt, lastErr);
        if attempt > 0 {
          trace := trace + [Wait(attempt, retryDelay * attempt)];
          if at.interrupted.Some? {
            r := Failure(at.interrupted.value);
            assert step == (r, Lead(s, attempt));
            return;
          }
        }
        trace := trace + [Send(attempt, req)];
        assert trace == before + (Lead(s, attempt) + [Send(attempt, req)]);
        var result := DoRequest(at.exchange);
        if result.Success? {
          r := result;
          assert step == (r, Lead(s, attempt) + [Send(attempt, req)]);
          return;
        }
        if at.cancelled.Some? {
          r := Failure(at.cancelled.value);
          assert step == (r, Lead(s, attempt) + [Send(attempt, req)]);
          return;
        }
        Retried(s, req, env, attempt, lastErr, before);
        lastErr := Some(result.error);
        attempt := attempt + 1;
      }
      r := Failure(Wrapped("failed after " + Text.IntToString(maxRetries) + " retries", lastErr));
      assert trace + [] == trace;
    }
  }

  // ---------------------------------------------------------------------------------------
  // Errors: what `fmt.Errorf` and `ctx.Err()` produce

  datatype Error =
    | Wrapped(context: string, cause: Option<Error>)  // fmt.Errorf("<context>: %w", cause)
    | Plain(text: string)                             // fmt.Errorf without a wrapped cause
    | Foreign(text: string)                           // an error from net/http, io or encoding/json
    | Canceled                                        // context.Canceled
    | DeadlineExceeded                                // context.DeadlineExceeded
  {
    /** `Error()`. Wrapping a nil error renders as `%!w(<nil>)`, as fmt does. */
    function Text(): (t: string)
      ensures Wrapped? ==> |t| >= |context| + 2 && t[..|context|] == context
    {
      match this
      case Wrapped(c, Some(e)) => c + ": " + e.Text()
      case Wrapped(c, None) => c + ": %!w(<nil>)"
      case Plain(t) => t
      case Foreign(t) => t
      case Canceled => "context canceled"
      case DeadlineExceeded => "context deadline exceeded"
    }

    predicate IsContextError() { Canceled? || DeadlineExceeded? }
  }

  // ---------------------------------------------------------------------------------------
  // Requests

  datatype Message = Message(role: string, content: string)
  /** The map `{"name": ..., "strict": ..., "schema": ...}` that is marshalled as the schema. */
  datatype SchemaWrapper = SchemaWrapper(name: string, strict: bool, schema: Json)
  datatype ResponseFormat = ResponseFormat(formatType: string, jsonSchema: SchemaWrapper)
  datatype ChatRequest = ChatRequest(model: string, messages: seq<Message>, responseFormat: ResponseFormat)

  /** The request body `Complete` builds. Marshalling the wrapper fails exactly when the
      caller's schema is not valid JSON. */
  function BuildRequest(model: string, systemPrompt: string, userInput: string, schema: string,
                        decode: string -> Result<Json, string>): (r: Result<ChatRequest, Error>)
    ensures decode(schema).Failure? ==>
              r == Failure(Wrapped("failed to wrap schema", Some(Foreign(decode(schema).error))))
    ensures decode(schema).Success? ==>
              (r.Success? &&
               r.value.model == model &&
               r.value.messages == [Message("system", systemPrompt), Message("user", userInput)] &&
               r.value.responseFormat.formatType == "json_schema" &&
               r.value.responseFormat.jsonSchema == SchemaWrapper("response", true, decode(schema).value))
  {
    var messages := [Message("system", systemPrompt), Message("user", userInput)];
    match decode(schema)
    case Failure(err) => Failure(Wrapped("failed to wrap schema", Some(Foreign(err))))
    case Success(v) =>
      Success(ChatRequest(model, messages, ResponseFormat("json_schema", SchemaWrapper("response", true, v))))
  }

  datatype HttpRequest = HttpRequest(httpMethod: string, url: string, headers: seq<(string, string)>,
                                     body: ChatRequest)

  /** The request `doRequest` sends: a POST to the chat completions endpoint of the configured
      base URL, authorised with the API key. */
  function NewHttpRequest(s: Settings, body: ChatRequest): (r: HttpRequest)
    ensures r.httpMethod == "POST" && r.url == s.baseURL + "/chat/completions" && r.body == body
    ensures ("Authorization", "Bearer " + s.apiKey) in r.headers
    ensures ("Content-Type", "application/json") in r.headers
  {
    HttpRequest("POST", s.baseURL + "/chat/completions",
                [("Content-Type", "application/json"), ("Authorization", "Bearer " + s.apiKey),
                 ("HTTP-Referer", "https://github.com/litmus-cli/litmus"), ("X-Title", "Litmus CLI")],
                body)
  }

  // ---------------------------------------------------------------------------------------
  // Responses

  datatype Usage = Usage(promptTokens: int, completionTokens: int)
  datatype Choice = Choice(index: int, message: Message)
  datatype ChatResponse = ChatResponse(id: string, model: string, provider: string, choices: seq<Choice>, usage: Usage)

  datatype CompletionResult = CompletionResult(response: string, provider: string, tokensIn: int,
                                               tokensOut: int, latency: int)

  /** How far one HTTP exchange got: the request could not be marshalled or created, the
      transport failed, the body could not be read, or a status and body arrived (`parsed`
      being what decoding the body as a `ChatResponse` gives, and `latency` the measured time). */
  datatype Exchange =
    | MarshalFailed(err: string)
    | NotCreated(err: string)
    | TransportFailed(err: string)
    | ReadFailed(err: string)
    | Received(status: int, body: string, parsed: Result<ChatResponse, string>, latency: int)

  /** Whether `doRequest` accepts a response: status exactly 200, the body decodes, and there
      is at least one choice. */
  predicate Accepted(ex: Exchange)
  {
    ex.Received? && ex.status == 200 && ex.parsed.Success? && |ex.parsed.value.choices| > 0
  }

  /** `doRequest` once the transport is abstracted. */
  function DoRequest(ex: Exchange): (r: Result<CompletionResult, Error>)
    ensures r.Success? <==> Accepted(ex)
    ensures Accepted(ex) ==>
              var resp := ex.parsed.value;
              r.value == CompletionResult(resp.choices[0].message.content, resp.provider,
                                          resp.usage.promptTokens, resp.usage.completionTokens, ex.latency)
    ensures ex.Received? && ex.status != 200 ==>
              r == Failure(Plain("API error (status " + Text.IntToString(ex.status) + "): " + ex.body))
    ensures r.Failure? ==> r.error.Text() != "" && !r.error.IsContextError()
  {
    match ex
    case MarshalFailed(e) => Failure(Wrapped("failed to marshal request", Some(Foreign(e))))
    case NotCreated(e) => Failure(Wrapped("failed to create request", Some(Foreign(e))))
    case TransportFailed(e) => Failure(Wrapped("request failed", Some(Foreign(e))))
    case ReadFailed(e) => Failure(Wrapped("failed to read response", Some(Foreign(e))))
    case Received(status, body, parsed, latency) =>
      if status != 200 then Failure(Plain("API error (status " + Text.IntToString(status) + "): " + body))
      else if parsed.Failure? then Failure(Wrapped("failed to parse response", Some(Foreign(parsed.error))))
      else if |parsed.value.choices| == 0 then Failure(Plain("no choices in response"))
      else
        var resp := parsed.value;
        Success(CompletionResult(resp.choices[0].message.content, resp.provider,
                                 resp.usage.promptTokens, resp.usage.completionTokens, latency))
  }

  /** Any other success code is rejected too. */
  lemma Only200Accepted(ex: Exchange)
    requires ex.Received? && 200 <= ex.status < 300 && DoRequest(ex).Success?
    ensures ex.status == 200
  {
  }

  // ---------------------------------------------------------------------------------------
  // The retry loop

  /** What attempt `k` experiences: the context's error if it ended during the wait before the
      attempt (looked at only when k > 0), the exchange, and the context's error if it had ended
      by the time the attempt failed. */
  datatype Attempt = Attempt(interrupted: Option<Error>, exchange: Exchange, cancelled: Option<Error>)

  /** `Wait(k, d)`: before attempt `k` the loop waits `d` nanoseconds (`time.After`);
      `Send(k, req)`: attempt `k` sends its HTTP request. */
  datatype Event = Wait(attempt: nat, delay: int) | Send(attempt: nat, request: HttpRequest)

  ghost predicate WellFormed(env: nat -> Attempt)
  {
    forall k: nat :: (env(k).interrupted.Some? ==> env(k).interrupted.value.IsContextError())
                     && (env(k).cancelled.Some? ==> env(k).cancelled.value.IsContextError())
  }

  /** The wait recorded before attempt `k`. */
  function Lead(s: Settings, k: nat): seq<Event>
  {
    if k > 0 then [Wait(k, s.retryDelay * k)] else []
  }

  function After(prefix: seq<Event>, o: (Result<CompletionResult, Error>, seq<Event>)): (Result<CompletionResult, Error>, seq<Event>)
  {
    (o.0, prefix + o.1)
  }

  /** The loop from attempt `k` on, `lastErr` being the error of attempt `k - 1`. */
  function Attempts(s: Settings, req: HttpRequest, env: nat -> Attempt, k: nat, lastErr: Option<Error>)
    : (Result<CompletionResult, Error>, seq<Event>)
    decreases s.maxRetries - k
  {
    if k >= s.maxRetries then
      (Failure(Wrapped("failed after " + Text.IntToString(s.maxRetries) + " retries", lastErr)), [])
    else if k > 0 && env(k).interrupted.Some? then
      (Failure(env(k).interrupted.value), Lead(s, k))
    else
      var sent := Lead(s, k) + [Send(k, req)];
      var result := DoRequest(env(k).exchange);
      if result.Success? then (result, sent)
      else if env(k).cancelled.Some? then (Failure(env(k).cancelled.value), sent)
      else After(sent, Attempts(s, req, env, k + 1, Some(result.error)))
  }

  /** A failed attempt with the context still live hands over to the next attempt. */
  lemma Retried(s: Settings, req: HttpRequest, env: nat -> Attempt, k: nat, lastErr: Option<Error>, before: seq<Event>)
    requires k < s.maxRetries && !(k > 0 && env(k).interrupted.Some?)
    requires DoRequest(env(k).exchange).Failure? && env(k).cancelled.None?
    ensures After(before, Attempts(s, req, env, k, lastErr))
            == After(before + Lead(s, k) + [Send(k, req)], Attempts(s, req, env, k + 1, Some(DoRequest(env(k).exchange).error)))
  {
    var rest := Attempts(s, req, env, k + 1, Some(DoRequest(env(k).exchange).error));
    assert before + (Lead(s, k) + [Send(k, req)] + rest.1) == before + Lead(s, k) + [Send(k, req)] + rest.1;
  }

  function CompleteSpec(s: Settings, model: string, systemPrompt: string, userInput: string, schema: string,
                        decode: string -> Result<Json, string>, env: nat -> Attempt)
    : (Result<CompletionResult, Error>, seq<Event>)
  {
    match BuildRequest(model, systemPrompt, userInput, schema, decode)
    case Failure(e) => (Failure(e), [])
    case Success(body) => Attempts(s, NewHttpRequest(s, body), env, 0, None)
  }

  /** The reference schedule: attempts `k .. n-1`, each after its linear backoff, all with the
      same request. */
  function Schedule(s: Settings, req: HttpRequest, k: nat, n: nat): seq<Event>
    decreases n - k
  {
    if k >= n then [] else Lead(s, k) + [Send(k, req)] + Schedule(s, req, k + 1, n)
  }

  function Sends(trace: seq<Event>): nat
  {
    if trace == [] then 0 else Sends(trace[..|trace| - 1]) + (if trace[|trace| - 1].Send? then 1 else 0)
  }

  lemma {:induction false} SendsAppend(a: seq<Event>, b: seq<Event>)
    ensures Sends(a + b) == Sends(a) + Sends(b)
    decreases |b|
  {
    if b != [] {
      var ab := a + b;
      assert ab[..|ab| - 1] == a + b[..|b| - 1];
      assert ab[|ab| - 1] == b[|b| - 1];
      SendsAppend(a, b[..|b| - 1]);
      assert Sends(ab) == Sends(ab[..|ab| - 1]) + (if ab[|ab| - 1].Send? then 1 else 0);
    } else {
      assert a + b == a;
    }
  }

  lemma {:induction false} ScheduleSends(s: Settings, req: HttpRequest, k: nat, n: nat)
    ensures Sends(Schedule(s, req, k, n)) == if k >= n then 0 else n - k
    decreases n - k
  {
    if k < n {
      ScheduleSends(s, req, k + 1, n);
      SendsAppend(Lead(s, k) + [Send(k, req)], Schedule(s, req, k + 1, n));
      SendsAppend(Lead(s, k), [Send(k, req)]);
      assert Sends(Lead(s, k)) == 0 by {
        if k > 0 { assert [Wait(k, s.retryDelay * k)][..0] == []; }
      }
      assert Sends([Send(k, req)]) == 1 by { assert [Send(k, req)][..0] == []; }
    }
  }

  /** The trace is a prefix of the reference schedule: no wait before the first attempt, a wait
      of exactly `retryDelay * k` before attempt `k > 0`, the same request every time, and no
      attempt numbered `maxRetries` or beyond. */
  lemma {:induction false} PacedSchedule(s: Settings, req: HttpRequest, env: nat -> Attempt, k: nat, lastErr: Option<Error>)
    ensures Attempts(s, req, env, k, lastErr).1 <= Schedule(s, req, k, if s.maxRetries < 0 then 0 else s.maxRetries)
    decreases s.maxRetries - k
  {
    var n: nat := if s.maxRetries < 0 then 0 else s.maxRetries;
    if k < s.maxRetries && !(k > 0 && env(k).interrupted.Some?) && DoRequest(env(k).exchange).Failure?
       && env(k).cancelled.None? {
      PacedSchedule(s, req, env, k + 1, Some(DoRequest(env(k).exchange).error));
      var rest := Attempts(s, req, env, k + 1, Some(DoRequest(env(k).exchange).error)).1;
      var head := Lead(s, k) + [Send(k, req)];
      assert Schedule(s, req, k, n) == head + Schedule(s, req, k + 1, n);
      assert Attempts(s, req, env, k, lastErr).1 == head + rest;
    }
  }

  /** Prefixes of a trace send no more than the trace does. */
  lemma {:induction false} SendsPrefix(a: seq<Event>, b: seq<Event>)
    requires a <= b
    ensures Sends(a) <= Sends(b)
  {
    SendsAppend(a, b[|a|..]);
    assert a + b[|a|..] == b;
  }

  /** At most `maxRetries` requests are sent; with `maxRetries <= 0` none, and the error then
      wraps a nil error. */
  lemma AttemptsBounded(s: Settings, req: HttpRequest, env: nat -> Attempt)
    ensures Sends(Attempts(s, req, env, 0, None).1) <= if s.maxRetries < 0 then 0 else s.maxRetries
    ensures s.maxRetries <= 0 ==>
              Attempts(s, req, env, 0, None)
              == (Failure(Wrapped("failed after " + Text.IntToString(s.maxRetries) + " retries", None)), [])
  {
    var n: nat := if s.maxRetries < 0 then 0 else s.maxRetries;
    PacedSchedule(s, req, env, 0, None);
    SendsPrefix(Attempts(s, req, env, 0, None).1, Schedule(s, req, 0, n));
    ScheduleSends(s, req, 0, n);
  }

  /** A success ends the loop: the last event is the request that succeeded, and the result is
      what that attempt's response gave. */
  lemma {:induction false} SuccessIsLastSend(s: Settings, req: HttpRequest, env: nat -> Attempt, k: nat, lastErr: Option<Error>)
    requires Attempts(s, req, env, k, lastErr).0.Success?
    ensures var (r, trace) := Attempts(s, req, env, k, lastErr);
            |trace| > 0 && trace[|trace| - 1].Send? && k <= trace[|trace| - 1].attempt < s.maxRetries &&
            r == DoRequest(env(trace[|trace| - 1].attempt).exchange)
    decreases s.maxRetries - k
  {
    var result := DoRequest(env(k).exchange);
    if result.Failure? {
      SuccessIsLastSend(s, req, env, k + 1, Some(result.error));
    }
  }

  /** How a run from attempt `k` on that the context stopped looks: the error is the context's
      own, seen either in the wait before an attempt `j > 0` (the trace ends with that wait, of
      `retryDelay * j`) or once attempt `j` had failed (the trace ends with its request). */
  ghost predicate StoppedByContext(s: Settings, env: nat -> Attempt, k: nat, o: (Result<CompletionResult, Error>, seq<Event>))
  {
    o.0.Failure? && |o.1| > 0 &&
    var last := o.1[|o.1| - 1];
    k <= last.attempt < s.maxRetries &&
    ((last.Wait? && 0 < last.attempt && last.delay == s.retryDelay * last.attempt &&
      env(last.attempt).interrupted == Some(o.0.error)) ||
     (last.Send? && DoRequest(env(last.attempt).exchange).Failure? &&
      env(last.attempt).cancelled == Some(o.0.error)))
  }

  /** A context error ends the loop at once, and nothing is sent after it was seen. */
  lemma {:induction false} CancellationStops(s: Settings, req: HttpRequest, env: nat -> Attempt, k: nat, lastErr: Option<Error>)
    requires Attempts(s, req, env, k, lastErr).0.Failure? && Attempts(s, req, env, k, lastErr).0.error.IsContextError()
    ensures StoppedByContext(s, env, k, Attempts(s, req, env, k, lastErr))
    decreases s.maxRetries - k, 1
  {
    if k < s.maxRetries {
      if k > 0 && env(k).interrupted.Some? {
        InterruptedAt(s, req, env, k, lastErr);
      } else {
        CancellationAfterSend(s, req, env, k, lastErr);
      }
    }
  }

  /** The part of CancellationStops where attempt `k` sends its request. */
  lemma {:induction false} CancellationAfterSend(s: Settings, req: HttpRequest, env: nat -> Attempt, k: nat, lastErr: Option<Error>)
    requires k < s.maxRetries && !(k > 0 && env(k).interrupted.Some?)
    requires Attempts(s, req, env, k, lastErr).0.Failure? && Attempts(s, req, env, k, lastErr).0.error.IsContextError()
    ensures StoppedByContext(s, env, k, Attempts(s, req, env, k, lastErr))
    decreases s.maxRetries - k, 0
  {
    var result := DoRequest(env(k).exchange);
    if env(k).cancelled.Some? {
      CancelledAt(s, req, env, k, lastErr);
    } else {
      FailedAt(s, req, env, k, lastErr);
      var rest := Attempts(s, req, env, k + 1, Some(result.error));
      CancellationStops(s, req, env, k + 1, Some(result.error));
      StoppedLater(s, env, k, Lead(s, k) + [Send(k, req)], rest);
    }
  }

  lemma StoppedLater(s: Settings, env: nat -> Attempt, k: nat, sent: seq<Event>,
                     o: (Result<CompletionResult, Error>, seq<Event>))
    requires StoppedByContext(s, env, k + 1, o)
    ensures StoppedByContext(s, env, k, (o.0, sent + o.1))
  {
    assert (sent + o.1)[|sent + o.1| - 1] == o.1[|o.1| - 1];
  }

  /** The context ended during the wait before attempt `k`. */
  lemma InterruptedAt(s: Settings, req: HttpRequest, env: nat -> Attempt, k: nat, lastErr: Option<Error>)
    requires 0 < k < s.maxRetries && env(k).interrupted.Some?
    ensures Attempts(s, req, env, k, lastErr) == (Failure(env(k).interrupted.value), [Wait(k, s.retryDelay * k)])
  {
  }

  /** Attempt `k` failed and the context had ended. */
  lemma CancelledAt(s: Settings, req: HttpRequest, env: nat -> Attempt, k: nat, lastErr: Option<Error>)
    requires k < s.maxRetries && !(k > 0 && env(k).interrupted.Some?)
    requires DoRequest(env(k).exchange).Failure? && env(k).cancelled.Some?
    ensures Attempts(s, req, env, k, lastErr) == (Failure(env(k).cancelled.value), Lead(s, k) + [Send(k, req)])
  {
  }

  /** Attempt `k` failed with the context live: the loop goes on with attempt `k + 1`. */
  lemma FailedAt(s: Settings, req: HttpRequest, env: nat -> Attempt, k: nat, lastErr: Option<Error>)
    requires k < s.maxRetries && !(k > 0 && env(k).interrupted.Some?)
    requires DoRequest(env(k).exchange).Failure? && env(k).cancelled.None?
    ensures var rest := Attempts(s, req, env, k + 1, Some(DoRequest(env(k).exchange).error));
            Attempts(s, req, env, k, lastErr) == (rest.0, Lead(s, k) + [Send(k, req)] + rest.1)
  {
  }

  /** Attempts `k .. j-1` all ran: none was cut short by the context, none was accepted, and
      the context was still live when each had failed. */
  ghost predicate LiveFailures(env: nat -> Attempt, k: nat, j: nat)
  {
    forall i: nat :: k <= i < j ==>
      !(i > 0 && env(i).interrupted.Some?) && !Accepted(env(i).exchange) && env(i).cancelled.None?
  }

  /** The first accepted attempt is the one returned: when attempts `k .. j-1` failed with the
      context live and attempt `j` is accepted, the loop ends with `j`'s response right after
      its request, and nothing follows it. */
  lemma {:induction false} FirstSuccessReturned(s: Settings, req: HttpRequest, env: nat -> Attempt, k: nat, j: nat,
                                                lastErr: Option<Error>)
    requires k <= j < s.maxRetries && LiveFailures(env, k, j)
    requires !(j > 0 && env(j).interrupted.Some?) && Accepted(env(j).exchange)
    ensures Attempts(s, req, env, k, lastErr) ==
              (DoRequest(env(j).exchange), Schedule(s, req, k, j) + Lead(s, j) + [Send(j, req)])
    decreases j - k
  {
    if k < j {
      var err := Some(DoRequest(env(k).exchange).error);
      FailedAt(s, req, env, k, lastErr);
      FirstSuccessReturned(s, req, env, k + 1, j, err);
      var head := Lead(s, k) + [Send(k, req)];
      assert Schedule(s, req, k, j) == head + Schedule(s, req, k + 1, j);
      assert head + (Schedule(s, req, k + 1, j) + Lead(s, j) + [Send(j, req)])
             == Schedule(s, req, k, j) + Lead(s, j) + [Send(j, req)];
    } else {
      assert Schedule(s, req, k, j) + Lead(s, j) + [Send(j, req)] == Lead(s, j) + [Send(j, req)];
    }
  }

  /** The first context error seen is the one returned: when attempts `k .. j-1` failed with the
      context live, and the context ends in the wait before attempt `j` or by the time attempt
      `j` has failed, the loop ends there with that error, and no later attempt runs. */
  lemma {:induction false} FirstCancellationReturned(s: Settings, req: HttpRequest, env: nat -> Attempt, k: nat, j: nat,
                                                     lastErr: Option<Error>)
    requires k <= j < s.maxRetries && LiveFailures(env, k, j)
    ensures j > 0 && env(j).interrupted.Some? ==>
              Attempts(s, req, env, k, lastErr) == (Failure(env(j).interrupted.value), Schedule(s, req, k, j) + Lead(s, j))
    ensures !(j > 0 && env(j).interrupted.Some?) && !Accepted(env(j).exchange) && env(j).cancelled.Some? ==>
              Attempts(s, req, env, k, lastErr) ==
                (Failure(env(j).cancelled.value), Schedule(s, req, k, j) + Lead(s, j) + [Send(j, req)])
    decreases j - k
  {
    if k < j {
      var err := Some(DoRequest(env(k).exchange).error);
      FailedAt(s, req, env, k, lastErr);
      FirstCancellationReturned(s, req, env, k + 1, j, err);
      var head := Lead(s, k) + [Send(k, req)];
      assert Schedule(s, req, k, j) == head + Schedule(s, req, k + 1, j);
      assert head + (Schedule(s, req, k + 1, j) + Lead(s, j)) == Schedule(s, req, k, j) + Lead(s, j);
      assert head + (Schedule(s, req, k + 1, j) + Lead(s, j) + [Send(j, req)])
             == Schedule(s, req, k, j) + Lead(s, j) + [Send(j, req)];
    } else {
      if j > 0 && env(j).interrupted.Some? {
        InterruptedAt(s, req, env, j, lastErr);
        assert Schedule(s, req, k, j) + Lead(s, j) == [Wait(j, s.retryDelay * j)];
      } else if !Accepted(env(j).exchange) && env(j).cancelled.Some? {
        CancelledAt(s, req, env, j, lastErr);
        assert Schedule(s, req, k, j) + Lead(s, j) + [Send(j, req)] == Lead(s, j) + [Send(j, req)];
      }
    }
  }

  /** When no attempt succeeds and the context never ends, every one of the `maxRetries`
      attempts runs and the error wraps the error of the last attempt. */
  lemma {:induction false} ExhaustionWrapsLastError(s: Settings, req: HttpRequest, env: nat -> Attempt, k: nat, lastErr: Option<Error>)
    requires k < s.maxRetries
    requires forall j: nat :: k <= j < s.maxRetries ==>
               !Accepted(env(j).exchange) && env(j).interrupted.None? && env(j).cancelled.None?
    ensures Attempts(s, req, env, k, lastErr) ==
              (Failure(Wrapped("failed after " + Text.IntToString(s.maxRetries) + " retries",
                               Some(DoRequest(env(s.maxRetries - 1).exchange).error))),
               Schedule(s, req, k, s.maxRetries))
    decreases s.maxRetries - k
  {
    var result := DoRequest(env(k).exchange);
    if k + 1 < s.maxRetries {
      ExhaustionWrapsLastError(s, req, env, k + 1, Some(result.error));
    }
  }

  /** Every error `Complete` returns has a non-empty message (the runner relies on it to mark
      the test as errored). */
  lemma {:induction false} ErrorsHaveText(s: Settings, req: HttpRequest, env: nat -> Attempt, k: nat, lastErr: Option<Error>)
    requires WellFormed(env)
    requires Attempts(s, req, env, k, lastErr).0.Failure?
    ensures Attempts(s, req, env, k, lastErr).0.error.Text() != ""
    decreases s.maxRetries - k
  {
    if k >= s.maxRetries {
      var e := Attempts(s, req, env, k, lastErr).0.error;
      assert e.Wrapped? && |e.context| > 0;
    } else if !(k > 0 && env(k).interrupted.Some?) {
      var result := DoRequest(env(k).exchange);
      if result.Failure? && env(k).cancelled.None? {
        ErrorsHaveText(s, req, env, k + 1, Some(result.error));
      }
    }
  }
}
