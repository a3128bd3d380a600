/** The web client's request helpers (web/lib/api.ts): the base URL chosen
    from the environment, URL joining, and the message of the error
    `analyzeRepository` throws. The `fetch` itself is a parameter: what
    the server answered. */
module ApiClient {
  import opened Wrappers
  import opened Strings

  const DefaultBase := "http://localhost:8000"
  const AnalyzeEndpoint := "/analyze"
  const UnexpectedMessage := "An unexpected error occurred while analyzing the repository"

  /** The two environment variables the client reads. */
  datatype Environment = Environment(baseUrl: Option<string>, apiUrl: Option<string>)

  /** `API_BASE_URL`. */
  function ApiBaseUrl(env: Environment): string {
    FirstTruthy([env.baseUrl, env.apiUrl], DefaultBase)
  }

  /** NEXT_PUBLIC_API_BASE_URL wins, then NEXT_PUBLIC_API_URL, then the
      local default; an empty variable counts as unset, so the base is never
      empty. */
  lemma BasePrecedence(env: Environment)
    ensures Truthy(env.baseUrl) ==> ApiBaseUrl(env) == env.baseUrl.value
    ensures !Truthy(env.baseUrl) && Truthy(env.apiUrl) ==> ApiBaseUrl(env) == env.apiUrl.value
    ensures !Truthy(env.baseUrl) && !Truthy(env.apiUrl) ==> ApiBaseUrl(env) == DefaultBase
    ensures ApiBaseUrl(env) != []
  {
    FirstTruthyIs([env.baseUrl, env.apiUrl], DefaultBase);
  }

  /** `endpoint.startsWith('/') ? endpoint : `/${endpoint}``. */
  function WithLeadingSlash(endpoint: string): (r: string)
    ensures StartsWith(r, "/")
    ensures r == endpoint <==> StartsWith(endpoint, "/")
    ensures r == endpoint || r == "/" + endpoint
  {
    if StartsWith(endpoint, "/") then endpoint else "/" + endpoint
  }

  /** `getApiUrl(endpoint)`. */
  function GetApiUrl(base: string, endpoint: string): string {
    DropTrailing(base, '/') + WithLeadingSlash(endpoint)
  }

  /** A base ending in two slashes keeps one. */
  lemma OnlyOneSlashRemoved(stem: string)
    ensures DropTrailing(stem + "//", '/') == stem + "/"
  {
  }

  /** The URL is the base without its trailing slash, one slash, and the
      endpoint without its leading slash; so an endpoint gives the same URL
      with or without that leading slash. */
  lemma UrlShape(base: string, endpoint: string)
    ensures var u := GetApiUrl(base, endpoint);
      var b := DropTrailing(base, '/');
      StartsWith(u, b) && u[|b|] == '/' && EndsWith(u, endpoint)
    ensures !StartsWith(endpoint, "/") ==> GetApiUrl(base, endpoint) == GetApiUrl(base, "/" + endpoint)
  {
    var b := DropTrailing(base, '/');
    var p := WithLeadingSlash(endpoint);
    var u := b + p;
    assert u[..|b|] == b;
    assert u[|b|] == p[0];
    assert u[|u| - |p|..] == p;
    if p != endpoint {
      assert p[1..] == endpoint;
      assert u[|u| - |endpoint|..] == endpoint;
    }
  }

  /** The analysis request: where it goes and the repository it names. */
  datatype Request = Request(url: string, repositoryUrl: string)

  function AnalyzeRequest(env: Environment, repoUrl: string): (r: Request)
    ensures r.repositoryUrl == repoUrl
    ensures EndsWith(r.url, AnalyzeEndpoint)
    ensures StartsWith(r.url, DropTrailing(ApiBaseUrl(env), '/'))
  {
    var u := GetApiUrl(ApiBaseUrl(env), AnalyzeEndpoint);
    UrlShape(ApiBaseUrl(env), AnalyzeEndpoint);
    Request(u, repoUrl)
  }

  /** The JSON error body of a failed response; only string fields are
      modelled, and a body that is not JSON is the empty object. */
  datatype ErrorBody = ErrorBody(detail: Option<string>, message: Option<string>, error: Option<string>)

  const EmptyBody := ErrorBody(None, None, None)

  /** The message of the error thrown for a non-ok response. */
  function FailureMessage(body: ErrorBody, status: nat): string {
    FirstTruthy([body.detail, body.message, body.error], "Analysis failed with status " + NatToString(status))
  }

  /** detail, then message, then error, then the status line; never
      empty. */
  lemma FailureMessageChoice(body: ErrorBody, status: nat)
    ensures var m := FailureMessage(body, status);
      && (Truthy(body.detail) ==> m == body.detail.value)
      && (!Truthy(body.detail) && Truthy(body.message) ==> m == body.message.value)
      && (!Truthy(body.detail) && !Truthy(body.message) && Truthy(body.error) ==> m == body.error.value)
      && (!Truthy(body.detail) && !Truthy(body.message) && !Truthy(body.error)
          ==> m == "Analysis failed with status " + NatToString(status))
      && m != []
  {
    var vs := [body.detail, body.message, body.error];
    FirstTruthyIs(vs, "Analysis failed with status " + NatToString(status));
    if !Truthy(body.detail) && !Truthy(body.message) && Truthy(body.error) {
      assert FirstTruthyAt(vs, 2);
    }
  }

  /** A value thrown in JavaScript: an `Error` with its message, or
      anything else. */
  datatype Thrown = ErrorObject(message: string) | OtherValue

  /** What the server did with the request: answered, with the status, the
      error body of a failed answer and the decoded data of a good one (or
      the error decoding threw), or the fetch itself threw. */
  datatype Answer<T> =
    | Responded(ok: bool, status: nat, errorBody: ErrorBody, data: Result<T, Thrown>)
    | FetchFailed(thrown: Thrown)

  /** `analyzeRepository(repoUrl)`: the data, or the error it throws; the
      catch turns anything that is not an `Error` into one. */
  function AnalyzeRepository<T>(answer: Answer<T>): (r: Result<T, Thrown>)
    ensures r.Err? ==> r.error.ErrorObject?
    ensures r.Ok? <==> answer.Responded? && answer.ok && answer.data.Ok?
    ensures r.Ok? ==> r.value == answer.data.value
    ensures answer.Responded? && !answer.ok ==> r.error.message == FailureMessage(answer.errorBody, answer.status)
  {
    match answer
    case FetchFailed(t) => Err(Rethrown(t))
    case Responded(ok, status, body, data) =>
      if !ok then Err(ErrorObject(FailureMessage(body, status)))
      else if data.Ok? then data
      else Err(Rethrown(data.error))
  }

  /** The catch block: an `Error` is rethrown as it is, anything else is
      replaced by the generic error. */
  function Rethrown(t: Thrown): Thrown {
    if t.ErrorObject? then t else ErrorObject(UnexpectedMessage)
  }

  /** A failure that was already an `Error` keeps its message; any other
      thrown value becomes the generic message. */
  lemma RethrownMessages<T>(t: Thrown)
    ensures AnalyzeRepository<T>(FetchFailed(t)) == Err(if t.ErrorObject? then t else ErrorObject(UnexpectedMessage))
  {
  }
}
