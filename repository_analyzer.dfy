/** The analysis form (web/components/repository-analyzer.tsx): the URL the
    user typed, whether a request is out, the error shown and the results.
    `handleAnalyze` is split at its `await`: `HandleAnalyze` is the part up
    to the request, `CompleteAnalyze` the part that runs when the request
    settles, with what it settled to as a parameter. */
module RepositoryAnalyzer {
  import opened Wrappers
  import opened Strings
  import opened ApiClient

  const EmptyUrlMessage := "Please enter a valid GitHub repository URL"
  const InvalidUrlMessage := "Please enter a valid GitHub repository URL (e.g., https://github.com/username/repo)"
  const FailedMessage := "Failed to analyze repository. Please try again."

  // ---------------------------------------------------------------------
  // `^https?:\/\/(www\.)?github\.com\/[\w-]+\/[\w.-]+\/?$`

  /** `[\w-]`. */
  predicate OwnerChar(c: char) { IsWordChar(c) || c == '-' }

  /** `[\w.-]`. */
  predicate RepoChar(c: char) { IsWordChar(c) || c == '.' || c == '-' }

  /** The choices the pattern leaves open. */
  datatype UrlParts = UrlParts(secure: bool, www: bool, owner: string, repo: string, trailingSlash: bool)

  /** Non-empty owner and repository segments of the allowed characters. */
  predicate WellFormed(p: UrlParts) {
    && p.owner != [] && (forall k :: 0 <= k < |p.owner| ==> OwnerChar(p.owner[k]))
    && p.repo != [] && (forall k :: 0 <= k < |p.repo| ==> RepoChar(p.repo[k]))
  }

  /** Letters and digits, `_`, `-` and `.` are never a slash. */
  lemma SegmentsHaveNoSlash(p: UrlParts)
    requires WellFormed(p)
    ensures '/' !in p.owner && '/' !in p.repo
  {
    assert forall k :: 0 <= k < |p.owner| ==> p.owner[k] != '/';
    assert forall k :: 0 <= k < |p.repo| ==> p.repo[k] != '/';
  }

  function Scheme(secure: bool): string {
    if secure then "https://" else "http://"
  }

  function WwwText(www: bool): string {
    if www then "www." else ""
  }

  const Host := "github.com/"

  /** What follows the host: owner, slash, repository, optional slash. */
  function PathText(owner: string, repo: string, slash: bool): string {
    owner + "/" + repo + (if slash then "/" else "")
  }

  /** The URL the parts spell. */
  function Compose(p: UrlParts): string {
    Scheme(p.secure) + (WwwText(p.www) + (Host + PathText(p.owner, p.repo, p.trailingSlash)))
  }

  /** `https?:\/\/`. */
  function SchemeOf(u: string): Option<bool> {
    if StartsWith(u, "https://") then Some(true)
    else if StartsWith(u, "http://") then Some(false)
    else None
  }

  /** The text after the host's slash: owner, slash, repository and the
      optional slash. The repository holds no slash, so a final slash can
      only be the optional one. */
  function SplitPath(c: string): Option<(string, string, bool)> {
    var slash := c != [] && c[|c| - 1] == '/';
    var body := if slash then c[..|c| - 1] else c;
    var parts := SplitChar(body, '/');
    if |parts| == 2 then Some((parts[0], parts[1], slash)) else None
  }

  /** Matching the pattern: the parts of a URL it accepts. The optional
      "www." cannot be skipped when present, since "github.com/" would then
      have to start with "www.". */
  function Decompose(u: string): Option<UrlParts> {
    match SchemeOf(u)
    case None => None
    case Some(secure) =>
      var a := u[|Scheme(secure)|..];
      var www := StartsWith(a, "www.");
      var b := a[|WwwText(www)|..];
      if !StartsWith(b, Host) then None
      else
        match SplitPath(b[|Host|..])
        case None => None
        case Some((owner, repo, slash)) =>
          var p := UrlParts(secure, www, owner, repo, slash);
          if WellFormed(p) then Some(p) else None
  }

  /** `urlPattern.test(url)`. */
  predicate ValidUrl(u: string) {
    Decompose(u).Some?
  }

  lemma SchemeRoundTrip(secure: bool, rest: string)
    ensures SchemeOf(Scheme(secure) + rest) == Some(secure)
    ensures (Scheme(secure) + rest)[|Scheme(secure)|..] == rest
  {
    var u := Scheme(secure) + rest;
    assert u[..|Scheme(secure)|] == Scheme(secure);
    if !secure {
      assert u[4] == ':';
    }
  }

  lemma SchemeSound(u: string)
    requires SchemeOf(u).Some?
    ensures u == Scheme(SchemeOf(u).value) + u[|Scheme(SchemeOf(u).value)|..]
  {
    var s := Scheme(SchemeOf(u).value);
    assert u[..|s|] == s;
  }

  lemma WwwRoundTrip(www: bool, b: string)
    requires StartsWith(b, Host)
    ensures StartsWith(WwwText(www) + b, "www.") == www
    ensures (WwwText(www) + b)[|WwwText(www)|..] == b
  {
    var a := WwwText(www) + b;
    if www {
      assert a[..4] == "www.";
    } else {
      assert a[0] == b[0] == Host[0];
    }
  }

  lemma HostRoundTrip(c: string)
    ensures StartsWith(Host + c, Host) && (Host + c)[|Host|..] == c
  {
  }

  lemma PathRoundTrip(owner: string, repo: string, slash: bool)
    requires '/' !in owner && '/' !in repo && repo != []
    ensures SplitPath(PathText(owner, repo, slash)) == Some((owner, repo, slash))
  {
    var c := PathText(owner, repo, slash);
    var body := owner + "/" + repo;
    if slash {
      assert c[..|c| - 1] == body;
    } else {
      assert c == body;
      assert c[|c| - 1] == repo[|repo| - 1] != '/';
    }
    assert Join([owner, repo], "/") == body;
    JoinSplit([owner, repo], '/');
  }

  lemma PathSound(c: string)
    requires SplitPath(c).Some?
    ensures var (owner, repo, slash) := SplitPath(c).value; c == PathText(owner, repo, slash)
  {
    var slash := c != [] && c[|c| - 1] == '/';
    var body := if slash then c[..|c| - 1] else c;
    SplitJoin(body, '/');
    var parts := SplitChar(body, '/');
    assert body == parts[0] + "/" + parts[1];
  }

  /** An accepted URL is exactly what its parts spell, and they are well
      formed. */
  lemma DecomposeSound(u: string)
    requires ValidUrl(u)
    ensures WellFormed(Decompose(u).value) && Compose(Decompose(u).value) == u
  {
    var p := Decompose(u).value;
    SchemeSound(u);
    var a := u[|Scheme(p.secure)|..];
    var b := a[|WwwText(p.www)|..];
    assert a == WwwText(p.www) + b by {
      if p.www {
        assert a[..4] == "www.";
      }
    }
    assert b == Host + b[|Host|..] by {
      assert b[..|Host|] == Host;
    }
    PathSound(b[|Host|..]);
  }

  /** Matching the URL that parts spell gives those parts back when they
      are well formed, and fails when they are not. */
  lemma DecomposeCompose(p: UrlParts)
    requires '/' !in p.owner && '/' !in p.repo && p.repo != []
    ensures Decompose(Compose(p)) == if WellFormed(p) then Some(p) else None
  {
    var c := PathText(p.owner, p.repo, p.trailingSlash);
    var b := Host + c;
    var a := WwwText(p.www) + b;
    SchemeRoundTrip(p.secure, a);
    HostRoundTrip(c);
    WwwRoundTrip(p.www, b);
    PathRoundTrip(p.owner, p.repo, p.trailingSlash);
  }

  /** Every well-formed choice of parts spells a URL the pattern accepts. */
  lemma DecomposeComplete(p: UrlParts)
    requires WellFormed(p)
    ensures Decompose(Compose(p)) == Some(p)
  {
    SegmentsHaveNoSlash(p);
    DecomposeCompose(p);
  }

  /** An owner segment with a dot is refused; the repository segment may
      hold one. */
  lemma DotOnlyInRepo(p: UrlParts)
    requires WellFormed(p)
    ensures !ValidUrl(Compose(p.(owner := p.owner + ".")))
    ensures ValidUrl(Compose(p.(repo := p.repo + ".")))
  {
    SegmentsHaveNoSlash(p);
    var q := p.(owner := p.owner + ".");
    assert !OwnerChar(q.owner[|q.owner| - 1]);
    DecomposeCompose(q);
    var r := p.(repo := p.repo + ".");
    assert forall k :: 0 <= k < |r.repo| ==> RepoChar(r.repo[k]) by {
      assert forall k :: 0 <= k < |p.repo| ==> r.repo[k] == p.repo[k];
    }
    DecomposeComplete(r);
  }

  // ---------------------------------------------------------------------
  // The form.

  /** The `catch` of `handleAnalyze`: an `Error`'s message, or the generic
      text. */
  function CaughtMessage(t: Thrown): string {
    if t.ErrorObject? then t.message else FailedMessage
  }

  /** `analyzeRepository` only ever throws an `Error`, so the generic text
      is never shown: a failed response shows the message chosen from its
      body. */
  lemma FailureShowsServerMessage<T>(answer: Answer<T>)
    requires AnalyzeRepository(answer).Err?
    ensures CaughtMessage(AnalyzeRepository(answer).error) == AnalyzeRepository(answer).error.message
    ensures answer.Responded? && !answer.ok
      ==> CaughtMessage(AnalyzeRepository(answer).error) == FailureMessage(answer.errorBody, answer.status)
  {
  }

  /** The checks `handleAnalyze` makes before sending anything: the
      trimmed input must be non-empty, then match the GitHub URL pattern;
      the trimmed text is what gets sent. */
  function CheckRepoUrl(input: string): (r: Result<string, string>)
    ensures r.Ok? <==> Strip(input) != [] && ValidUrl(Strip(input))
    ensures r.Ok? ==> r.value == Strip(input)
    ensures Strip(input) == [] ==> r == Err(EmptyUrlMessage)
    ensures Strip(input) != [] && !ValidUrl(Strip(input)) ==> r == Err(InvalidUrlMessage)
  {
    var url := Strip(input);
    if url == [] then Err(EmptyUrlMessage)
    else if !ValidUrl(url) then Err(InvalidUrlMessage)
    else Ok(url)
  }

  class Analyzer<T> {
    var repoUrl: string
    var loading: bool
    var error: Option<string>
    var results: Option<T>

    /** While a request is out there are no results. */
    predicate Valid()
      reads this
    {
      loading ==> results.None?
    }

    /** The initial state: nothing typed, no request, no error, no
        results. */
    constructor ()
      ensures repoUrl == [] && !loading && error.None? && results.None?
      ensures Valid()
    {
      repoUrl := [];
      loading := false;
      error := None;
      results := None;
    }

    /** The input's `onChange`. */
    method SetRepoUrl(u: string)
      modifies this
      ensures repoUrl == u
      ensures loading == old(loading) && error == old(error) && results == old(results)
    {
      repoUrl := u;
    }

    /** `handleAnalyze` up to its request: the trimmed URL is checked and,
        if it passes, becomes the request. */
    method HandleAnalyze() returns (request: Option<string>)
      requires Valid()
      modifies this
      ensures Valid()
      ensures repoUrl == old(repoUrl)
      ensures CheckRepoUrl(repoUrl).Err? ==>
        request.None? && error == Some(CheckRepoUrl(repoUrl).error)
        && loading == old(loading) && results == old(results)
      ensures CheckRepoUrl(repoUrl).Ok? ==>
        request == Some(CheckRepoUrl(repoUrl).value) && error.None? && loading && results.None?
    {
      var checked := CheckRepoUrl(repoUrl);
      match checked {
        case Err(message) =>
          error := Some(message);
          request := None;
        case Ok(url) =>
          error := None;
          loading := true;
          results := None;
          request := Some(url);
      }
    }

    /** The rest of `handleAnalyze` once the request settles: the results,
        or the caught message; loading ends either way. */
    method CompleteAnalyze(outcome: Result<T, Thrown>)
      modifies this
      ensures Valid()
      ensures !loading && repoUrl == old(repoUrl)
      ensures outcome.Ok? ==> results == Some(outcome.value) && error == old(error)
      ensures outcome.Err? ==> error == Some(CaughtMessage(outcome.error)) && results == old(results)
    {
      match outcome {
        case Ok(data) =>
          results := Some(data);
        case Err(thrown) =>
          error := Some(CaughtMessage(thrown));
      }
      loading := false;
    }

    /** `handleKeyPress`: Enter starts an analysis unless one is running;
        any other key, or Enter while loading, changes nothing. */
    method HandleKeyPress(key: string) returns (request: Option<string>)
      requires Valid()
      modifies this
      ensures Valid()
      ensures repoUrl == old(repoUrl)
      ensures (key != "Enter" || old(loading)) ==> request.None? && unchanged(this)
      ensures key == "Enter" && !old(loading) ==>
        && (request.Some? <==> CheckRepoUrl(old(repoUrl)).Ok?)
        && (request.Some? ==> request.value == CheckRepoUrl(old(repoUrl)).value && loading && error.None? && results.None?)
      ensures key == "Enter" && !old(loading) && CheckRepoUrl(old(repoUrl)).Err? ==>
        && error == Some(CheckRepoUrl(old(repoUrl)).error)
        && loading == old(loading) && results == old(results) && request.None?
    {
      if key == "Enter" && !loading {
        request := HandleAnalyze();
      } else {
        request := None;
      }
    }
  }
}
