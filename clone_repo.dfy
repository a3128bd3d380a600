/** Locator validation before cloning (api/ingestion/clone_repo.py): the
    URL is split as Python's `urllib.parse.urlparse` (3.11) splits it, its
    network location must be exactly "github.com", and its path must name
    an owner and a repository. The clone itself is an outcome handed in. */
module CloneRepo {
  import opened Wrappers
  import opened Strings
  import opened FileTree

  // ---------------------------------------------------------------------
  // urllib.parse.urlparse
  // ---------------------------------------------------------------------

  /** The C0 controls and space that `urlsplit` strips from the front. */
  predicate IsC0OrSpace(c: char) { c <= ' ' }

  /** Tab, carriage return and line feed, which `urlsplit` deletes anywhere. */
  predicate IsUnsafe(c: char) { c == '\t' || c == '\r' || c == '\n' }

  predicate IsSchemeChar(c: char) { IsAlpha(c) || IsDigit(c) || c == '+' || c == '-' || c == '.' }

  /** The characters that end a network location. */
  predicate IsNetlocEnd(c: char) { c == '/' || c == '?' || c == '#' }

  function LStripC0(s: string): (r: string)
    ensures |r| <= |s| && r == s[|s| - |r|..]
    ensures r == [] || !IsC0OrSpace(r[0])
    ensures forall i :: 0 <= i < |s| - |r| ==> IsC0OrSpace(s[i])
  {
    if s != [] && IsC0OrSpace(s[0]) then LStripC0(s[1..]) else s
  }

  function RemoveUnsafe(s: string): string {
    if s == [] then []
    else (if IsUnsafe(s[0]) then [] else [s[0]]) + RemoveUnsafe(s[1..])
  }

  lemma {:induction false} RemoveUnsafeNone(s: string)
    requires forall c :: c in s ==> !IsUnsafe(c)
    ensures RemoveUnsafe(s) == s
  {
    if s != [] {
      RemoveUnsafeNone(s[1..]);
      assert s == [s[0]] + s[1..];
    }
  }

  /** The scheme and the rest: the text before the first ":" when it is a
      letter followed by scheme characters (lower-cased), else nothing. */
  function SplitScheme(u: string): (r: (string, string))
    ensures r.0 == [] ==> r.1 == u
    ensures r.0 != [] ==> exists i :: 0 < i < |u| && u[i] == ':' && r.0 == Lower(u[..i]) && r.1 == u[i + 1..]
  {
    match Find(u, ":")
    case None => ("", u)
    case Some(i) =>
      if i > 0 && IsAlpha(u[0]) && forall k :: 0 <= k < i ==> IsSchemeChar(u[k]) then (Lower(u[..i]), u[i + 1..])
      else ("", u)
  }

  /** Index of the first character at or after `from` that ends a network
      location, or the length. */
  function NetlocEnd(u: string, from: nat): (r: nat)
    requires from <= |u|
    ensures from <= r <= |u|
    ensures forall k :: from <= k < r ==> !IsNetlocEnd(u[k])
    ensures r < |u| ==> IsNetlocEnd(u[r])
    decreases |u| - from
  {
    if from == |u| then from
    else if IsNetlocEnd(u[from]) then from
    else NetlocEnd(u, from + 1)
  }

  /** The network location after a leading "//", and the rest. */
  function SplitNetloc(u: string): (r: (string, string))
    ensures !StartsWith(u, "//") ==> r == ("", u)
    ensures StartsWith(u, "//") ==> "//" + r.0 + r.1 == u && forall c :: c in r.0 ==> !IsNetlocEnd(c)
    ensures StartsWith(u, "//") && r.1 != [] ==> IsNetlocEnd(r.1[0])
  {
    if |u| >= 2 && u[..2] == "//" then
      var d := NetlocEnd(u, 2);
      assert u == u[..2] + u[2..d] + u[d..];
      (u[2..d], u[d..])
    else ("", u)
  }

  /** `s.split(c, 1)` when `c` occurs in `s`. */
  function SplitAtFirst(s: string, c: char): (r: (string, string))
    requires c in s
    ensures s == r.0 + [c] + r.1 && c !in r.0
  {
    var i := IndexOf(s, c);
    assert s == s[..i] + [c] + s[i + 1..];
    (s[..i], s[i + 1..])
  }

  /** The schemes whose paths may carry ";" parameters. */
  const UsesParams: set<string> := {"", "ftp", "hdl", "prospero", "http", "imap", "https", "shttp",
                                    "rtsp", "rtsps", "rtspu", "sip", "sips", "mms", "sftp", "tel"}

  /** Parameters start at the first ";" after the last "/". */
  function SplitParams(url: string): (r: (string, string))
    requires ';' in url
    ensures |r.0| <= |url| && r.0 == url[..|r.0|]
  {
    match LastIndexOf(url, '/')
    case Some(j) =>
      (match FindFrom(url, ";", j)
       case None => (url, "")
       case Some(i) => (url[..i], url[i + 1..]))
    case None =>
      var i := IndexOf(url, ';');
      (url[..i], url[i + 1..])
  }

  datatype ParsedUrl = ParsedUrl(scheme: string, netloc: string, path: string, params: string, query: string, fragment: string)

  const Ipv6Error := "Invalid IPv6 URL"

  /** The text `urlsplit` works on. */
  function Clean(url: string): string {
    RemoveUnsafe(LStripC0(url))
  }

  /** Path, parameters, query and fragment of what follows the network
      location: the fragment after the first "#", the query after the
      first "?" before it, and parameters only for schemes that use them. */
  function SplitTail(scheme: string, tail: string): (r: (string, string, string, string))
    ensures '#' !in r.0 && '?' !in r.0
    ensures '#' !in tail && '?' !in tail && ';' !in tail ==> r == (tail, "", "", "")
  {
    var (beforeFragment, fragment) := if '#' in tail then SplitAtFirst(tail, '#') else (tail, "");
    var (beforeQuery, query) := if '?' in beforeFragment then SplitAtFirst(beforeFragment, '?') else (beforeFragment, "");
    var (path, params) := if scheme in UsesParams && ';' in beforeQuery then SplitParams(beforeQuery) else (beforeQuery, "");
    assert forall c :: c in path ==> c in beforeQuery;
    (path, params, query, fragment)
  }

  /** `urlparse(url)`: fails for an unbalanced bracket in the network
      location. Python's NFKC check on a non-ASCII network location and
      its validity check of a bracketed host are not modelled. */
  function UrlParse(url: string): (r: Result<ParsedUrl, string>)
    ensures r.Err? ==> r.error == Ipv6Error
  {
    var (scheme, afterScheme) := SplitScheme(Clean(url));
    var (netloc, afterNetloc) := SplitNetloc(afterScheme);
    Assemble(scheme, netloc, afterNetloc)
  }

  /** The bracket check on the network location, then the split of what
      follows it. */
  function Assemble(scheme: string, netloc: string, tail: string): (r: Result<ParsedUrl, string>)
    ensures r.Err? ==> r.error == Ipv6Error
  {
    if ('[' in netloc) != (']' in netloc) then Err(Ipv6Error)
    else
      var (path, params, query, fragment) := SplitTail(scheme, tail);
      Ok(ParsedUrl(scheme, netloc, path, params, query, fragment))
  }

  /** A host without delimiters, brackets, spaces or controls. */
  predicate PlainHost(host: string) {
    forall c :: c in host ==> ' ' < c && !IsNetlocEnd(c) && c != '[' && c != ']'
  }

  /** A path text without spaces, controls, query, fragment or parameters. */
  predicate PlainPath(rest: string) {
    forall c :: c in rest ==> ' ' < c && c != '?' && c != '#' && c != ';'
  }

  lemma CleanKeepsHead(head: string, rest: string)
    requires head != [] && !IsC0OrSpace(head[0]) && forall c :: c in head ==> !IsUnsafe(c)
    ensures Clean(head + rest) == head + RemoveUnsafe(rest)
  {
    assert (head + rest)[0] == head[0];
    RemoveUnsafeNone(head);
    RemoveUnsafePrefix(head, rest);
  }

  lemma HttpsHeadSafe(host: string)
    requires PlainHost(host)
    ensures var head := "https://" + host + "/";
      head[0] == 'h' && forall c :: c in head ==> !IsUnsafe(c)
  {
    var head := "https://" + host + "/";
    forall c | c in head ensures !IsUnsafe(c) {
      if c !in host {
        assert c in "https://" || c == '/';
      }
    }
  }

  lemma CleanHttps(host: string, rest: string)
    requires PlainHost(host)
    ensures Clean("https://" + host + "/" + rest) == "https:" + ("//" + host + "/" + RemoveUnsafe(rest))
  {
    var head := "https://" + host + "/";
    var x := RemoveUnsafe(rest);
    HttpsHeadSafe(host);
    CleanKeepsHead(head, rest);
    HttpsRegrouped(host, x);
  }

  lemma HttpsRegrouped(host: string, x: string)
    ensures "https://" + host + "/" + x == "https:" + ("//" + host + "/" + x)
  {
    assert "https://" == "https:" + "//";
  }

  lemma SchemeHttps(t: string)
    ensures SplitScheme("https:" + t) == ("https", t)
  {
    var u := "https:" + t;
    assert u[..5] == "https";
    FindFirstChar(u, ':', 5);
    assert Lower("https") == "https";
    assert u[6..] == t;
  }

  lemma NetlocOf(host: string, x: string)
    requires PlainHost(host)
    ensures SplitNetloc("//" + host + "/" + x) == (host, "/" + x)
  {
    var v := "//" + host + "/" + x;
    assert v[..2] == "//";
    assert v[2 + |host|] == '/';
    forall k | 2 <= k < 2 + |host| ensures !IsNetlocEnd(v[k]) {
      assert v[k] == host[k - 2];
    }
    NetlocEndIs(v, 2, 2 + |host|);
    assert v[2..2 + |host|] == host;
    assert v[2 + |host|..] == "/" + x;
  }

  /** An https URL is split at the first "/" after its host: the host is
      the network location, and a plain remainder is the path. */
  lemma UrlParseHttps(host: string, rest: string)
    requires PlainHost(host)
    ensures var r := UrlParse("https://" + host + "/" + rest);
      && r.Ok? && r.value.scheme == "https" && r.value.netloc == host
      && (PlainPath(rest) ==> r.value.path == "/" + rest)
  {
    var url := "https://" + host + "/" + rest;
    var x := RemoveUnsafe(rest);
    assert SplitScheme(Clean(url)) == ("https", "//" + host + "/" + x) by {
      CleanHttps(host, rest);
      SchemeHttps("//" + host + "/" + x);
    }
    NetlocOf(host, x);
    assert UrlParse(url) == Assemble("https", host, "/" + x);
    AssembleHost(host, x);
    if PlainPath(rest) {
      RemoveUnsafeNone(rest);
    }
  }

  lemma AssembleHost(host: string, x: string)
    requires PlainHost(host)
    ensures var r := Assemble("https", host, "/" + x);
      && r.Ok? && r.value.scheme == "https" && r.value.netloc == host
      && (PlainPath(x) ==> r.value.path == "/" + x)
  {
    assert '[' !in host && ']' !in host;
    if PlainPath(x) {
      assert '#' !in "/" + x && '?' !in "/" + x && ';' !in "/" + x;
    }
  }

  lemma ConcatAssoc(a: string, b: string, c: string, d: string)
    ensures a + b + c + d == a + (b + c + d)
  {
  }

  lemma {:induction false} RemoveUnsafePrefix(a: string, b: string)
    ensures RemoveUnsafe(a + b) == RemoveUnsafe(a) + RemoveUnsafe(b)
    decreases |a|
  {
    if a != [] {
      assert (a + b)[1..] == a[1..] + b;
      RemoveUnsafePrefix(a[1..], b);
    } else {
      assert a + b == b;
    }
  }

  lemma {:induction false} NetlocEndIs(u: string, from: nat, d: nat)
    requires from <= d < |u| && IsNetlocEnd(u[d])
    requires forall k :: from <= k < d ==> !IsNetlocEnd(u[k])
    ensures NetlocEnd(u, from) == d
    decreases d - from
  {
    if from < d {
      NetlocEndIs(u, from + 1, d);
    }
  }

  // ---------------------------------------------------------------------
  // clone_repository
  // ---------------------------------------------------------------------

  const HostError := "Only github.com repositories are supported."
  const PathError := "Invalid GitHub repository URL."
  const CloneError := "Failed to clone repository. Ensure it is public and accessible."
  const MissingError := "Repository clone failed unexpectedly."

  /** `parsed.path.strip("/").split("/")`. */
  function PathParts(path: string): (r: seq<string>)
    ensures |r| >= 1 && forall k :: 0 <= k < |r| ==> '/' !in r[k]
  {
    SplitChar(StripChar(path, '/'), '/')
  }

  /** `repo.replace(".git", "")`. */
  function RepoDirName(repo: string): (r: string)
    ensures |r| <= |repo| && forall c :: c in r ==> c in repo
  {
    RepoDirNameShrinks(repo);
    ReplaceAll(repo, ".git", "")
  }

  lemma {:induction false} RepoDirNameShrinks(s: string)
    ensures |ReplaceAll(s, ".git", "")| <= |s|
    decreases |s|
  {
    if |s| >= 4 {
      if s[..4] == ".git" {
        RepoDirNameShrinks(s[4..]);
      } else {
        RepoDirNameShrinks(s[1..]);
      }
    }
  }

  /** The URL checks of `clone_repository`: the directory name of the
      checkout, or the message of the ValueError raised. */
  function ValidateUrl(url: string): (r: Result<string, string>)
    ensures r.Err? ==> r.error == HostError || r.error == PathError || r.error == Ipv6Error
    ensures r.Ok? ==> '/' !in r.value
    ensures r.Ok? ==> UrlParse(url).Ok? && UrlParse(url).value.netloc == "github.com"
    ensures r.Ok? ==> var parts := PathParts(UrlParse(url).value.path); |parts| >= 2 && r.value == RepoDirName(parts[1])
    ensures UrlParse(url).Ok? && UrlParse(url).value.netloc != "github.com" ==> r == Err(HostError)
  {
    match UrlParse(url)
    case Err(e) => Err(e)
    case Ok(parsed) =>
      if parsed.netloc != "github.com" then Err(HostError)
      else
        var parts := PathParts(parsed.path);
        if |parts| < 2 then Err(PathError) else Ok(RepoDirName(parts[1]))
  }

  /** What `git clone` left behind: it failed, or it exited and the clone
      path holds the checkout (or nothing). */
  datatype GitOutcome = GitFailed | GitExited(checkout: Option<Node>)

  datatype Checkout = Checkout(path: string, tree: Node)

  /** `clone_repository(repository_url, workspace)` with the outcome of the
      clone handed in. */
  function CloneRepository(url: string, workspace: string, git: GitOutcome): (r: Result<Checkout, string>)
    ensures ValidateUrl(url).Err? ==> r == Err(ValidateUrl(url).error)
    ensures ValidateUrl(url).Ok? && git.GitFailed? ==> r == Err(CloneError)
    ensures ValidateUrl(url).Ok? && git.GitExited? && git.checkout.None? ==> r == Err(MissingError)
    ensures r.Ok? <==> ValidateUrl(url).Ok? && git.GitExited? && git.checkout.Some?
    ensures r.Ok? ==> r.value.path == PathJoin(workspace, ValidateUrl(url).value) && r.value.tree == git.checkout.value
  {
    match ValidateUrl(url)
    case Err(e) => Err(e)
    case Ok(name) =>
      match git
      case GitFailed => Err(CloneError)
      case GitExited(checkout) =>
        if checkout.None? then Err(MissingError) else Ok(Checkout(PathJoin(workspace, name), checkout.value))
  }

  /** The clone path ends in the checkout's directory name. */
  lemma ClonePathEndsInName(workspace: string, name: string)
    requires '/' !in name
    ensures AfterLast(PathJoin(workspace, name), '/') == name
  {
    assert !StartsWith(name, "/") by {
      if |name| >= 1 { assert name[0] in name; }
    }
    if workspace == "" {
      assert PathJoin(workspace, name) == name;
    } else if EndsWith(workspace, "/") {
      var a := workspace[..|workspace| - 1];
      assert workspace == a + ['/'];
      assert PathJoin(workspace, name) == a + ['/'] + name;
      AfterLastOfSegment(a, '/', name);
    } else {
      AfterLastOfSegment(workspace, '/', name);
    }
  }

  /** A trailing ".git" is removed from a repository name without ".git"
      elsewhere. */
  lemma GitSuffixRemoved(name: string)
    requires forall i :: 0 <= i <= |name| ==> !OccursAt(name, ".git", i)
    ensures RepoDirName(name + ".git") == name
  {
    forall i | 0 <= i < |name| ensures !OccursAt(name + ".git", ".git", i) {
      NoEarlyGit(name, i);
    }
    ReplaceAllAppended(name, ".git");
  }

  lemma NoEarlyGit(name: string, i: nat)
    requires forall j :: 0 <= j <= |name| ==> !OccursAt(name, ".git", j)
    requires i < |name|
    ensures !OccursAt(name + ".git", ".git", i)
  {
    var t := name + ".git";
    if i + 4 <= |name| {
      assert t[i..i + 4] == name[i..i + 4];
      assert !OccursAt(name, ".git", i);
    } else {
      var k := |name| - i;
      assert t[i..i + 4][k] == t[|name|] == '.';
      assert ".git"[k] != '.';
    }
  }

  /** Every ".git" is removed, not only a suffix. */
  lemma GitRemovedEverywhere()
    ensures RepoDirName("a.github.io") == "ahub.io"
  {
    var s := "a.github.io";
    assert s[..4] != ".git" by {
      assert s[..4][0] == 'a';
    }
    assert s[1..] == ".github.io";
    GitInfixRemoved();
    assert ReplaceAll(s, ".git", "") == [s[0]] + ReplaceAll(s[1..], ".git", "");
  }

  lemma GitInfixRemoved()
    ensures ReplaceAll(".github.io", ".git", "") == "hub.io"
  {
    var t := ".github.io";
    assert t[..4] == ".git";
    assert t[4..] == "hub.io";
    forall i | 0 <= i <= |"hub.io"| ensures !OccursAt("hub.io", ".git", i) {
      if i + 4 <= 6 {
        assert "hub.io"[i..i + 4][0] == "hub.io"[i] != '.';
      }
    }
    ReplaceAllAbsent("hub.io", ".git", "");
  }

  /** A github.com URL with a plain path has that path. */
  lemma UrlParseGithub(rest: string)
    requires PlainPath(rest)
    ensures var r := UrlParse("https://github.com/" + rest);
      r.Ok? && r.value.netloc == "github.com" && r.value.path == "/" + rest
  {
    assert "https://github.com/" == "https://" + "github.com" + "/";
    UrlParseHttps("github.com", rest);
  }

  /** "/owner/repo" has the parts owner and repo. */
  lemma PathPartsOfOwnerRepo(owner: string, repo: string)
    requires owner != [] && repo != [] && '/' !in owner && '/' !in repo
    ensures PathParts("/" + owner + "/" + repo) == [owner, repo]
  {
    var rest := owner + "/" + repo;
    var path := "/" + owner + "/" + repo;
    assert StripChar(path, '/') == rest by {
      assert path[1..] == rest;
      assert rest[0] == owner[0] && owner[0] in owner;
      assert rest[|rest| - 1] == repo[|repo| - 1] && repo[|repo| - 1] in repo;
    }
    SplitCharAt(owner, '/', repo);
    SplitNoSeparator(repo, '/');
  }

  /** A github.com URL naming an owner and a repository is accepted, and
      the checkout is named after the repository. */
  lemma GithubUrlAccepted(owner: string, repo: string)
    requires owner != [] && repo != []
    requires PlainPath(owner) && PlainPath(repo) && '/' !in owner && '/' !in repo
    ensures ValidateUrl("https://github.com/" + owner + "/" + repo) == Ok(RepoDirName(repo))
  {
    var url := "https://github.com/" + owner + "/" + repo;
    var path := "/" + owner + "/" + repo;
    assert UrlParse(url).Ok? && UrlParse(url).value.netloc == "github.com" && UrlParse(url).value.path == path by {
      var rest := owner + "/" + repo;
      assert PlainPath(rest);
      UrlParseGithub(rest);
      ConcatAssoc("https://github.com/", owner, "/", repo);
      ConcatAssoc("/", owner, "/", repo);
    }
    PathPartsOfOwnerRepo(owner, repo);
  }

  /** Only the exact host is accepted: "www.github.com" is rejected
      whatever the path. */
  lemma WwwHostRejected(rest: string)
    ensures ValidateUrl("https://www.github.com/" + rest) == Err(HostError)
  {
    var head := "https://www.github.com/";
    assert head == "https://" + "www.github.com" + "/";
    UrlParseHttps("www.github.com", rest);
  }

  /** A host with an explicit port is not "github.com" either. */
  lemma PortHostRejected(rest: string)
    ensures ValidateUrl("https://github.com:443/" + rest) == Err(HostError)
  {
    var head := "https://github.com:443/";
    assert head == "https://" + "github.com:443" + "/";
    UrlParseHttps("github.com:443", rest);
  }

  /** A path with only an owner is rejected. */
  lemma OwnerOnlyRejected(owner: string)
    requires owner != [] && PlainPath(owner) && '/' !in owner
    ensures ValidateUrl("https://github.com/" + owner) == Err(PathError)
  {
    UrlParseGithub(owner);
    var path := "/" + owner;
    assert PathParts(path) == [owner] by {
      assert StripChar(path, '/') == owner by {
        assert path[1..] == owner;
        assert owner[0] in owner && owner[|owner| - 1] in owner;
      }
      SplitNoSeparator(owner, '/');
    }
  }
}
