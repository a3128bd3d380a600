/** Owner and repository from a GitHub remote URL (api/open_pr.js,
    `parseGitHubUrl`), which matches `github\.com[:/]([^/]+)\/([^/]+?)(\.git)?$`
    anywhere in the text. */
module GitHubUrls {
  import opened Wrappers
  import opened Strings

  datatype GitHubRepo = GitHubRepo(owner: string, repo: string, url: string)

  const Host := "github.com"

  /** `[^/]+?(\.git)?$` on the text after the owner's slash: the shortest
      non-empty name after which only ".git" or nothing is left. */
  function RepoName(u: string): (r: string)
    requires u != []
    ensures r != [] && (u == r || u == r + ".git")
    ensures forall n :: 0 < n < |r| ==> u[n..] != [] && u[n..] != ".git"
  {
    if |u| > 4 && u[|u| - 4..] == ".git" then
      assert u == u[..|u| - 4] + ".git";
      u[..|u| - 4]
    else u
  }

  /** The host followed by `:` or `/` at position `i`. */
  predicate HostAt(s: string, i: nat) {
    OccursAt(s, Host, i) && i + 10 < |s| && (s[i + 10] == ':' || s[i + 10] == '/')
  }

  /** The match starting at `i`, if there is one: the owner and the
      repository name. `[^/]+\/[^/]+?(\.git)?$` asks that what follows the
      host be two non-empty slash-free segments. */
  function MatchAt(s: string, i: nat): Option<(string, string)> {
    if !HostAt(s, i) then None
    else
      var parts := SplitChar(s[i + 11..], '/');
      if |parts| == 2 && parts[0] != [] && parts[1] != [] then Some((parts[0], RepoName(parts[1])))
      else None
  }

  /** A match sits on the host followed by `:` or `/`; the owner is a
      non-empty segment, and the repository, with its optional ".git",
      ends the text, which therefore does not end in a slash. */
  lemma MatchAtShape(s: string, i: nat)
    requires MatchAt(s, i).Some?
    ensures HostAt(s, i)
    ensures var m := MatchAt(s, i).value;
      && m.0 != [] && '/' !in m.0 && m.1 != [] && '/' !in m.1
      && s[|s| - 1] != '/'
      && (EndsWith(s, m.1) || EndsWith(s, m.1 + ".git"))
  {
    var t := s[i + 11..];
    var parts := SplitChar(t, '/');
    SplitJoin(t, '/');
    var u := parts[1];
    assert t == parts[0] + "/" + u;
    assert s[|s| - |u|..] == u;
    assert s[|s| - 1] == u[|u| - 1];
    var name := RepoName(u);
    if name == u {
      assert s[|s| - |name|..] == name;
    } else {
      assert s[|s| - |name + ".git"|..] == name + ".git";
    }
  }

  /** Where the leftmost match at or after `from` starts. */
  function FirstMatch(s: string, from: nat): (r: Option<nat>)
    decreases |s| - from
    ensures r.Some? ==> from <= r.value && MatchAt(s, r.value).Some?
    ensures r.Some? ==> forall i :: from <= i < r.value ==> MatchAt(s, i).None?
    ensures r.None? ==> forall i :: from <= i ==> MatchAt(s, i).None?
  {
    if from >= |s| then None
    else if MatchAt(s, from).Some? then Some(from)
    else FirstMatch(s, from + 1)
  }

  /** `parseGitHubUrl(repoUrl)`: the owner, the repository and the
      canonical https URL, or the "Invalid GitHub URL" error. */
  function ParseGitHubUrl(s: string): (r: Result<GitHubRepo, string>)
    ensures r.Err? <==> forall i :: MatchAt(s, i).None?
    ensures r.Err? ==> r.error == "Invalid GitHub URL: " + s
    ensures r.Ok? ==> r.value.owner != [] && '/' !in r.value.owner
    ensures r.Ok? ==> r.value.repo != [] && '/' !in r.value.repo
    ensures r.Ok? ==> r.value.url == "https://github.com/" + r.value.owner + "/" + r.value.repo
    ensures r.Ok? ==> EndsWith(s, r.value.repo) || EndsWith(s, r.value.repo + ".git")
  {
    match FirstMatch(s, 0)
    case None => Err("Invalid GitHub URL: " + s)
    case Some(k) =>
      MatchAtShape(s, k);
      var (owner, repo) := MatchAt(s, k).value;
      Ok(GitHubRepo(owner, repo, "https://github.com/" + owner + "/" + repo))
  }

  /** The match at a host followed by `owner/repo` and nothing else. */
  lemma MatchAtHost(s: string, i: nat, owner: string, repo: string)
    requires HostAt(s, i)
    requires s[i + 11..] == owner + "/" + repo
    requires owner != [] && '/' !in owner && repo != [] && '/' !in repo
    ensures MatchAt(s, i) == Some((owner, RepoName(repo)))
  {
    JoinSplit([owner, repo], '/');
  }

  /** The host's first letters: where it starts there is a 'g', and an 'h'
      three places on. */
  lemma HostLetters(s: string, i: nat)
    requires OccursAt(s, Host, i)
    ensures s[i] == 'g' && s[i + 3] == 'h'
  {
    assert s[i..i + 10][0] == 'g' && s[i..i + 10][3] == 'h';
  }

  /** A URL ending in a slash never parses. */
  lemma TrailingSlashRejected(s: string)
    requires s != [] && s[|s| - 1] == '/'
    ensures ParseGitHubUrl(s).Err?
  {
  }

  /** A text whose first host is followed by `owner/repo` and nothing else
      parses to that owner and repository. */
  lemma ParseAt(s: string, p: nat, owner: string, repo: string)
    requires HostAt(s, p) && s[p + 11..] == owner + "/" + repo
    requires owner != [] && '/' !in owner && repo != [] && '/' !in repo
    requires forall i :: 0 <= i < p ==> !OccursAt(s, Host, i)
    ensures ParseGitHubUrl(s)
      == Ok(GitHubRepo(owner, RepoName(repo), "https://github.com/" + owner + "/" + RepoName(repo)))
  {
    MatchAtHost(s, p, owner, repo);
    FirstMatchAt(s, 0, p);
  }

  /** Whatever precedes the host is ignored, provided the host does not
      start inside it; either `:` or `/` may follow the host. */
  lemma ParseAfterPrefix(prefix: string, sep: char, owner: string, repo: string)
    requires sep == ':' || sep == '/'
    requires forall i :: 0 <= i < |prefix| ==> !OccursAt(prefix + Host + [sep] + owner + "/" + repo, Host, i)
    requires owner != [] && '/' !in owner && repo != [] && '/' !in repo
    ensures ParseGitHubUrl(prefix + Host + [sep] + owner + "/" + repo)
      == Ok(GitHubRepo(owner, RepoName(repo), "https://github.com/" + owner + "/" + RepoName(repo)))
  {
    var s := prefix + Host + [sep] + owner + "/" + repo;
    var p := |prefix|;
    assert s[p..p + 10] == Host;
    assert s[p + 10] == sep;
    assert s[p + 11..] == owner + "/" + repo;
    ParseAt(s, p, owner, repo);
  }

  /** The first match is the one at `k` when none starts before it. */
  lemma {:induction false} FirstMatchAt(s: string, from: nat, k: nat)
    requires from <= k && MatchAt(s, k).Some?
    requires forall i :: from <= i < k ==> MatchAt(s, i).None?
    ensures FirstMatch(s, from) == Some(k)
    decreases k - from
  {
    assert k < |s| by {
      MatchAtShape(s, k);
    }
    if from < k {
      FirstMatchAt(s, from + 1, k);
    }
  }

  /** No host starts before `p` when none of the first `p` letters could
      begin one. */
  lemma NoHostBefore(s: string, p: nat)
    requires p <= |s|
    requires forall i :: 0 <= i < p ==> s[i] != 'g' || (i + 3 < |s| && s[i + 3] != 'h')
    ensures forall i :: 0 <= i < p ==> !OccursAt(s, Host, i)
  {
    forall i | 0 <= i < p && OccursAt(s, Host, i)
      ensures false
    {
      HostLetters(s, i);
    }
  }

  /** The three literal URL prefixes, spelled around the host. */
  lemma PrefixLiterals()
    ensures "https://" + Host + "/" == "https://github.com/"
    ensures "git@" + Host + ":" == "git@github.com:"
    ensures "https://not" + Host + "/" == "https://notgithub.com/"
  {
  }

  /** The https form parses. */
  lemma HttpsForm(owner: string, repo: string)
    requires owner != [] && '/' !in owner && repo != [] && '/' !in repo
    ensures ParseGitHubUrl("https://github.com/" + owner + "/" + repo)
      == Ok(GitHubRepo(owner, RepoName(repo), "https://github.com/" + owner + "/" + RepoName(repo)))
  {
    var prefix := "https://";
    assert |prefix| == 8;
    var s := prefix + Host + "/" + owner + "/" + repo;
    forall i | 0 <= i < 8
      ensures s[i] != 'g'
    {
      assert s[i] == prefix[i];
    }
    NoHostBefore(s, 8);
    ParseAfterPrefix(prefix, '/', owner, repo);
    PrefixLiterals();
  }

  /** The ssh form `git@github.com:owner/repo.git` parses, without the
      ".git". */
  lemma SshForm(owner: string, name: string)
    requires owner != [] && '/' !in owner && name != [] && '/' !in name
    ensures ParseGitHubUrl("git@github.com:" + owner + "/" + name + ".git")
      == Ok(GitHubRepo(owner, name, "https://github.com/" + owner + "/" + name))
  {
    var prefix := "git@";
    assert |prefix| == 4;
    var repo := name + ".git";
    var s := prefix + Host + ":" + owner + "/" + repo;
    forall i | 0 <= i < 4
      ensures s[i] != 'g' || (i + 3 < |s| && s[i + 3] != 'h')
    {
      assert s[i] == prefix[i];
      assert s[3] == '@';
    }
    NoHostBefore(s, 4);
    ParseAfterPrefix(prefix, ':', owner, repo);
    assert |repo| > 4 && repo[|repo| - 4..] == ".git";
    assert repo[..|repo| - 4] == name;
    assert RepoName(repo) == name;
    PrefixLiterals();
    var start := "git@github.com:" + owner + "/";
    assert s == start + repo;
    assert start + name + ".git" == start + repo;
  }

  /** The host check is a substring test: "notgithub.com" passes. */
  lemma LookalikeHostAccepted(owner: string, repo: string)
    requires owner != [] && '/' !in owner && repo != [] && '/' !in repo
    ensures ParseGitHubUrl("https://notgithub.com/" + owner + "/" + repo).Ok?
  {
    var prefix := "https://not";
    assert |prefix| == 11;
    var s := prefix + Host + "/" + owner + "/" + repo;
    forall i | 0 <= i < 11
      ensures s[i] != 'g'
    {
      assert s[i] == prefix[i];
    }
    NoHostBefore(s, 11);
    ParseAfterPrefix(prefix, '/', owner, repo);
    PrefixLiterals();
  }

  /** A third path segment makes the URL invalid when the host occurs
      only once. */
  lemma ExtraSegmentRejected(owner: string, repo: string, more: string)
    requires '/' !in owner && '/' !in repo
    requires forall i :: OccursAt("https://github.com/" + owner + "/" + repo + "/" + more, Host, i) ==> i == 8
    ensures ParseGitHubUrl("https://github.com/" + owner + "/" + repo + "/" + more).Err?
  {
    var s := "https://github.com/" + owner + "/" + repo + "/" + more;
    assert s[..19] == "https://github.com/";
    var t := s[19..];
    assert t == owner + "/" + (repo + "/" + more);
    SplitCharAt(owner, '/', repo + "/" + more);
    SplitCharAt(repo, '/', more);
    assert MatchAt(s, 8).None?;
  }

  /** The URL a parse returns parses back to the same owner and
      repository, unless the repository name itself ends in ".git". */
  lemma ReparseCanonicalUrl(s: string)
    requires ParseGitHubUrl(s).Ok?
    requires !EndsWith(ParseGitHubUrl(s).value.repo, ".git")
    ensures ParseGitHubUrl(ParseGitHubUrl(s).value.url) == ParseGitHubUrl(s)
  {
    var r := ParseGitHubUrl(s).value;
    HttpsForm(r.owner, r.repo);
    assert RepoName(r.repo) == r.repo;
  }
}
