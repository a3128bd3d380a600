/** The earlier single-script analyzer (api/analyze_repo.py): languages,
    frameworks, dependency lists, endpoints and top-level folders of a
    checkout, gathered into one record. Python sets are kept as
    duplicate-free sequences and dicts as `Listing`s. */
module LegacyAnalyzer {
  import opened Wrappers
  import opened Strings
  import opened FileTree
  import opened Dependencies
  import opened LegacyEndpoints

  // ---------------------------------------------------------------------
  // detect_languages
  // ---------------------------------------------------------------------

  /** Language name and the file suffixes that reveal it, in dict order. */
  const LanguagePatterns: seq<(string, set<string>)> := [
    ("javascript", {".js", ".jsx", ".mjs"}),
    ("typescript", {".ts", ".tsx"}),
    ("python", {".py"}),
    ("java", {".java"}),
    ("go", {".go"}),
    ("rust", {".rs"}),
    ("ruby", {".rb"}),
    ("php", {".php"}),
    ("csharp", {".cs"}),
    ("cpp", {".cpp", ".cc", ".cxx", ".h", ".hpp"}),
    ("c", {".c"})
  ]

  /** Folders the language walk does not descend into, at any depth. */
  const LanguagePruned: set<string> := {".git", "node_modules", ".venv", "venv", "dist", "build", "__pycache__"}

  /** The test applied to a file name for language `lang`: some entry of
      the table names `lang` and lists the name's lower-cased suffix. */
  predicate RevealsLanguage(table: seq<(string, set<string>)>, lang: string, name: string) {
    exists m :: 0 <= m < |table| && table[m].0 == lang && Lower(Suffix(name)) in table[m].1
  }

  /** The same test as a function of the file name, as the walk takes it. */
  function Reveals(table: seq<(string, set<string>)>, lang: string): string -> bool {
    name => RevealsLanguage(table, lang, name)
  }

  /** Some file outside the pruned folders reveals the language. */
  predicate LanguageUsed(root: Node, lang: string) {
    SomeFileBelow(root, Reveals(LanguagePatterns, lang), LanguagePruned)
  }

  /** The inner loop over a language table for one file. */
  method AddFileLanguages(table: seq<(string, set<string>)>, langs: seq<string>, name: string) returns (r: seq<string>)
    requires NoDuplicates(langs)
    ensures NoDuplicates(r)
    ensures forall l :: l in r <==> l in langs || RevealsLanguage(table, l, name)
  {
    var ext := Lower(Suffix(name));
    r := langs;
    for m := 0 to |table|
      invariant NoDuplicates(r)
      invariant forall l :: l in r <==> (l in langs ||
        exists m' :: 0 <= m' < m && table[m'].0 == l && ext in table[m'].1)
    {
      if ext in table[m].1 {
        r := AddUnique(r, table[m].0);
      }
    }
  }

  lemma FileSeenInSnoc(steps: seq<WalkStep>, k: nat, P: string -> bool)
    requires k < |steps|
    ensures FileSeenIn(steps[..k + 1], P) <==>
            FileSeenIn(steps[..k], P) || exists j :: 0 <= j < |steps[k].files| && P(steps[k].files[j].name)
  {
    assert steps[..k + 1] == steps[..k] + [steps[k]];
    FileSeenInAppend(steps[..k], [steps[k]], P);
    if exists j :: 0 <= j < |steps[k].files| && P(steps[k].files[j].name) {
      var j :| 0 <= j < |steps[k].files| && P(steps[k].files[j].name);
      assert [steps[k]][0] == steps[k];
    }
  }

  /** The loop of `detect_languages` over one folder's files. */
  method AddStepLanguages(table: seq<(string, set<string>)>, langs: seq<string>, files: seq<Node>) returns (r: seq<string>)
    requires NoDuplicates(langs)
    ensures NoDuplicates(r)
    ensures forall l :: l in r <==> l in langs || exists j :: 0 <= j < |files| && RevealsLanguage(table, l, files[j].name)
  {
    r := langs;
    for j := 0 to |files|
      invariant NoDuplicates(r)
      invariant forall l :: l in r <==> l in langs || exists j' :: 0 <= j' < j && RevealsLanguage(table, l, files[j'].name)
    {
      r := AddFileLanguages(table, r, files[j].name);
    }
  }

  /** The loop of `detect_languages` over the walk, for any language table. */
  method LanguagesSeen(steps: seq<WalkStep>, table: seq<(string, set<string>)>) returns (langs: seq<string>)
    ensures NoDuplicates(langs)
    ensures forall l :: l in langs <==> FileSeenIn(steps, Reveals(table, l))
  {
    langs := [];
    for k := 0 to |steps|
      invariant NoDuplicates(langs)
      invariant forall l :: l in langs <==> FileSeenIn(steps[..k], Reveals(table, l))
    {
      langs := AddStepLanguages(table, langs, steps[k].files);
      forall l ensures l in langs <==> FileSeenIn(steps[..k + 1], Reveals(table, l)) {
        FileSeenInSnoc(steps, k, Reveals(table, l));
        assert forall j :: 0 <= j < |steps[k].files| ==>
          (Reveals(table, l)(steps[k].files[j].name) <==> RevealsLanguage(table, l, steps[k].files[j].name));
      }
    }
    assert steps[..|steps|] == steps;
  }

  /** `detect_languages(repo_path)`: a language is reported exactly when
      some file outside the pruned folders has one of its suffixes, in any
      letter case. */
  method DetectLanguages(repoPath: string, root: Node) returns (langs: seq<string>)
    ensures NoDuplicates(langs)
    ensures forall l :: l in langs <==> LanguageUsed(root, l)
  {
    langs := LanguagesSeen(Walk(repoPath, root, LanguagePruned), LanguagePatterns);
    forall l {
      WalkSeesFiles(repoPath, root, Reveals(LanguagePatterns, l), LanguagePruned);
    }
  }

  /** Only names of the table are ever reported. */
  lemma {:induction false} OnlyTableLanguages(root: Node, l: string)
    requires LanguageUsed(root, l)
    ensures exists m :: 0 <= m < |LanguagePatterns| && LanguagePatterns[m].0 == l
  {
    var steps := Walk("", root, LanguagePruned);
    WalkSeesFiles("", root, Reveals(LanguagePatterns, l), LanguagePruned);
    var k, j :| 0 <= k < |steps| && 0 <= j < |steps[k].files| && Reveals(LanguagePatterns, l)(steps[k].files[j].name);
  }

  /** An upper-case suffix is found and lower-cased; a leading dot alone
      is no suffix. */
  lemma UpperSuffixExample()
    ensures Lower(Suffix("APP.PY")) == ".py"
  {
    var name := "APP.PY";
    assert name[5] != '.' && name[4] != '.' && name[3] == '.';
    assert LastIndexOf(name, '.') == Some(3);
    assert Suffix(name) == ".PY";
  }

  /** A dot file has no suffix: ".py" is not Python. */
  lemma HiddenFileExample()
    ensures Suffix(".py") == ""
  {
    assert LastIndexOf(".py", '.') == Some(0);
  }

  // ---------------------------------------------------------------------
  // detect_frameworks
  // ---------------------------------------------------------------------

  /** Marker paths below the root and the tags each adds, in dict order. */
  const KeyFiles: seq<(seq<string>, seq<string>)> := [
    (["package.json"], ["nodejs", "npm"]),
    (["yarn.lock"], ["yarn"]),
    (["requirements.txt"], ["python", "pip"]),
    (["setup.py"], ["python"]),
    (["Dockerfile"], ["docker"]),
    (["docker-compose.yml"], ["docker-compose"]),
    ([".github", "workflows"], ["github-actions"]),
    (["tsconfig.json"], ["typescript"]),
    (["next.config.js"], ["nextjs"]),
    (["nuxt.config.js"], ["nuxt"]),
    (["vite.config.js"], ["vite"]),
    (["webpack.config.js"], ["webpack"]),
    (["babel.config.js"], ["babel"]),
    (["Gemfile"], ["ruby"]),
    (["go.mod"], ["go"]),
    (["Cargo.toml"], ["rust"]),
    (["pom.xml"], ["maven"]),
    (["build.gradle"], ["gradle"]),
    ([".gitlab-ci.yml"], ["gitlab-ci"])
  ]

  /** Package names that are reported as framework tags of the same name. */
  const PackageFrameworks: seq<string> := ["react", "vue", "angular", "express", "fastify", "django"]

  /** The keys of one decoded dependency table. */
  function KeysOf(d: Dict): (r: seq<string>)
    ensures forall k :: k in r <==> exists i :: 0 <= i < |d| && d[i].0 == k
  {
    var r := seq(|d|, i requires 0 <= i < |d| => d[i].0);
    assert forall i :: 0 <= i < |d| ==> r[i] == d[i].0;
    r
  }

  /** The keys of `dependencies` followed by those of `devDependencies`;
      None when opening, decoding or reading either table raises. */
  function DeclaredPackages(root: Node): Option<seq<string>> {
    match Dependencies.PackageDoc(root)
    case None => None
    case Some((deps, devDeps)) =>
      match (TableOf(deps), TableOf(devDeps))
      case (Some(a), Some(b)) => Some(KeysOf(a) + KeysOf(b))
      case _ => None
  }

  /** The tag comes from a marker path that exists. */
  predicate MarkerTag(root: Node, t: string) {
    exists k :: 0 <= k < |KeyFiles| && Lookup(root, KeyFiles[k].0).Some? && t in KeyFiles[k].1
  }

  /** The tag is a package the root package.json declares. */
  predicate PackageTag(root: Node, t: string) {
    t in PackageFrameworks && DeclaredPackages(root).Some? && t in DeclaredPackages(root).value
  }

  /** `frameworks.update(tags)`. */
  function AddAll(s: seq<string>, tags: seq<string>): (r: seq<string>)
    ensures NoDuplicates(s) ==> NoDuplicates(r)
    ensures forall y :: y in r <==> y in s || y in tags
    decreases tags
  {
    if tags == [] then s else AddAll(AddUnique(s, tags[0]), tags[1..])
  }

  /** The marker loop of `detect_frameworks`, for any marker table. */
  method MarkerTags(root: Node, table: seq<(seq<string>, seq<string>)>) returns (fw: seq<string>)
    ensures NoDuplicates(fw)
    ensures forall t :: t in fw <==> exists k :: 0 <= k < |table| && Lookup(root, table[k].0).Some? && t in table[k].1
  {
    fw := [];
    for k := 0 to |table|
      invariant NoDuplicates(fw)
      invariant forall t :: t in fw <==> exists k' :: 0 <= k' < k && Lookup(root, table[k'].0).Some? && t in table[k'].1
    {
      if Lookup(root, table[k].0).Some? {
        fw := AddAll(fw, table[k].1);
      }
    }
  }

  /** `detect_frameworks(repo_path, languages)`; the language set is not
      consulted. A package.json that cannot be read leaves the marker tags. */
  method DetectFrameworks(repoPath: string, root: Node, languages: seq<string>) returns (fw: seq<string>)
    ensures NoDuplicates(fw)
    ensures forall t :: t in fw <==> MarkerTag(root, t) || PackageTag(root, t)
  {
    fw := MarkerTags(root, KeyFiles);
    ghost var markers := fw;
    var declared := DeclaredPackages(root);
    if declared.Some? {
      for j := 0 to |PackageFrameworks|
        invariant NoDuplicates(fw)
        invariant forall t :: t in fw <==> t in markers || (t in PackageFrameworks[..j] && t in declared.value)
      {
        if PackageFrameworks[j] in declared.value {
          fw := AddUnique(fw, PackageFrameworks[j]);
        }
        assert PackageFrameworks[..j + 1] == PackageFrameworks[..j] + [PackageFrameworks[j]];
      }
      assert PackageFrameworks[..|PackageFrameworks|] == PackageFrameworks;
    }
  }

  /** A root package.json always gives "nodejs" and "npm", whether or not
      it can be decoded. */
  lemma PackageJsonMarkers(root: Node)
    requires HasEntry(root, "package.json")
    ensures MarkerTag(root, "nodejs") && MarkerTag(root, "npm")
  {
    assert KeyFiles[0] == (["package.json"], ["nodejs", "npm"]);
  }

  // ---------------------------------------------------------------------
  // parse_dependencies
  // ---------------------------------------------------------------------

  /** The keys of `dependencies` only; None when reading it raises. */
  function NpmNames(root: Node): Option<seq<string>> {
    match Dependencies.PackageDoc(root)
    case None => None
    case Some((deps, _)) =>
      match TableOf(deps)
      case None => None
      case Some(d) => Some(KeysOf(d))
  }

  /** The "npm" entry: the 20 smallest dependency names, sorted; absent
      when there are none. */
  function NpmEntry(root: Node): (r: Option<seq<string>>)
    ensures r.Some? <==> NpmNames(root).Some? && NpmNames(root).value != []
    ensures r.Some? ==> Sorted(r.value) && NoDuplicates(r.value) && 0 < |r.value| <= 20
    ensures r.Some? ==> forall x :: x in r.value ==> x in NpmNames(root).value
    ensures r.Some? ==> forall x :: x in NpmNames(root).value && x !in r.value ==>
      |r.value| == 20 && forall y :: y in r.value ==> LexLe(y, x)
  {
    match NpmNames(root)
    case None => None
    case Some(names) => if names == [] then None else Some(SmallestDistinct(names, 20))
  }

  /** A raw line `pip` keeps: something is left after stripping, and the
      line itself does not start with "#". */
  predicate IsRequirementLine(line: string) {
    Strip(line) != [] && !StartsWith(line, "#")
  }

  /** A raw Gemfile line `bundler` keeps. */
  predicate IsGemLine(line: string) {
    Contains(line, "gem ")
  }

  /** Which of the two line tests a reader applies. */
  datatype LineRule = RequirementRule | GemRule

  predicate Keeps(rule: LineRule, line: string) {
    match rule
    case RequirementRule => IsRequirementLine(line)
    case GemRule => IsGemLine(line)
  }

  /** `[line.strip() for line in f if Keeps(rule, line)]`, the list both the
      requirements.txt and the Gemfile readers build. */
  function StrippedWhere(lines: seq<string>, rule: LineRule): (r: seq<string>)
    ensures |r| <= |lines|
  {
    if lines == [] then []
    else StrippedWhere(lines[..|lines| - 1], rule) + (if Keeps(rule, lines[|lines| - 1]) then [Strip(lines[|lines| - 1])] else [])
  }

  /** Every kept entry is the stripped form of a line that passes the test. */
  lemma {:induction false} StrippedWhereSound(lines: seq<string>, rule: LineRule, x: string)
    requires x in StrippedWhere(lines, rule)
    ensures exists i :: 0 <= i < |lines| && Keeps(rule, lines[i]) && x == Strip(lines[i])
    decreases |lines|
  {
    var init := lines[..|lines| - 1];
    if x in StrippedWhere(init, rule) {
      StrippedWhereSound(init, rule, x);
      var i :| 0 <= i < |init| && Keeps(rule, init[i]) && x == Strip(init[i]);
      assert lines[i] == init[i];
    } else {
      assert Keeps(rule, lines[|lines| - 1]) && x == Strip(lines[|lines| - 1]);
    }
  }

  /** Every line that passes the test is kept, stripped. */
  lemma {:induction false} StrippedWhereComplete(lines: seq<string>, rule: LineRule, i: nat)
    requires i < |lines| && Keeps(rule, lines[i])
    ensures Strip(lines[i]) in StrippedWhere(lines, rule)
    decreases |lines|
  {
    var init := lines[..|lines| - 1];
    var last := if Keeps(rule, lines[|lines| - 1]) then [Strip(lines[|lines| - 1])] else [];
    assert StrippedWhere(lines, rule) == StrippedWhere(init, rule) + last;
    if i < |init| {
      assert init[i] == lines[i];
      StrippedWhereComplete(init, rule, i);
    } else {
      assert last == [Strip(lines[i])];
    }
  }

  /** The comment test looks at the raw line: a comment indented by a
      blank is kept as a requirement, stripped. */
  lemma IndentedCommentKept(c: string)
    requires c != [] && c[0] == '#' && !IsSpace(c[|c| - 1])
    ensures StrippedWhere([" " + c], RequirementRule) == [c]
  {
    var line := " " + c;
    assert LStrip(line) == c by {
      assert line[1..] == c;
    }
    assert RStrip(c) == c;
    assert line[..1] == " ";
    var lines: seq<string> := [line];
    assert lines[..0] == [];
  }

  /** A comment at the start of the line is dropped. */
  lemma LeadingCommentDropped(c: string)
    requires c != [] && c[0] == '#'
    ensures StrippedWhere([c], RequirementRule) == []
  {
    assert c[..1] == "#";
    var lines: seq<string> := [c];
    assert lines[..0] == [];
  }

  /** The "pip" entry: the first 20 kept lines of requirements.txt, absent
      when the file is missing, unreadable or keeps nothing; each kept
      entry is non-empty and starts with no blank. */
  function PipEntry(root: Node): (r: Option<seq<string>>)
    ensures r.Some? <==> (TextLinesAt(root, "requirements.txt").Some? &&
      StrippedWhere(TextLinesAt(root, "requirements.txt").value, RequirementRule) != [])
    ensures r.Some? ==> (0 < |r.value| <= 20 &&
      r.value == Take(StrippedWhere(TextLinesAt(root, "requirements.txt").value, RequirementRule), 20))
    ensures r.Some? ==> forall x :: x in r.value ==> x != [] && !IsSpace(x[0])
  {
    match TextLinesAt(root, "requirements.txt")
    case None => None
    case Some(lines) =>
      var reqs := StrippedWhere(lines, RequirementRule);
      if reqs == [] then None
      else
        var r := Take(reqs, 20);
        forall x | x in r ensures x != [] && !IsSpace(x[0]) {
          StrippedWhereSound(lines, RequirementRule, x);
          var i :| 0 <= i < |lines| && Keeps(RequirementRule, lines[i]) && x == Strip(lines[i]);
        }
        Some(r)
  }

  /** The "bundler" entry: the first 20 kept Gemfile lines, stripped. */
  function GemEntry(root: Node): (r: Option<seq<string>>)
    ensures r.Some? <==> TextLinesAt(root, "Gemfile").Some? && StrippedWhere(TextLinesAt(root, "Gemfile").value, GemRule) != []
    ensures r.Some? ==> 0 < |r.value| <= 20 && r.value == Take(StrippedWhere(TextLinesAt(root, "Gemfile").value, GemRule), 20)
  {
    match TextLinesAt(root, "Gemfile")
    case None => None
    case Some(lines) =>
      var gems := StrippedWhere(lines, GemRule);
      if gems == [] then None else Some(Take(gems, 20))
  }

  /** Position of a manager in the order `parse_dependencies` fills them. */
  function ManagerRank(key: string): nat {
    if key == "npm" then 0 else if key == "pip" then 1 else 2
  }

  /** The listing built from the three managers' optional lists. */
  function ManagerListing(npm: Option<seq<string>>, pip: Option<seq<string>>, bundler: Option<seq<string>>): (r: Listing)
    ensures forall i, j :: 0 <= i < j < |r| ==> ManagerRank(r[i].0) < ManagerRank(r[j].0)
    ensures forall key, v :: (key, v) in r <==>
      (key == "npm" && npm == Some(v)) || (key == "pip" && pip == Some(v)) || (key == "bundler" && bundler == Some(v))
  {
    var a := Entry("npm", npm);
    var b := Entry("pip", pip);
    var c := Entry("bundler", bundler);
    assert forall e :: e in a + b + c <==> e in a || e in b || e in c;
    a + b + c
  }

  /** `parse_dependencies(repo_path)`: "npm", "pip" and "bundler" in that
      order, each present exactly when its list is, with that list, which
      is never empty and holds at most 20 names. */
  function ParseDependencies(root: Node): (r: Listing)
    ensures forall i, j :: 0 <= i < j < |r| ==> ManagerRank(r[i].0) < ManagerRank(r[j].0)
    ensures forall key, v :: (key, v) in r <==>
      (key == "npm" && NpmEntry(root) == Some(v)) ||
      (key == "pip" && PipEntry(root) == Some(v)) ||
      (key == "bundler" && GemEntry(root) == Some(v))
    ensures forall i :: 0 <= i < |r| ==> 0 < |r[i].1| <= 20
  {
    var npm := NpmEntry(root);
    var pip := PipEntry(root);
    var bundler := GemEntry(root);
    ManagerListingBounded(npm, pip, bundler, 20);
    ManagerListing(npm, pip, bundler)
  }

  /** Every list in the listing keeps the bound its manager's list has. */
  lemma ManagerListingBounded(npm: Option<seq<string>>, pip: Option<seq<string>>, bundler: Option<seq<string>>, n: nat)
    requires npm.Some? ==> 0 < |npm.value| <= n
    requires pip.Some? ==> 0 < |pip.value| <= n
    requires bundler.Some? ==> 0 < |bundler.value| <= n
    ensures var r := ManagerListing(npm, pip, bundler); forall i :: 0 <= i < |r| ==> 0 < |r[i].1| <= n
  {
    var r := ManagerListing(npm, pip, bundler);
    assert forall i :: 0 <= i < |r| ==> r[i] in r;
  }

  // ---------------------------------------------------------------------
  // get_top_level_dirs, detect_dockerfile
  // ---------------------------------------------------------------------

  predicate IsShownDir(n: Node) {
    n.Dir? && !StartsWith(n.name, ".") && n.name != "node_modules"
  }

  function ShownDirNames(cs: seq<Node>): (r: seq<string>)
    ensures forall d :: d in r <==> exists i :: 0 <= i < |cs| && IsShownDir(cs[i]) && cs[i].name == d
  {
    if cs == [] then []
    else
      assert forall i :: 0 <= i < |cs| - 1 ==> cs[1..][i] == cs[i + 1];
      (if IsShownDir(cs[0]) then [cs[0].name] else []) + ShownDirNames(cs[1..])
  }

  /** `get_top_level_dirs(repo_path)`: the root's folders that are neither
      hidden nor node_modules, sorted; [] when the root cannot be listed. */
  function TopLevelDirs(root: Node): (r: seq<string>)
    ensures Sorted(r)
    ensures forall d :: d in r <==> Listable(root) && exists i :: 0 <= i < |root.children| && IsShownDir(root.children[i]) && root.children[i].name == d
    ensures Listable(root) ==> multiset(r) == multiset(ShownDirNames(root.children))
    ensures WellFormed(root) ==> NoDuplicates(r)
  {
    if !Listable(root) then []
    else
      var names := ShownDirNames(root.children);
      var r := Sort(names);
      assert forall d :: d in r <==> d in multiset(r);
      assert forall d :: d in names <==> d in multiset(names);
      if WellFormed(root) then
        ShownDirNamesDistinct(root.children);
        SortKeepsNoDuplicates(names);
        r
      else r
  }

  /** Entries with distinct names give distinct folder names. */
  lemma {:induction false} ShownDirNamesDistinct(cs: seq<Node>)
    requires forall i, j :: 0 <= i < j < |cs| ==> cs[i].name != cs[j].name
    ensures NoDuplicates(ShownDirNames(cs))
  {
    if cs != [] {
      ShownDirNamesDistinct(cs[1..]);
      var rest := ShownDirNames(cs[1..]);
      if IsShownDir(cs[0]) {
        forall k | 0 <= k < |rest| ensures rest[k] != cs[0].name {
          assert rest[k] in rest;
          var i :| 0 <= i < |cs[1..]| && IsShownDir(cs[1..][i]) && cs[1..][i].name == rest[k];
          assert cs[i + 1].name == rest[k];
        }
      }
    }
  }

  /** `detect_dockerfile(repo_path)`. */
  predicate DetectDockerfile(root: Node) {
    HasEntry(root, "Dockerfile")
  }

  // ---------------------------------------------------------------------
  // analyze_repo
  // ---------------------------------------------------------------------

  /** The record `analyze_repo` returns. */
  datatype RepoShape = RepoShape(
    url: string,
    languages: seq<string>,
    frameworks: seq<string>,
    dependencies: Listing,
    apiEndpoints: Listing,
    topLevelDirectories: seq<string>,
    hasDockerfile: bool,
    fileCount: nat)

  /** `sum(len(files) for _, _, files in os.walk(repo_path))`. */
  method CountFiles(repoPath: string, root: Node) returns (count: nat)
    ensures count == FileCount(root)
  {
    var steps := Walk(repoPath, root, {});
    count := 0;
    for k := 0 to |steps|
      invariant count == StepFiles(steps[..k])
    {
      StepFilesAppend(steps[..k], [steps[k]]);
      assert steps[..k + 1] == steps[..k] + [steps[k]];
      count := count + |steps[k].files|;
    }
    assert steps[..|steps|] == steps;
    WalkCountsFiles(repoPath, root);
  }

  /** `analyze_repo(repo_url, repo_path)` on a checkout already in place. */
  method AnalyzeRepo(url: string, repoPath: string, root: Node) returns (shape: RepoShape)
    ensures shape.url == url
    ensures Sorted(shape.languages) && NoDuplicates(shape.languages)
    ensures forall l :: l in shape.languages <==> LanguageUsed(root, l)
    ensures Sorted(shape.frameworks) && NoDuplicates(shape.frameworks)
    ensures forall t :: t in shape.frameworks <==> MarkerTag(root, t) || PackageTag(root, t)
    ensures shape.dependencies == ParseDependencies(root)
    ensures shape.apiEndpoints == Endpoints(NextjsRoutes(root),
                                            WalkEndpoints(Walk(repoPath, root, RoutePruned), "app."),
                                            WalkEndpoints(Walk(repoPath, root, RoutePruned), "@app."))
    ensures shape.topLevelDirectories == TopLevelDirs(root)
    ensures shape.hasDockerfile == DetectDockerfile(root)
    ensures shape.fileCount == FileCount(root)
  {
    var languages := DetectLanguages(repoPath, root);
    var frameworks := DetectFrameworks(repoPath, root, languages);
    var dependencies := ParseDependencies(root);
    var endpoints := FindApiEndpoints(repoPath, root);
    var dirs := TopLevelDirs(root);
    var docker := DetectDockerfile(root);
    var count := CountFiles(repoPath, root);
    var sortedLanguages := Sort(languages);
    var sortedFrameworks := Sort(frameworks);
    SortKeepsNoDuplicates(languages);
    SortKeepsNoDuplicates(frameworks);
    assert forall l :: l in sortedLanguages <==> l in multiset(sortedLanguages);
    assert forall l :: l in languages <==> l in multiset(languages);
    assert forall t :: t in sortedFrameworks <==> t in multiset(sortedFrameworks);
    assert forall t :: t in frameworks <==> t in multiset(frameworks);
    shape := RepoShape(url, sortedLanguages, sortedFrameworks, dependencies, endpoints, dirs, docker, count);
  }
}
