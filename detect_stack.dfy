/** Stack detection (api/analysis/detect_stack.py): languages by file
    extension, frameworks by marker files at the root, and a coarse
    structure type. */
module DetectStack {
  import opened Wrappers
  import opened Strings
  import opened FileTree

  /** EXTENSION_LANGUAGE_MAP in declaration order. */
  const ExtensionLanguageMap: seq<(string, string)> := [
    (".js", "JavaScript"), (".ts", "TypeScript"), (".jsx", "JavaScript"), (".tsx", "TypeScript"),
    (".py", "Python"), (".java", "Java"), (".go", "Go"), (".rs", "Rust"),
    (".cpp", "C++"), (".c", "C"), (".cs", "C#"), (".php", "PHP")
  ]

  predicate IsLanguage(lang: string) {
    exists i :: 0 <= i < |ExtensionLanguageMap| && ExtensionLanguageMap[i].1 == lang
  }

  /** `EXTENSION_LANGUAGE_MAP.get(ext)`: an exact, case-sensitive key match. */
  function LanguageOf(ext: string): (r: Option<string>)
    ensures r.Some? <==> exists i :: 0 <= i < |ExtensionLanguageMap| && ExtensionLanguageMap[i].0 == ext
    ensures r.Some? ==> IsLanguage(r.value)
  {
    LookupIn(ExtensionLanguageMap, ext)
  }

  function LookupIn(m: seq<(string, string)>, key: string): (r: Option<string>)
    ensures r.Some? <==> exists i :: 0 <= i < |m| && m[i].0 == key
    ensures r.Some? ==> exists i :: 0 <= i < |m| && m[i] == (key, r.value)
  {
    if m == [] then None
    else if m[0].0 == key then Some(m[0].1)
    else
      var r := LookupIn(m[1..], key);
      assert r.Some? ==> exists i :: 0 <= i < |m| && m[i] == (key, r.value) by {
        if r.Some? {
          var i :| 0 <= i < |m[1..]| && m[1..][i] == (key, r.value);
          assert m[i + 1] == (key, r.value);
        }
      }
      r
  }

  /** `os.path.splitext(name)[1]` for a bare file name: from the last dot,
      unless only dots precede it (".bashrc" has no extension). */
  function SplitExt(name: string): (ext: string)
    ensures ext == [] || (ext[0] == '.' && EndsWith(name, ext) && '.' !in ext[1..])
  {
    match LastIndexOf(name, '.')
    case None => ""
    case Some(d) => if exists k :: 0 <= k < d && name[k] != '.' then name[d..] else ""
  }

  /** Number of `files` whose extension maps to `lang`. */
  function CountIn(files: seq<Node>, lang: string): nat {
    if files == [] then 0
    else CountIn(files[..|files| - 1], lang)
         + (if LanguageOf(SplitExt(files[|files| - 1].name)) == Some(lang) then 1 else 0)
  }

  /** Number of files counted for `lang` over walk steps, skipping every step
      whose root path contains ".git". */
  function Counted(steps: seq<WalkStep>, lang: string): nat {
    if steps == [] then 0
    else Counted(steps[..|steps| - 1], lang)
         + (if Contains(steps[|steps| - 1].root, ".git") then 0 else CountIn(steps[|steps| - 1].files, lang))
  }

  // ---------------------------------------------------------------------
  // collections.Counter, kept as (key, count) pairs in insertion order
  // ---------------------------------------------------------------------

  type Tally = seq<(string, nat)>

  predicate KeysDistinct(t: Tally) {
    forall i, j :: 0 <= i < j < |t| ==> t[i].0 != t[j].0
  }

  function CountOf(t: Tally, key: string): nat {
    if t == [] then 0 else if t[0].0 == key then t[0].1 else CountOf(t[1..], key)
  }

  lemma CountOfAt(t: Tally, i: nat)
    requires KeysDistinct(t) && i < |t|
    ensures CountOf(t, t[i].0) == t[i].1
  {
    if i > 0 {
      CountOfAt(t[1..], i - 1);
    }
  }

  lemma CountOfAbsent(t: Tally, key: string)
    requires forall i :: 0 <= i < |t| ==> t[i].0 != key
    ensures CountOf(t, key) == 0
  {
  }

  /** Every entry of the tally is a language seen at least once. */
  predicate Positive(t: Tally) {
    forall i :: 0 <= i < |t| ==> t[i].1 > 0 && IsLanguage(t[i].0)
  }

  /** `counter[key] += 1`. */
  function Increment(t: Tally, key: string): (r: Tally)
    ensures CountOf(r, key) == CountOf(t, key) + 1
    ensures forall k :: k != key ==> CountOf(r, k) == CountOf(t, k)
  {
    if t == [] then [(key, 1)]
    else if t[0].0 == key then [(key, t[0].1 + 1)] + t[1..]
    else [t[0]] + Increment(t[1..], key)
  }

  /** Incrementing adds no key other than `key`. */
  lemma {:induction false} IncrementAbsent(t: Tally, key: string, k: string)
    requires k != key && forall i :: 0 <= i < |t| ==> t[i].0 != k
    ensures forall i :: 0 <= i < |Increment(t, key)| ==> Increment(t, key)[i].0 != k
  {
    if t != [] {
      var r := Increment(t, key);
      if t[0].0 == key {
        assert r == [(key, t[0].1 + 1)] + t[1..];
        assert forall i :: 1 <= i < |r| ==> r[i] == t[i];
      } else {
        IncrementAbsent(t[1..], key, k);
        var rest := Increment(t[1..], key);
        assert r == [t[0]] + rest;
        forall i | 0 <= i < |r| ensures r[i].0 != k {
          if i > 0 {
            assert r[i] == rest[i - 1];
          }
        }
      }
    }
  }

  /** Incrementing a language keeps every count positive and every key a
      language. */
  lemma {:induction false} IncrementPositive(t: Tally, key: string)
    requires Positive(t) && IsLanguage(key)
    ensures Positive(Increment(t, key))
  {
    if t != [] && t[0].0 != key {
      IncrementPositive(t[1..], key);
    }
  }

  /** Incrementing keeps the keys of the tally distinct. */
  lemma {:induction false} IncrementDistinct(t: Tally, key: string)
    requires KeysDistinct(t)
    ensures KeysDistinct(Increment(t, key))
  {
    if t != [] {
      var r := Increment(t, key);
      if t[0].0 == key {
        assert r == [(key, t[0].1 + 1)] + t[1..];
        assert forall i :: 1 <= i < |r| ==> r[i] == t[i];
      } else {
        IncrementDistinct(t[1..], key);
        IncrementAbsent(t[1..], key, t[0].0);
        var rest := Increment(t[1..], key);
        assert r == [t[0]] + rest;
        forall i, j | 0 <= i < j < |r| ensures r[i].0 != r[j].0 {
          assert r[j] == rest[j - 1];
          if i > 0 {
            assert r[i] == rest[i - 1];
          }
        }
      }
    }
  }

  /** The inner loop: counts the files of one walk step into the tally. */
  method TallyFiles(counter: Tally, files: seq<Node>) returns (r: Tally)
    requires KeysDistinct(counter) && Positive(counter)
    ensures KeysDistinct(r) && Positive(r)
    ensures forall lang :: CountOf(r, lang) == CountOf(counter, lang) + CountIn(files, lang)
  {
    r := counter;
    for j := 0 to |files|
      invariant KeysDistinct(r) && Positive(r)
      invariant forall lang :: CountOf(r, lang) == CountOf(counter, lang) + CountIn(files[..j], lang)
    {
      assert files[..j + 1][..j] == files[..j];
      var ext := SplitExt(files[j].name);
      var lang := LanguageOf(ext);
      if lang.Some? {
        IncrementDistinct(r, lang.value);
        IncrementPositive(r, lang.value);
        r := Increment(r, lang.value);
      }
    }
    assert files[..|files|] == files;
  }

  /** The counting loop of `detect_stack` over the steps of `os.walk`. */
  method CountLanguages(steps: seq<WalkStep>) returns (counter: Tally)
    ensures KeysDistinct(counter) && Positive(counter)
    ensures forall lang :: CountOf(counter, lang) == Counted(steps, lang)
  {
    counter := [];
    for k := 0 to |steps|
      invariant KeysDistinct(counter) && Positive(counter)
      invariant forall lang :: CountOf(counter, lang) == Counted(steps[..k], lang)
    {
      assert steps[..k + 1][..k] == steps[..k];
      var step := steps[k];
      if Contains(step.root, ".git") {
        continue;
      }
      counter := TallyFiles(counter, step.files);
    }
    assert steps[..|steps|] == steps;
  }

  // ---------------------------------------------------------------------
  // Counter.most_common(3): a stable sort by decreasing count, then a cut
  // ---------------------------------------------------------------------

  predicate ByCountDesc(t: Tally) {
    forall i, j :: 0 <= i < j < |t| ==> t[i].1 >= t[j].1
  }

  /** Inserts `x` before the first pair whose count is not larger, so that
      earlier pairs stay ahead of later ones with the same count. */
  function InsertByCount(x: (string, nat), t: Tally): (r: Tally)
    ensures |r| == |t| + 1
    ensures forall p :: p in r <==> p == x || p in t
  {
    if t == [] || t[0].1 <= x.1 then [x] + t
    else [t[0]] + InsertByCount(x, t[1..])
  }

  /** Inserting into a tally sorted by decreasing count keeps it sorted. */
  lemma {:induction false} InsertByCountSorted(x: (string, nat), t: Tally)
    requires ByCountDesc(t)
    ensures ByCountDesc(InsertByCount(x, t))
  {
    if t != [] && t[0].1 > x.1 {
      InsertByCountSorted(x, t[1..]);
      var rec := InsertByCount(x, t[1..]);
      forall i | 0 <= i < |rec| ensures t[0].1 >= rec[i].1 {
        assert rec[i] in rec;
        if rec[i] != x {
          var k :| 0 <= k < |t[1..]| && t[1..][k] == rec[i];
          assert t[k + 1] == rec[i];
        }
      }
    }
  }

  /** Inserting a pair whose key is new keeps the keys distinct. */
  lemma {:induction false} InsertByCountDistinct(x: (string, nat), t: Tally)
    requires KeysDistinct(t) && forall i :: 0 <= i < |t| ==> t[i].0 != x.0
    ensures KeysDistinct(InsertByCount(x, t))
  {
    if t != [] && t[0].1 > x.1 {
      InsertByCountDistinct(x, t[1..]);
      var rec := InsertByCount(x, t[1..]);
      forall i | 0 <= i < |rec| ensures t[0].0 != rec[i].0 {
        assert rec[i] in rec;
        if rec[i] != x {
          var k :| 0 <= k < |t[1..]| && t[1..][k] == rec[i];
          assert t[k + 1] == rec[i];
        }
      }
    }
  }

  /** `sorted(..., key=count, reverse=True)`: a stable insertion sort by
      decreasing count. */
  function SortByCount(t: Tally): (r: Tally)
    ensures |r| == |t| && ByCountDesc(r)
    ensures forall p :: p in r <==> p in t
  {
    if t == [] then []
    else
      var rest := SortByCount(t[1..]);
      InsertByCountSorted(t[0], rest);
      InsertByCount(t[0], rest)
  }

  /** Sorting a tally with distinct keys keeps them distinct. */
  lemma {:induction false} SortByCountDistinct(t: Tally)
    requires KeysDistinct(t)
    ensures KeysDistinct(SortByCount(t))
  {
    if t != [] {
      SortByCountDistinct(t[1..]);
      var rest := SortByCount(t[1..]);
      forall i | 0 <= i < |rest| ensures rest[i].0 != t[0].0 {
        assert rest[i] in t[1..];
      }
      InsertByCountDistinct(t[0], rest);
    }
  }

  function Keys(t: Tally): (r: seq<string>)
    ensures |r| == |t| && forall i :: 0 <= i < |t| ==> r[i] == t[i].0
  {
    seq(|t|, i requires 0 <= i < |t| => t[i].0)
  }

  /** `[lang for lang, _ in counter.most_common(n)]`. */
  function MostCommon(t: Tally, n: nat): seq<string> {
    Keys(Take(SortByCount(t), n))
  }

  /** The languages returned are the most frequent ones: at most `n`,
      distinct, present in the tally, in non-increasing order of count, and
      no language left out has more files than one that was kept. */
  lemma {:induction false} MostCommonIsTop(t: Tally, n: nat)
    requires KeysDistinct(t)
    ensures var r := MostCommon(t, n);
      && |r| == Min(n, |t|)
      && NoDuplicates(r)
      && (forall i :: 0 <= i < |r| ==> exists j :: 0 <= j < |t| && t[j].0 == r[i])
      && (forall i, j :: 0 <= i < j < |r| ==> CountOf(t, r[i]) >= CountOf(t, r[j]))
      && (forall j :: 0 <= j < |t| && t[j].0 !in r ==>
            |r| == n && forall i :: 0 <= i < |r| ==> t[j].1 <= CountOf(t, r[i]))
  {
    var s := SortByCount(t);
    SortByCountDistinct(t);
    var top := Take(s, n);
    var r := MostCommon(t, n);
    assert r == Keys(top);
    forall i | 0 <= i < |r| ensures (exists j :: 0 <= j < |t| && t[j].0 == r[i]) && CountOf(t, r[i]) == s[i].1 {
      assert s[i] in t;
      var j :| 0 <= j < |t| && t[j] == s[i];
      CountOfAt(t, j);
    }
    forall j | 0 <= j < |t| && t[j].0 !in r
      ensures |r| == n && forall i :: 0 <= i < |r| ==> t[j].1 <= CountOf(t, r[i])
    {
      assert t[j] in s;
      var k :| 0 <= k < |s| && s[k] == t[j];
      assert |top| <= k;
    }
  }

  // ---------------------------------------------------------------------
  // Frameworks and structure type
  // ---------------------------------------------------------------------

  /** The `os.path.exists` probes `detect_stack` makes at the root. */
  datatype Markers = Markers(packageJson: bool, nextConfigJs: bool, nextConfigMjs: bool, viteConfigJs: bool,
                             requirementsTxt: bool, pyprojectToml: bool, appPy: bool, mainPy: bool, managePy: bool)

  function MarkersOf(root: Node): Markers {
    Markers(HasEntry(root, "package.json"), HasEntry(root, "next.config.js"), HasEntry(root, "next.config.mjs"),
            HasEntry(root, "vite.config.js"), HasEntry(root, "requirements.txt"), HasEntry(root, "pyproject.toml"),
            HasEntry(root, "app.py"), HasEntry(root, "main.py"), HasEntry(root, "manage.py"))
  }

  predicate NodeMarker(m: Markers) { m.packageJson }

  predicate NextMarkers(m: Markers) { m.packageJson && (m.nextConfigJs || m.nextConfigMjs) }

  predicate PythonMarker(m: Markers) { m.requirementsTxt || m.pyprojectToml }

  /** The framework tags are pairwise different. */
  lemma TagsDistinct()
    ensures "Node.js" != "Next.js" && "Node.js" != "Vite" && "Next.js" != "Vite"
    ensures "Python" != "Flask" && "Python" != "FastAPI" && "Python" != "Django"
    ensures "Flask" != "FastAPI" && "Flask" != "Django" && "FastAPI" != "Django"
    ensures forall x, y :: x in ["Node.js", "Next.js", "Vite"] && y in ["Python", "Flask", "FastAPI", "Django"] ==> x != y
  {
    assert "Node.js"[1] != "Next.js"[1];
    assert "Flask"[0] != "FastAPI"[1];
  }

  /** `[tag]` when `present`, else nothing. */
  function Opt(present: bool, tag: string): seq<string> {
    if present then [tag] else []
  }

  /** The tags appended when a `package.json` is at the root, in order. */
  function NodeTags(m: Markers): seq<string> {
    if NodeMarker(m) then ["Node.js"] + Opt(m.nextConfigJs || m.nextConfigMjs, "Next.js") + Opt(m.viteConfigJs, "Vite")
    else []
  }

  /** The tags appended when `requirements.txt` or `pyproject.toml` is at
      the root, in order. */
  function PythonTags(m: Markers): seq<string> {
    if PythonMarker(m) then
      ["Python"] + Opt(m.appPy, "Flask") + Opt(m.mainPy, "FastAPI") + Opt(m.managePy, "Django")
    else []
  }

  /** Each Node.js tag is present exactly when its markers are, once. */
  lemma NodeTagsSpec(m: Markers)
    ensures var tags := NodeTags(m);
      && NoDuplicates(tags)
      && (tags != [] ==> tags[0] == "Node.js")
      && ("Node.js" in tags <==> NodeMarker(m))
      && ("Next.js" in tags <==> NextMarkers(m))
      && ("Vite" in tags <==> NodeMarker(m) && m.viteConfigJs)
      && (forall tag :: tag in tags ==> tag in ["Node.js", "Next.js", "Vite"])
  {
    TagsDistinct();
    var a := Opt(m.nextConfigJs || m.nextConfigMjs, "Next.js");
    var b := Opt(m.viteConfigJs, "Vite");
    if NodeMarker(m) {
      assert NodeTags(m) == ["Node.js"] + a + b;
      assert forall tag :: tag in NodeTags(m) <==> tag == "Node.js" || tag in a || tag in b;
    }
  }

  /** Each Python tag is present exactly when its markers are, once. */
  lemma PythonTagsSpec(m: Markers)
    ensures var tags := PythonTags(m);
      && NoDuplicates(tags)
      && (tags != [] ==> tags[0] == "Python")
      && ("Python" in tags <==> PythonMarker(m))
      && ("Flask" in tags <==> PythonMarker(m) && m.appPy)
      && ("FastAPI" in tags <==> PythonMarker(m) && m.mainPy)
      && ("Django" in tags <==> PythonMarker(m) && m.managePy)
      && (forall tag :: tag in tags ==> tag in ["Python", "Flask", "FastAPI", "Django"])
  {
    TagsDistinct();
    var a := Opt(m.appPy, "Flask");
    var b := Opt(m.mainPy, "FastAPI");
    var c := Opt(m.managePy, "Django");
    if PythonMarker(m) {
      assert PythonTags(m) == ["Python"] + a + b + c;
      assert forall tag :: tag in PythonTags(m) <==> tag == "Python" || tag in a || tag in b || tag in c;
    }
  }

  /** All framework tags, Node.js ones first: each present exactly when its
      markers are, and none twice. */
  lemma FrameworkTagsSpec(m: Markers)
    ensures var tags := NodeTags(m) + PythonTags(m);
      && NoDuplicates(tags)
      && (tags != [] ==> tags[0] == (if NodeMarker(m) then "Node.js" else "Python"))
      && ("Node.js" in tags <==> NodeMarker(m))
      && ("Next.js" in tags <==> NextMarkers(m))
      && ("Vite" in tags <==> NodeMarker(m) && m.viteConfigJs)
      && ("Python" in tags <==> PythonMarker(m))
      && ("Flask" in tags <==> PythonMarker(m) && m.appPy)
      && ("FastAPI" in tags <==> PythonMarker(m) && m.mainPy)
      && ("Django" in tags <==> PythonMarker(m) && m.managePy)
      && (forall tag :: tag in tags ==> tag in ["Node.js", "Next.js", "Vite", "Python", "Flask", "FastAPI", "Django"])
  {
    NodeTagsSpec(m);
    PythonTagsSpec(m);
    FrameworkTagsDistinct(m);
    var node, python := NodeTags(m), PythonTags(m);
    assert forall tag :: tag in node + python <==> tag in node || tag in python;
  }

  /** No tag is appended twice: the Node.js and Python tags are disjoint. */
  lemma FrameworkTagsDistinct(m: Markers)
    ensures NoDuplicates(NodeTags(m) + PythonTags(m))
  {
    TagsDistinct();
    NodeTagsSpec(m);
    PythonTagsSpec(m);
    var node, python := NodeTags(m), PythonTags(m);
    forall i, j | 0 <= i < |node| && 0 <= j < |python| ensures node[i] != python[j] {
      assert node[i] in node && python[j] in python;
    }
  }

  /** The appends made when a `package.json` is at the root; the existence
      probes arrive as `m`. */
  method NodeFrameworks(m: Markers) returns (frameworks: seq<string>)
    ensures frameworks == NodeTags(m)
  {
    frameworks := [];
    if m.packageJson {
      frameworks := frameworks + ["Node.js"];
      if m.nextConfigJs || m.nextConfigMjs {
        frameworks := frameworks + ["Next.js"];
      }
      if m.viteConfigJs {
        frameworks := frameworks + ["Vite"];
      }
    }
  }

  /** The appends made when `requirements.txt` or `pyproject.toml` is at
      the root. */
  method PythonFrameworks(m: Markers) returns (frameworks: seq<string>)
    ensures frameworks == PythonTags(m)
  {
    frameworks := [];
    if m.requirementsTxt || m.pyprojectToml {
      frameworks := frameworks + ["Python"];
      if m.appPy {
        frameworks := frameworks + ["Flask"];
      }
      if m.mainPy {
        frameworks := frameworks + ["FastAPI"];
      }
      if m.managePy {
        frameworks := frameworks + ["Django"];
      }
    }
  }

  /** The framework tags appended by `detect_stack` from root marker files. */
  method DetectFrameworks(m: Markers) returns (frameworks: seq<string>)
    ensures frameworks == NodeTags(m) + PythonTags(m)
  {
    var node := NodeFrameworks(m);
    var python := PythonFrameworks(m);
    frameworks := node + python;
  }

  /** The if/elif chain that names the structure type. */
  function StructureType(frameworks: seq<string>): string {
    if "Next.js" in frameworks && "Python" in frameworks then "fullstack"
    else if "Next.js" in frameworks then "frontend"
    else if "Python" in frameworks then "backend"
    else "unknown"
  }

  datatype StackInfo = StackInfo(primaryLanguages: seq<string>, frameworks: seq<string>, structureType: string)

  /** Files of language `lang` as `detect_stack` counts them. */
  ghost function LanguageFiles(repoPath: string, root: Node, lang: string): nat {
    Counted(Walk(repoPath, root, {}), lang)
  }

  /** `detect_stack(repo_path)`. It raises only when the root itself cannot
      be listed (`os.listdir` is not guarded). */
  method Detect(repoPath: string, root: Node) returns (r: Result<StackInfo, string>)
    ensures r.Err? <==> !Listable(root)
    ensures r.Ok? ==> PrimaryLanguagesSpec(repoPath, root, r.value.primaryLanguages)
    ensures r.Ok? ==> r.value.frameworks == NodeTags(MarkersOf(root)) + PythonTags(MarkersOf(root))
    ensures r.Ok? ==> var m := MarkersOf(root); var fw := r.value.frameworks;
      && NoDuplicates(fw)
      && (forall tag :: tag in fw ==> tag in ["Node.js", "Next.js", "Vite", "Python", "Flask", "FastAPI", "Django"])
      && ("Node.js" in fw <==> NodeMarker(m))
      && ("Next.js" in fw <==> NextMarkers(m))
      && ("Vite" in fw <==> NodeMarker(m) && m.viteConfigJs)
      && ("Python" in fw <==> PythonMarker(m))
      && ("Flask" in fw <==> PythonMarker(m) && m.appPy)
      && ("FastAPI" in fw <==> PythonMarker(m) && m.mainPy)
      && ("Django" in fw <==> PythonMarker(m) && m.managePy)
    ensures r.Ok? ==> var m := MarkersOf(root); var st := r.value.structureType;
      && (st == "fullstack" <==> NextMarkers(m) && PythonMarker(m))
      && (st == "frontend" <==> NextMarkers(m) && !PythonMarker(m))
      && (st == "backend" <==> !NextMarkers(m) && PythonMarker(m))
      && (st == "unknown" <==> !NextMarkers(m) && !PythonMarker(m))
  {
    var steps := Walk(repoPath, root, {});
    var counter := CountLanguages(steps);
    if !Listable(root) {
      return Err("os.listdir failed on the repository root");
    }
    var frameworks := DetectFrameworks(MarkersOf(root));
    var structureType := StructureType(frameworks);
    var langs := MostCommon(counter, 3);
    FrameworkTagsSpec(MarkersOf(root));
    StructureTypeSpec(MarkersOf(root));
    PrimaryLanguages(repoPath, root, counter);
    r := Ok(StackInfo(langs, frameworks, structureType));
  }

  /** At most three languages, distinct, each with files, by non-increasing
      file count, and no language left out has more files than one kept. */
  ghost predicate PrimaryLanguagesSpec(repoPath: string, root: Node, langs: seq<string>) {
    && |langs| <= 3 && NoDuplicates(langs)
    && (forall i :: 0 <= i < |langs| ==> IsLanguage(langs[i]) && LanguageFiles(repoPath, root, langs[i]) > 0)
    && (forall i, j :: 0 <= i < j < |langs| ==>
          LanguageFiles(repoPath, root, langs[i]) >= LanguageFiles(repoPath, root, langs[j]))
    && (forall lang :: LanguageFiles(repoPath, root, lang) > 0 && lang !in langs ==>
          |langs| == 3 && forall i :: 0 <= i < 3 ==> LanguageFiles(repoPath, root, lang) <= LanguageFiles(repoPath, root, langs[i]))
  }

  /** `most_common(3)` of the walk's tally names the primary languages. */
  lemma PrimaryLanguages(repoPath: string, root: Node, counter: Tally)
    requires KeysDistinct(counter) && Positive(counter)
    requires forall lang :: CountOf(counter, lang) == LanguageFiles(repoPath, root, lang)
    ensures PrimaryLanguagesSpec(repoPath, root, MostCommon(counter, 3))
  {
    var langs := MostCommon(counter, 3);
    MostCommonIsTop(counter, 3);
    PrimaryLanguagesCounted(repoPath, root, counter);
    PrimaryLanguagesTop(repoPath, root, counter);
  }

  /** Every language kept is a language with files. */
  lemma PrimaryLanguagesCounted(repoPath: string, root: Node, counter: Tally)
    requires KeysDistinct(counter) && Positive(counter)
    requires forall lang :: CountOf(counter, lang) == LanguageFiles(repoPath, root, lang)
    ensures var langs := MostCommon(counter, 3);
      forall i :: 0 <= i < |langs| ==> IsLanguage(langs[i]) && LanguageFiles(repoPath, root, langs[i]) > 0
  {
    var langs := MostCommon(counter, 3);
    MostCommonIsTop(counter, 3);
    forall i | 0 <= i < |langs| ensures IsLanguage(langs[i]) && LanguageFiles(repoPath, root, langs[i]) > 0 {
      var j :| 0 <= j < |counter| && counter[j].0 == langs[i];
      CountOfAt(counter, j);
    }
  }

  /** No language left out has more files than one that was kept. */
  lemma PrimaryLanguagesTop(repoPath: string, root: Node, counter: Tally)
    requires KeysDistinct(counter)
    requires forall lang :: CountOf(counter, lang) == LanguageFiles(repoPath, root, lang)
    ensures var langs := MostCommon(counter, 3);
      forall lang :: LanguageFiles(repoPath, root, lang) > 0 && lang !in langs ==>
        |langs| == 3 && forall i :: 0 <= i < 3 ==> LanguageFiles(repoPath, root, lang) <= LanguageFiles(repoPath, root, langs[i])
  {
    var langs := MostCommon(counter, 3);
    MostCommonIsTop(counter, 3);
    forall lang | LanguageFiles(repoPath, root, lang) > 0 && lang !in langs
      ensures |langs| == 3 && forall i :: 0 <= i < 3 ==> LanguageFiles(repoPath, root, lang) <= LanguageFiles(repoPath, root, langs[i])
    {
      assert CountOf(counter, lang) > 0;
      var j := KeyIndex(counter, lang);
      CountOfAt(counter, j);
    }
  }

  /** The structure type follows the Next.js and Python markers. */
  lemma StructureTypeSpec(m: Markers)
    ensures var st := StructureType(NodeTags(m) + PythonTags(m));
      && (st == "fullstack" <==> NextMarkers(m) && PythonMarker(m))
      && (st == "frontend" <==> NextMarkers(m) && !PythonMarker(m))
      && (st == "backend" <==> !NextMarkers(m) && PythonMarker(m))
      && (st == "unknown" <==> !NextMarkers(m) && !PythonMarker(m))
  {
    FrameworkTagsSpec(m);
  }

  /** A key with a non-zero count has a position in the tally. */
  lemma KeyIndex(t: Tally, key: string) returns (j: nat)
    requires CountOf(t, key) > 0
    ensures j < |t| && t[j].0 == key
  {
    if t[0].0 == key {
      j := 0;
    } else {
      var j' := KeyIndex(t[1..], key);
      j := j' + 1;
    }
  }

  /** The ".git" test is a substring test on the walked path, so a
      `.github` folder is skipped together with its files. */
  lemma GithubFolderSkipped(langFile: Node)
    requires langFile.File?
    ensures Contains("repo/.github", ".git")
    ensures Counted([WalkStep("repo/.github", [], [langFile])], "Python") == 0
  {
    assert "repo/.github"[5..9] == ".git";
    assert OccursAt("repo/.github", ".git", 5);
    ContainsIff("repo/.github", ".git");
    assert [WalkStep("repo/.github", [], [langFile])][..0] == [];
  }
}
