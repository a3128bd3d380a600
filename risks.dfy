/** Risk signals (api/analysis/risks.py): four flags for missing repository
    conventions, each decided by looking at the checkout. */
module Risks {
  import opened Wrappers
  import opened Strings
  import opened FileTree

  /** The four signals; every flag starts out true and is cleared when its
      evidence is found. */
  datatype RiskFlags = RiskFlags(missingReadme: bool, missingCi: bool, missingTests: bool, missingEnvExample: bool)

  const ReadmeNames: seq<string> := ["README.md", "README.MD", "readme.md", "Readme.md"]

  const EnvExampleNames: seq<string> := [".env.example", ".env.sample", ".env.template"]

  /** A directory name that counts as a test folder, in any letter case. */
  predicate IsTestDirName(d: string) {
    Lower(d) == "tests" || Lower(d) == "__tests__" || Lower(d) == "test"
  }

  /** A loop over candidate names that stops at the first one present at
      the root. */
  method AnyEntry(root: Node, names: seq<string>) returns (found: bool)
    ensures found <==> exists i :: 0 <= i < |names| && HasEntry(root, names[i])
  {
    for i := 0 to |names|
      invariant forall m :: 0 <= m < i ==> !HasEntry(root, names[m])
    {
      if HasEntry(root, names[i]) {
        return true;
      }
    }
    found := false;
  }

  /** The entry at `.github/workflows`, as `os.path.exists` finds it. */
  function WorkflowsEntry(root: Node): Option<Node> {
    Lookup(root, [".github", "workflows"])
  }

  /** `os.path.exists(github_dir) and os.listdir(github_dir)`: the listing
      raises when the path exists but is a file or cannot be read. */
  method HasWorkflows(root: Node) returns (r: Result<bool, string>)
    ensures r.Err? <==> WorkflowsEntry(root).Some? && !Listable(WorkflowsEntry(root).value)
    ensures r.Ok? ==> (r.value <==> WorkflowsEntry(root).Some? && WorkflowsEntry(root).value.children != [])
  {
    var entry := WorkflowsEntry(root);
    if entry.None? {
      return Ok(false);
    }
    if !Listable(entry.value) {
      return Err("os.listdir failed on .github/workflows");
    }
    r := Ok(|entry.value.children| > 0);
  }

  /** The test-folder search over `os.walk(repo_path)`: both loops stop at
      the first matching directory name. */
  method HasTestDir(repoPath: string, root: Node) returns (found: bool)
    ensures found <==> SomeDirBelow(root, IsTestDirName, {})
  {
    var steps := Walk(repoPath, root, {});
    found := false;
    for k := 0 to |steps|
      invariant !found ==> forall k', j :: 0 <= k' < k && 0 <= j < |steps[k'].dirs| ==> !IsTestDirName(steps[k'].dirs[j])
      invariant found ==> DirSeenIn(steps, IsTestDirName)
    {
      var dirs := steps[k].dirs;
      for j := 0 to |dirs|
        invariant !found ==> forall j' :: 0 <= j' < j ==> !IsTestDirName(dirs[j'])
        invariant found ==> DirSeenIn(steps, IsTestDirName)
      {
        if IsTestDirName(dirs[j]) {
          found := true;
          break;
        }
      }
      if found {
        break;
      }
    }
    WalkSeesDirs(repoPath, root, IsTestDirName, {});
  }

  /** `detect_risks(repo_path)`. It raises only from the unguarded listing
      of `.github/workflows`. */
  method DetectRisks(repoPath: string, root: Node) returns (r: Result<RiskFlags, string>)
    ensures r.Err? <==> WorkflowsEntry(root).Some? && !Listable(WorkflowsEntry(root).value)
    ensures r.Ok? ==> (r.value.missingReadme <==> forall i :: 0 <= i < |ReadmeNames| ==> !HasEntry(root, ReadmeNames[i]))
    ensures r.Ok? ==> (r.value.missingCi <==> WorkflowsEntry(root).None? || WorkflowsEntry(root).value.children == [])
    ensures r.Ok? ==> (r.value.missingTests <==> !SomeDirBelow(root, IsTestDirName, {}))
    ensures r.Ok? ==> (r.value.missingEnvExample <==> forall i :: 0 <= i < |EnvExampleNames| ==> !HasEntry(root, EnvExampleNames[i]))
  {
    var hasReadme := AnyEntry(root, ReadmeNames);
    var ci := HasWorkflows(root);
    if ci.Err? {
      return Err(ci.error);
    }
    var hasTests := HasTestDir(repoPath, root);
    var hasEnvExample := AnyEntry(root, EnvExampleNames);
    r := Ok(RiskFlags(!hasReadme, !ci.value, !hasTests, !hasEnvExample));
  }

  /** Test folders are found in any letter case, and anywhere below the root. */
  lemma TestDirCaseInsensitive()
    ensures IsTestDirName("Tests") && IsTestDirName("__TESTS__") && IsTestDirName("test")
    ensures !IsTestDirName("testing")
  {
    assert Lower("Tests") == "tests";
    assert Lower("__TESTS__") == "__tests__";
    assert Lower("test") == "test";
    assert |Lower("testing")| == 7;
  }

  /** A test folder nested at any depth clears the flag: a walk over a
      tree with `src/tests` sees it. */
  lemma NestedTestDirFound()
    ensures SomeDirBelow(Dir("repo", [Dir("src", [Dir("tests", [], true)], true)], true), IsTestDirName, {})
  {
    assert Lower("tests") == "tests";
    var inner := [Dir("tests", [], true)];
    assert SomeDirAmong(inner, IsTestDirName, {});
    assert SomeDirBelow(Dir("src", inner, true), IsTestDirName, {});
  }
}
