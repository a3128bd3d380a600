/** The intermediate representation (api/ir/builder.py): the four stage
    results normalised into the record the enrichment steps and the
    front end read. Fields that a language model may fill later start out
    as None. */
module IrBuilder {
  import opened Wrappers
  import opened Strings
  import opened DetectStack
  import opened ParseStructure
  import opened Dependencies
  import opened Risks

  datatype Overview = Overview(
    repositoryName: string,
    totalFiles: nat,
    primaryLanguages: seq<string>,
    description: Option<string>,
    keyFeatures: Option<seq<string>>)

  datatype Architecture = Architecture(
    structureType: string,
    folderStructure: string,
    patterns: Option<seq<string>>)

  datatype ModuleInfo = ModuleInfo(
    name: string,
    purpose: Option<string>,
    keyFiles: seq<string>,
    dependencies: Option<seq<string>>)

  datatype Ir = Ir(
    overview: Overview,
    architecture: Architecture,
    modules: seq<ModuleInfo>,
    dependencies: DependencyReport,
    risks: RiskFlags)

  /** `repository_url.rstrip("/").split("/")[-1]`. */
  function RepoName(url: string): (r: string)
    ensures '/' !in r
    ensures EndsWith(RStripChar(url, '/'), r)
  {
    AfterLast(RStripChar(url, '/'), '/')
  }

  /** The name is the last path segment, however many slashes trail it. */
  lemma RepoNameIsLastSegment(prefix: string, segment: string, slashes: nat)
    requires segment != [] && '/' !in segment
    ensures RepoName(prefix + "/" + segment + seq(slashes, _ => '/')) == segment
  {
    var trimmed := prefix + "/" + segment;
    assert trimmed[|trimmed| - 1] == segment[|segment| - 1];
    RStripCharAppended(trimmed, '/', slashes);
    AfterLastOfSegment(prefix, '/', segment);
  }

  /** A ".git" suffix stays part of the name. */
  lemma RepoNameKeepsGitSuffix()
    ensures RepoName("https://github.com/acme/w.git") == "w.git"
  {
    var url := "https://github.com/acme/w.git";
    assert url == "https://github.com/acme" + "/" + "w.git" + seq(0, _ => '/');
    RepoNameIsLastSegment("https://github.com/acme", "w.git", 0);
  }

  /** Trailing slashes are dropped before the last segment is taken. */
  lemma RepoNameTrailingSlash()
    ensures RepoName("https://github.com/acme/w//") == "w"
  {
    var url := "https://github.com/acme/w//";
    assert url == "https://github.com/acme" + "/" + "w" + seq(2, _ => '/');
    RepoNameIsLastSegment("https://github.com/acme", "w", 2);
  }

  /** One module entry: name and key files copied, the rest left for later. */
  function ModuleInfoOf(m: Module): (r: ModuleInfo)
    ensures r.name == m.name && r.keyFiles == m.keyFiles
    ensures r.purpose.None? && r.dependencies.None?
  {
    ModuleInfo(m.name, None, m.keyFiles, None)
  }

  /** `build_ir(repository_url, repo_path, stack, structure, dependencies, risks)`. */
  function BuildIr(repositoryUrl: string, repoPath: string, stack: StackInfo, structure: Structure,
                   dependencies: DependencyReport, risks: RiskFlags): (ir: Ir)
    ensures ir.overview.repositoryName == RepoName(repositoryUrl)
    ensures ir.overview.totalFiles == structure.totalFiles
    ensures ir.overview.primaryLanguages == stack.primaryLanguages
    ensures ir.overview.description.None? && ir.overview.keyFeatures.None?
    ensures ir.architecture.structureType == stack.structureType
    ensures ir.architecture.folderStructure == structure.folderStructure
    ensures ir.architecture.patterns.None?
    ensures |ir.modules| == |structure.modules|
    ensures forall i :: 0 <= i < |ir.modules| ==>
      ir.modules[i].name == structure.modules[i].name && ir.modules[i].keyFiles == structure.modules[i].keyFiles &&
      ir.modules[i].purpose.None? && ir.modules[i].dependencies.None?
    ensures ir.dependencies == dependencies && ir.risks == risks
  {
    var overview := Overview(RepoName(repositoryUrl), structure.totalFiles, stack.primaryLanguages, None, None);
    var architecture := Architecture(stack.structureType, structure.folderStructure, None);
    var modules := seq(|structure.modules|, i requires 0 <= i < |structure.modules| => ModuleInfoOf(structure.modules[i]));
    Ir(overview, architecture, modules, dependencies, risks)
  }

  /** The local checkout path plays no part in the IR. */
  lemma BuildIrIgnoresRepoPath(url: string, p: string, q: string, stack: StackInfo, structure: Structure,
                               dependencies: DependencyReport, risks: RiskFlags)
    ensures BuildIr(url, p, stack, structure, dependencies, risks) == BuildIr(url, q, stack, structure, dependencies, risks)
  {
  }
}
