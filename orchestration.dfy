/** The pipeline (api/orchestration/analyze_repo.py): the deterministic
    Mermaid diagram built from the IR, the response record, and the
    sequence clone, four stages, IR, enrichment. */
module Orchestration {
  import opened Wrappers
  import opened Strings
  import opened FileTree
  import opened DetectStack
  import opened ParseStructure
  import opened Dependencies
  import opened Risks
  import opened IrBuilder
  import opened Summarize
  import opened ArchitecturePatterns
  import opened Recommendations
  import opened CloneRepo

  /** `name.replace(" ", "_").replace("-", "_")`: every space and hyphen
      becomes an underscore, every other character stays. */
  function NodeId(name: string): (r: string)
    ensures |r| == |name|
    ensures forall i :: 0 <= i < |name| ==> r[i] == (if name[i] == ' ' || name[i] == '-' then '_' else name[i])
  {
    var spaced := ReplaceAll(name, " ", "_");
    ReplaceCharIsMap(name, ' ', '_');
    ReplaceCharIsMap(spaced, '-', '_');
    ReplaceAll(spaced, "-", "_")
  }

  /** A missing or empty module name is shown as "Module". */
  function DisplayName(name: string): (r: string)
    ensures r != []
    ensures name != [] ==> r == name
  {
    if name == "" then "Module" else name
  }

  function ModuleLine(m: ModuleInfo): string {
    var name := DisplayName(m.name);
    "Repo --> " + NodeId(name) + "[" + name + "]"
  }

  function FolderLine(folder: string): string {
    "Repo --> " + NodeId(folder) + "[" + folder + "/]"
  }

  const DiagramHeader: seq<string> := ["graph TD", "Repo[Repository]"]

  /** The diagram's lines: the header, one edge per module in order, then
      one edge per internal folder in order. */
  function DiagramLines(ir: Ir): (r: seq<string>)
    ensures |r| == 2 + |ir.modules| + |ir.dependencies.internal|
    ensures r[0] == "graph TD" && r[1] == "Repo[Repository]"
    ensures forall i :: 0 <= i < |ir.modules| ==> r[2 + i] == ModuleLine(ir.modules[i])
    ensures forall j :: 0 <= j < |ir.dependencies.internal| ==>
      r[2 + |ir.modules| + j] == FolderLine(ir.dependencies.internal[j])
  {
    var modules := seq(|ir.modules|, i requires 0 <= i < |ir.modules| => ModuleLine(ir.modules[i]));
    var folders := seq(|ir.dependencies.internal|, j requires 0 <= j < |ir.dependencies.internal| => FolderLine(ir.dependencies.internal[j]));
    DiagramHeader + modules + folders
  }

  /** `_build_mermaid_from_ir(ir)`: the lines joined by "\n". */
  function BuildMermaidFromIr(ir: Ir): string {
    Join(DiagramLines(ir), "\n")
  }

  lemma NoNewlineInNodeId(name: string)
    requires '\n' !in name
    ensures '\n' !in NodeId(name)
  {
    var r := NodeId(name);
    forall i | 0 <= i < |r| ensures r[i] != '\n' {
      assert name[i] in name;
    }
  }

  lemma EdgeHasNoNewline(id: string, text: string, closing: string)
    requires '\n' !in id && '\n' !in text && '\n' !in closing
    ensures '\n' !in "Repo --> " + id + "[" + text + closing
  {
    assert '\n' !in "Repo --> ";
  }

  lemma HeaderHasNoNewline()
    ensures '\n' !in "graph TD" && '\n' !in "Repo[Repository]"
  {
  }

  lemma ModuleLineHasNoNewline(m: ModuleInfo)
    requires '\n' !in m.name
    ensures '\n' !in ModuleLine(m)
  {
    var name := DisplayName(m.name);
    assert '\n' !in "Module";
    NoNewlineInNodeId(name);
    EdgeHasNoNewline(NodeId(name), name, "]");
  }

  lemma FolderLineHasNoNewline(folder: string)
    requires '\n' !in folder
    ensures '\n' !in FolderLine(folder)
  {
    NoNewlineInNodeId(folder);
    EdgeHasNoNewline(NodeId(folder), folder, "/]");
  }

  /** Splitting the diagram at newlines gives its lines back when no name
      holds a newline: one line per module and folder, nothing trailing. */
  lemma {:induction false} DiagramSplitsIntoLines(ir: Ir)
    requires forall i :: 0 <= i < |ir.modules| ==> '\n' !in ir.modules[i].name
    requires forall j :: 0 <= j < |ir.dependencies.internal| ==> '\n' !in ir.dependencies.internal[j]
    ensures SplitChar(BuildMermaidFromIr(ir), '\n') == DiagramLines(ir)
    ensures |SplitChar(BuildMermaidFromIr(ir), '\n')| == 2 + |ir.modules| + |ir.dependencies.internal|
  {
    var lines := DiagramLines(ir);
    HeaderHasNoNewline();
    forall k | 0 <= k < |lines| ensures '\n' !in lines[k] {
      if 2 <= k < 2 + |ir.modules| {
        ModuleLineHasNoNewline(ir.modules[k - 2]);
      } else if 2 + |ir.modules| <= k {
        FolderLineHasNoNewline(ir.dependencies.internal[k - 2 - |ir.modules|]);
      }
    }
    JoinSplit(lines, '\n');
  }

  datatype Visualization = Visualization(mermaid: string)

  /** The response the front end receives; the risk flags are not part of it. */
  datatype AnalysisResponse = AnalysisResponse(
    overview: Overview,
    architecture: Architecture,
    visualization: Visualization,
    modules: seq<ModuleInfo>,
    dependencies: DependencyReport,
    recommendations: seq<Recommendation>)

  /** The response assembled from the IR: enriched overview and
      architecture, the diagram, the IR's modules and dependencies as they
      are, and the recommendations. */
  function AssembleResponse(ir: Ir): (r: AnalysisResponse)
    ensures r.overview == GenerateOverview(ir) && r.architecture == GenerateArchitecture(ir)
    ensures r.visualization.mermaid == BuildMermaidFromIr(ir)
    ensures r.modules == ir.modules && r.dependencies == ir.dependencies
    ensures r.recommendations == RecommendationsFor(ir.risks)
  {
    AnalysisResponse(GenerateOverview(ir), GenerateArchitecture(ir), Visualization(BuildMermaidFromIr(ir)),
                     ir.modules, ir.dependencies, GenerateRecommendations(ir))
  }

  /** `analyze_repository(repository_url)` with the workspace and the
      outcome of `git clone` handed in. An error is the message of the
      exception that ends the pipeline. */
  method AnalyzeRepository(url: string, workspace: string, git: GitOutcome) returns (r: Result<AnalysisResponse, string>)
    ensures CloneRepository(url, workspace, git).Err? ==> r == Err(CloneRepository(url, workspace, git).error)
    ensures CloneRepository(url, workspace, git).Ok? ==> var tree := git.checkout.value;
      && (r.Err? <==> !Listable(tree) || (WorkflowsEntry(tree).Some? && !Listable(WorkflowsEntry(tree).value)))
      && (r.Ok? ==>
            && r.value.overview.repositoryName == RepoName(url)
            && r.value.overview.totalFiles == VisibleFiles(tree)
            && StartsWith(r.value.architecture.folderStructure, ValidateUrl(url).value)
            && |r.value.modules| == |TopLevel(tree)|
            && (forall i :: 0 <= i < |r.value.modules| ==> r.value.modules[i].name == TopLevel(tree)[i].name)
            && r.value.dependencies.external == PackageDependencies(tree) + RequirementDependencies(tree) + PyprojectDependencies(tree)
            && (ReadmeRecommendation in r.value.recommendations <==> forall i :: 0 <= i < |ReadmeNames| ==> !HasEntry(tree, ReadmeNames[i]))
            && (TestsRecommendation in r.value.recommendations <==> !SomeDirBelow(tree, IsTestDirName, {})))
  {
    var clone := CloneRepository(url, workspace, git);
    if clone.Err? {
      return Err(clone.error);
    }
    var path, tree := clone.value.path, clone.value.tree;
    var stack := Detect(path, tree);
    if stack.Err? {
      return Err(stack.error);
    }
    var structure := Parse(path, tree);
    var deps := ExtractDependencies(tree);
    var risks := DetectRisks(path, tree);
    if risks.Err? {
      return Err(risks.error);
    }
    var ir := BuildIr(url, path, stack.value, structure, deps, risks.value);
    ClonePathEndsInName(workspace, ValidateUrl(url).value);
    JoinStartsWith([Basename(path)] + TreeLines(tree, ""), "\n");
    r := Ok(AssembleResponse(ir));
  }
}
