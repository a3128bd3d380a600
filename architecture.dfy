/** Architecture pattern tags (api/llm/generate_mermaid.py): three
    heuristics written into the IR's architecture record. */
module ArchitecturePatterns {
  import opened Wrappers
  import opened Strings
  import opened IrBuilder

  const ClientServer := "Client-Server Architecture"
  const Modular := "Modular Architecture"
  const DependencyBased := "Dependency-based Composition"

  /** The pattern tags in their fixed order, or None (never an empty list)
      when no rule fires. */
  function Patterns(ir: Ir): (r: Option<seq<string>>)
    ensures var full, many, deps := ir.architecture.structureType == "fullstack", |ir.modules| > 3, ir.dependencies.external != [];
      && (r.None? <==> !full && !many && !deps)
      && (r.Some? ==>
            && 1 <= |r.value| <= 3
            && NoDuplicates(r.value)
            && (ClientServer in r.value <==> full)
            && (Modular in r.value <==> many)
            && (DependencyBased in r.value <==> deps)
            && (full ==> r.value[0] == ClientServer)
            && (deps ==> r.value[|r.value| - 1] == DependencyBased))
  {
    var full, many, deps := ir.architecture.structureType == "fullstack", |ir.modules| > 3, ir.dependencies.external != [];
    var patterns := (if full then [ClientServer] else [])
      + (if many then [Modular] else [])
      + (if deps then [DependencyBased] else []);
    if patterns == [] then None else Some(patterns)
  }

  /** `generate_architecture(ir)`: the architecture record with only its
      patterns replaced. */
  function GenerateArchitecture(ir: Ir): (r: Architecture)
    ensures r.structureType == ir.architecture.structureType
    ensures r.folderStructure == ir.architecture.folderStructure
    ensures r.patterns == Patterns(ir)
  {
    ir.architecture.(patterns := Patterns(ir))
  }

  /** The module rule is a strict comparison: three modules are not enough. */
  lemma ThreeModulesAreNotModular(ir: Ir)
    requires |ir.modules| == 3
    ensures Patterns(ir).None? || Modular !in Patterns(ir).value
  {
  }
}
