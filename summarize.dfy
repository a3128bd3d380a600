/** The rule-based overview (api/llm/summarize.py): a description made of
    up to three sentences and a list of key features, written into the
    IR's overview. */
module Summarize {
  import opened Wrappers
  import opened Strings
  import opened IrBuilder

  function LanguagesSentence(langs: seq<string>): string {
    "This repository is primarily written in " + Join(langs, ", ") + "."
  }

  function StructureSentence(structureType: string): string {
    "It follows a " + structureType + " architecture."
  }

  function ModulesSentence(count: nat): string {
    "The codebase is organized into " + NatToString(count) + " main modules."
  }

  /** The sentences of the description: languages, structure, modules,
      each present exactly when its field is non-empty, in that order. */
  function DescriptionParts(ir: Ir): (r: seq<string>)
    ensures var langs, st, mods := ir.overview.primaryLanguages, ir.architecture.structureType, ir.modules;
      && |r| == (if langs != [] then 1 else 0) + (if st != "" then 1 else 0) + (if mods != [] then 1 else 0)
      && (langs != [] ==> r[0] == LanguagesSentence(langs))
      && (st != "" ==> r[if langs != [] then 1 else 0] == StructureSentence(st))
      && (mods != [] ==> r[|r| - 1] == ModulesSentence(|mods|))
  {
    var langs, st, mods := ir.overview.primaryLanguages, ir.architecture.structureType, ir.modules;
    (if langs != [] then [LanguagesSentence(langs)] else [])
    + (if st != "" then [StructureSentence(st)] else [])
    + (if mods != [] then [ModulesSentence(|mods|)] else [])
  }

  /** The sentences joined by single spaces, or None when there are none. */
  function Description(ir: Ir): (r: Option<string>)
    ensures r.None? <==> ir.overview.primaryLanguages == [] && ir.architecture.structureType == "" && ir.modules == []
    ensures r.Some? ==> StartsWith(r.value, DescriptionParts(ir)[0])
  {
    var parts := DescriptionParts(ir);
    if parts == [] then None
    else
      JoinStartsWith(parts, " ");
      Some(Join(parts, " "))
  }

  const DependenciesFeature := "Uses modern third-party dependencies"
  const FullstackFeature := "Full-stack application with frontend and backend components"
  const StructureFeature := "Clearly defined project structure"

  /** The key features in their fixed order, or None when none applies. */
  function KeyFeatures(ir: Ir): (r: Option<seq<string>>)
    ensures var deps, full, shaped := ir.dependencies.external != [], ir.architecture.structureType == "fullstack", ir.architecture.folderStructure != "";
      && (r.None? <==> !deps && !full && !shaped)
      && (r.Some? ==>
            && NoDuplicates(r.value)
            && (DependenciesFeature in r.value <==> deps)
            && (FullstackFeature in r.value <==> full)
            && (StructureFeature in r.value <==> shaped)
            && (deps ==> r.value[0] == DependenciesFeature)
            && (shaped ==> r.value[|r.value| - 1] == StructureFeature))
  {
    var deps, full, shaped := ir.dependencies.external != [], ir.architecture.structureType == "fullstack", ir.architecture.folderStructure != "";
    var features := (if deps then [DependenciesFeature] else [])
      + (if full then [FullstackFeature] else [])
      + (if shaped then [StructureFeature] else []);
    if features == [] then None else Some(features)
  }

  /** `generate_overview(ir)`: the overview with only its description and
      key features replaced. */
  function GenerateOverview(ir: Ir): (r: Overview)
    ensures r.repositoryName == ir.overview.repositoryName
    ensures r.totalFiles == ir.overview.totalFiles
    ensures r.primaryLanguages == ir.overview.primaryLanguages
    ensures r.description == Description(ir) && r.keyFeatures == KeyFeatures(ir)
  {
    ir.overview.(description := Description(ir), keyFeatures := KeyFeatures(ir))
  }

  /** The first sentence tells which facts were known: a description that
      does not start with the languages sentence comes from a repository
      without recognised languages. */
  lemma DescriptionLeadsWithLanguages(ir: Ir)
    requires ir.overview.primaryLanguages != []
    ensures Description(ir).Some?
    ensures StartsWith(Description(ir).value, "This repository is primarily written in ")
  {
    var d := Description(ir).value;
    var first := LanguagesSentence(ir.overview.primaryLanguages);
    assert d[..|first|] == first;
    assert first[..40] == "This repository is primarily written in ";
    assert d[..40] == first[..40];
  }
}
