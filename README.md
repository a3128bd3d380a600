# RepoArchitectAgent analysis core, modelled in Dafny

RepoArchitectAgent takes a public GitHub repository and describes it. It
clones the repository, then runs a set of analysis stages over the
checkout: stack detection, structure parsing, dependency extraction and
risk flags. It assembles the results into an intermediate representation
(IR), enriches that IR with rule-based overview, architecture and
recommendation text, and draws a Mermaid diagram of it. Around this
pipeline sit an earlier script pipeline (a Python analyzer plus
JavaScript scripts for diagrams, CI templates and LLM prompts), URL
validators, and a front-end parser for Mermaid diagrams.

This project models that deterministic core and proves what each piece
promises. The checkout is a value: a tree of `FileTree.Node`s, either
`File(name, body)` or `Dir(name, children, accessible)`.
- Child order is the order in which the operating system lists entries.
- `os.walk` is `FileTree.Walk`, a list of steps. Pruned names model the
  `dirs[:] = ...` idiom.
- A directory that is not `accessible` can be seen in its parent's listing
  but can be neither listed nor looked into.

Code that updates state step by step is modelled as methods with loops,
each proved against a specification function:
- the walks and counters of the stages;
- the `lines.push` diagram builder;
- the prompt builder;
- the Mermaid map builder.

`parse_structure`'s recursive `walk` is a class, `ParseStructure.StructureParser`, with the
two variables it updates as fields. The dashboard component is a class,
`RepositoryAnalyzer.Analyzer`, whose methods are its event handlers.
Expression-shaped code (IR assembly, enrichment, URL checks, regex
matching) is modelled as functions and lemmas.

Every regular expression of the core is modelled by explicit scanning
functions over ASCII character classes. Each scanner is proved against
the shape of what it matches: it is sound, it is complete, and it picks
the leftmost match.

Modules, one per source file, plus three shared ones:

| module | models |
|---|---|
| `Wrappers`, `Strings`, `FileTree` | Option/Result, Python and JavaScript string built-ins, the checkout tree and `os.walk` |
| `DetectStack` | api/analysis/detect_stack.py |
| `ParseStructure` | api/analysis/parse_structure.py |
| `Dependencies` | api/analysis/dependencies.py |
| `Risks` | api/analysis/risks.py |
| `IrBuilder` | api/ir/builder.py |
| `Summarize` | api/llm/summarize.py |
| `ArchitecturePatterns` | api/llm/generate_mermaid.py |
| `Recommendations` | api/llm/generate_ci.py |
| `Orchestration` | api/orchestration/analyze_repo.py |
| `CloneRepo` | api/ingestion/clone_repo.py (URL checks, `urlparse`, checkout name) |
| `LegacyAnalyzer`, `LegacyEndpoints` | api/analyze_repo.py |
| `CiTemplates` | api/generate_ci.js |
| `ShapeDiagram` | api/generate_mermaid.js |
| `SummaryPrompt` | api/generate_summary.js |
| `GitHubUrls` | `parseGitHubUrl` in api/open_pr.js |
| `BackupMermaid` | api/llm/just-incase/generate_mermaid.js |
| `ApiClient` | web/lib/api.ts |
| `MermaidViewer` | web/components/MermaidViewer.tsx |
| `RepositoryAnalyzer` | web/components/repository-analyzer.tsx |

## Model

| member | source | states |
|---|---|---|
| ArchitecturePatterns.Patterns | api/llm/generate_mermaid.py:15-30 | None exactly when no rule fires (not fullstack, at most 3 modules, no external dependencies); otherwise one to three distinct tags, each present iff its rule fires, in the order Client-Server, Modular, Dependency-based Composition |
| ArchitecturePatterns.GenerateArchitecture | api/llm/generate_mermaid.py:35-38 | the structure type and folder structure of the incoming architecture are kept; only `patterns` is written |
| ArchitecturePatterns.ThreeModulesAreNotModular | api/llm/generate_mermaid.py:23-24 | exactly three modules never give "Modular Architecture" |
| Risks.AnyEntry | api/analysis/risks.py:21-24 | the loop over candidate names finds one iff some name exists at the root |
| Risks.HasWorkflows | api/analysis/risks.py:29-31 | raises iff `.github/workflows` exists but cannot be listed; otherwise true iff it exists and has at least one entry |
| Risks.HasTestDir | api/analysis/risks.py:36-42 | the walk finds a test folder iff some directory anywhere below the root has a lower-cased name tests, \_\_tests\_\_ or test |
| Risks.DetectRisks | api/analysis/risks.py:5-52 | all four flags start true; each is false exactly when its own marker is present (a README spelling, a non-empty workflows folder, a test folder anywhere, an env example file); the only error is an unlistable workflows folder |
| Risks.TestDirCaseInsensitive | api/analysis/risks.py:38 | test folder names match in any letter case and only as whole names ("testing" does not) |
| Risks.NestedTestDirFound | api/analysis/risks.py:36-40 | a tests folder two levels down is found |
| IrBuilder.RepoName | api/ir/builder.py:20 | the name holds no "/" and ends the URL once its trailing slashes are removed |
| IrBuilder.RepoNameIsLastSegment | api/ir/builder.py:20 | for any prefix and any number of trailing slashes, the name is the last non-empty segment |
| IrBuilder.RepoNameKeepsGitSuffix | api/ir/builder.py:20 | ".../w.git" is named "w.git": no ".git" suffix is removed |
| IrBuilder.RepoNameTrailingSlash | api/ir/builder.py:20 | ".../w//" is named "w" |
| IrBuilder.ModuleInfoOf | api/ir/builder.py:44-50 | a module entry copies name and key files and leaves purpose and dependencies unset |
| IrBuilder.BuildIr | api/ir/builder.py:4-71 | overview, architecture, modules (same count and order, names and key files copied), dependencies and risks come from the stage results field for field; every field left for a language model is None |
| IrBuilder.BuildIrIgnoresRepoPath | api/ir/builder.py:4-11 | the IR does not depend on the local checkout path |
| Summarize.DescriptionParts | api/llm/summarize.py:18-32 | one sentence per present input (languages, structure type, modules) in that order, each with its text |
| Summarize.Description | api/llm/summarize.py:34 | None exactly when there are no languages, no structure type and no modules; otherwise it starts with the first sentence |
| Summarize.KeyFeatures | api/llm/summarize.py:39-52 | None exactly when no rule applies; otherwise distinct features, each present iff its rule applies (external dependencies, fullstack, a folder structure), in that order |
| Summarize.GenerateOverview | api/llm/summarize.py:57-61 | name, file count and languages of the overview are kept; only description and key features are written |
| Summarize.DescriptionLeadsWithLanguages | api/llm/summarize.py:20-22 | with languages present the description starts "This repository is primarily written in " |
| Recommendations.RecommendationsFor | api/llm/generate_ci.py:11-73 | one distinct record per raised flag and no other, README first, then CI, tests and environment example |
| Recommendations.GenerateRecommendations | api/llm/generate_ci.py:4-12 | the list depends on the IR's risk flags alone |
| Recommendations.RecommendationExtremes | api/llm/generate_ci.py:16-71 | no flag gives no record; all four give four, with priorities high, high, medium, low |
| Orchestration.NodeId | api/orchestration/analyze_repo.py:33 | same length as the name, with every space and hyphen turned into "\_" and every other character kept |
| Orchestration.DisplayName | api/orchestration/analyze_repo.py:32 | never empty; a non-empty module name is shown unchanged |
| Orchestration.DiagramLines | api/orchestration/analyze_repo.py:24-40 | the header "graph TD" and "Repo[Repository]", then one edge line per module in order, then one per internal folder in order |
| Orchestration.DiagramSplitsIntoLines | api/orchestration/analyze_repo.py:42 | when no name holds a newline, splitting the diagram at "\n" gives back exactly those lines, 2 + modules + folders of them |
| Orchestration.BuildMermaidFromIr | api/orchestration/analyze_repo.py:24-42 | the diagram text: its lines joined with newlines (its properties: DiagramLines, DiagramSplitsIntoLines) |
| Orchestration.AssembleResponse | api/orchestration/analyze_repo.py:85-104 | the response carries the generated overview and architecture, the diagram, the IR's modules and dependencies unchanged, and the recommendations for the IR's risk flags |
| Orchestration.AnalyzeRepository | api/orchestration/analyze_repo.py:45-106 | a clone error is returned as is; otherwise the pipeline fails exactly when the checkout or its workflows folder cannot be listed, and on success the name, file count, folder tree root line, modules, external dependencies and README/tests recommendations are those of the checkout |
| DetectStack.LanguageOf | api/analysis/detect_stack.py:7-20 | a language is found exactly when the extension is a key of the map (exact, case-sensitive), and it is one of the map's languages |
| DetectStack.SplitExt | api/analysis/detect_stack.py:37 | the extension is empty or starts at a dot, ends the name, and holds no further dot |
| DetectStack.Increment | api/analysis/detect_stack.py:39 | the count of the key goes up by one and every other count stays |
| DetectStack.TallyFiles | api/analysis/detect_stack.py:36-39 | keys stay distinct and positive; each language's count grows by the number of files of the step whose extension maps to it |
| DetectStack.CountLanguages | api/analysis/detect_stack.py:31-39 | after the walk, each language's count is the number of its files over the steps whose root path does not contain ".git" |
| DetectStack.InsertByCountSorted | api/analysis/detect_stack.py:80 | inserting into a tally sorted by decreasing count keeps it sorted |
| DetectStack.SortByCount | api/analysis/detect_stack.py:80 | the sort keeps the same pairs and orders them by non-increasing count |
| DetectStack.SortByCountDistinct | api/analysis/detect_stack.py:80 | sorting keeps the language keys distinct |
| DetectStack.MostCommonIsTop | api/analysis/detect_stack.py:79-81 | min(n, size) distinct languages from the tally, in non-increasing count, and any language left out has a count no larger than each one kept (and then n were kept) |
| DetectStack.NodeTagsSpec | api/analysis/detect_stack.py:46-53 | the Node.js tags are distinct, Node.js first; Node.js iff package.json, Next.js iff package.json and a next config, Vite iff package.json and vite.config.js |
| DetectStack.PythonTagsSpec | api/analysis/detect_stack.py:55-65 | the Python tags are distinct, Python first; Python iff requirements.txt or pyproject.toml, and Flask, FastAPI, Django iff that and app.py, main.py, manage.py respectively |
| DetectStack.FrameworkTagsSpec | api/analysis/detect_stack.py:44-65 | all tags together are distinct, each present exactly under its rule, none outside the seven known tags, with Node.js (or else Python) first |
| DetectStack.NodeFrameworks | api/analysis/detect_stack.py:46-53 | the appends of the package.json branch produce the Node.js tags |
| DetectStack.PythonFrameworks | api/analysis/detect_stack.py:55-65 | the appends of the Python branch produce the Python tags |
| DetectStack.DetectFrameworks | api/analysis/detect_stack.py:44-65 | the framework list is the Node.js tags followed by the Python tags |
| DetectStack.StructureTypeSpec | api/analysis/detect_stack.py:70-77 | fullstack iff Next.js and Python; frontend iff Next.js alone; backend iff Python alone; unknown otherwise |
| DetectStack.Detect | api/analysis/detect_stack.py:23-87 | fails only when the root cannot be listed; otherwise at most three distinct languages with files, most frequent first; the frameworks are the Node.js tags followed by the Python tags, in the fixed order Node.js, Next.js, Vite, Python, Flask, FastAPI, Django, each present exactly under its marker rule and none other; the structure type by the marker rules above |
| DetectStack.PrimaryLanguages | api/analysis/detect_stack.py:79-81 | most\_common(3) of the walk's counts satisfies the primary-language property: bounded, distinct, counted, ordered, and none left out outranks one kept |
| DetectStack.PrimaryLanguagesCounted | api/analysis/detect_stack.py:79-81 | every language kept is a map language with at least one file |
| DetectStack.PrimaryLanguagesTop | api/analysis/detect_stack.py:79-81 | a language with files that is left out means three were kept, each with at least as many files |
| DetectStack.GithubFolderSkipped | api/analysis/detect_stack.py:31-34 | a walk step under "repo/.github" counts nothing, since its path contains ".git" |
| ParseStructure.Basename | api/analysis/parse_structure.py:57 | the root line is a suffix of the repository path and holds no '/' |
| ParseStructure.InsertByName | api/analysis/parse_structure.py:36 | one insertion step of `sorted`: one longer, the same entries plus the new one |
| ParseStructure.InsertByNameSorted | api/analysis/parse_structure.py:36 | inserting into a name-sorted listing keeps it sorted |
| ParseStructure.SortByName | api/analysis/parse_structure.py:36 | the listing is sorted by name and is a permutation of the directory's entries |
| ParseStructure.SortedNamesSorted | api/analysis/parse_structure.py:36 | the names of the sorted listing are in ascending order |
| ParseStructure.StructureParser.constructor | api/analysis/parse_structure.py:25-26 | the walk starts with no file counted and the repository's base name as the only line |
| ParseStructure.StructureParser.WalkDir | api/analysis/parse_structure.py:32-52 | walking a directory appends exactly its tree lines and adds exactly its shown files; an unlistable directory changes nothing |
| ParseStructure.StructureParser.WalkEntry | api/analysis/parse_structure.py:41-52 | an ignored entry changes nothing; any other entry appends its connector line, then a directory's lines or one to the file count |
| ParseStructure.VisibleAmongAppend | api/analysis/parse_structure.py:40-52 | the visible count of two runs of entries is the sum of their counts |
| ParseStructure.VisibleAmongPermutation | api/analysis/parse_structure.py:36 | the file count does not depend on the order the entries are listed in |
| ParseStructure.VisibleAmongRemove | api/analysis/parse_structure.py:40-52 | taking one entry out of a listing takes its weight out of the count |
| ParseStructure.ShownFilesFromSum | api/analysis/parse_structure.py:40-52 | the count the loop adds from index i onwards is the visible count of the rest of the sorted listing |
| ParseStructure.ShownFilesAreVisible | api/analysis/parse_structure.py:25-52 | `total_files` is the number of files not inside or named as an ignored entry, independent of sort order |
| ParseStructure.VisibleAtMostAll | api/analysis/parse_structure.py:43-52 | the reported count never exceeds the number of files in the tree, and equals it when nothing is ignored |
| ParseStructure.VisibleAmongAtMostAll | api/analysis/parse_structure.py:43-52 | the same bound over a listing of entries |
| ParseStructure.TreeLinesIndented | api/analysis/parse_structure.py:47-50 | every line a walk appends starts with the prefix it was called with |
| ParseStructure.EntryLinesIndented | api/analysis/parse_structure.py:40-50 | every line of the rest of a listing starts with the prefix |
| ParseStructure.FilesHaveLines | api/analysis/parse_structure.py:47-52 | a walk never counts more files than it appends lines |
| ParseStructure.TreeLinesCount | api/analysis/parse_structure.py:40-52 | a walk appends exactly one line per non-ignored entry it reaches, counted over the tree in listing order; an ignored entry and everything below it add none |
| ParseStructure.EntryLinesCount | api/analysis/parse_structure.py:40-52 | the same count over the rest of a sorted listing |
| ParseStructure.EntriesAmongPermutation | api/analysis/parse_structure.py:36 | the number of entries shown does not depend on the order of the listing |
| ParseStructure.TreeLines | api/analysis/parse_structure.py:32-52 | the lines `walk` appends for a directory, none when it cannot be listed (its properties: TreeLinesCount, TreeLinesIndented) |
| ParseStructure.FilesFromHaveLines | api/analysis/parse_structure.py:40-52 | the same for the rest of a listing |
| ParseStructure.IgnoredLastEntryKeepsBranch | api/analysis/parse_structure.py:43-46 | when the last sorted entry is ignored, the last shown entry still gets the "├── " connector, since the connector counts ignored entries |
| ParseStructure.TopLevel | api/analysis/parse_structure.py:63-69 | a node is a module folder exactly when the root can be listed and it is a non-ignored directory directly inside it |
| ParseStructure.TopLevelAmong | api/analysis/parse_structure.py:64-67 | a node is kept exactly when it is a non-ignored directory of the listing |
| ParseStructure.KeyFilesAmong | api/analysis/parse_structure.py:76-79 | a step yields at most one key file per file |
| ParseStructure.KeyFilesAmongNamed | api/analysis/parse_structure.py:76-79 | each key file is the step's root joined with the name of one of its files, and that name is one of index.ts, index.tsx, index.js, main.py, app.py |
| ParseStructure.StopAfter | api/analysis/parse_structure.py:75-82 | the loop stops at or after the step it resumes from and never past the last step |
| ParseStructure.CollectKeyFiles | api/analysis/parse_structure.py:73-82 | the loop collects the key files of every step up to and including the first at which three or more have been found |
| ParseStructure.AppendKeyFiles | api/analysis/parse_structure.py:76-79 | the inner loop appends exactly the step's key files, in order |
| ParseStructure.KeyFilesOfPrefix | api/analysis/parse_structure.py:75-79 | the key files of the first steps are a prefix of those of all steps |
| ParseStructure.StopAfterShort | api/analysis/parse_structure.py:81-82 | if fewer than three key files were found when the loop ends, it visited every step |
| ParseStructure.StopAfterBefore | api/analysis/parse_structure.py:81-82 | before the last visited step fewer than three key files had been found, so the break came no earlier |
| ParseStructure.KeyFilesCutIsPrefix | api/analysis/parse_structure.py:75-82 | the collected key files are a prefix of all key files of the folder, and all of them when fewer than three |
| ParseStructure.KeyFilesAmongCount | api/analysis/parse_structure.py:76-77 | a step yields as many key files as it has files with a key name |
| ParseStructure.CountNamedInBound | api/analysis/parse_structure.py:76-77 | with distinct file names, at most one file per key name matches |
| ParseStructure.KeyFilesCutBound | api/analysis/parse_structure.py:75-82 | since the break comes after a step with at most five key files and below three before it, a module lists at most seven key files |
| ParseStructure.WalkFilesDistinct | api/analysis/parse_structure.py:75 | every `os.walk` step of a well-formed tree lists distinct file names |
| ParseStructure.FilesOfDistinct | api/analysis/parse_structure.py:75 | the files of a listing with distinct names have distinct names |
| ParseStructure.CollectModules | api/analysis/parse_structure.py:71-87 | one module per top-level folder, in order, named after the folder with its collected key files |
| ParseStructure.Parse | api/analysis/parse_structure.py:17-93 | the result counts the visible files, joins the base name and the tree lines with newlines, with exactly one tree line per entry shown, and holds one module per top-level folder; when every entry has a plain name, every key file of a module lies inside that module's folder |
| ParseStructure.ModuleKeyFilesBounded | api/analysis/parse_structure.py:71-87 | every module of a well-formed tree lists at most seven key files, the first ones of its folder in walk order |
| ParseStructure.ModuleKeyFilesUnderFolder | api/analysis/parse_structure.py:71-79 | when the folder and every entry below it have plain names, every key file of the module starts with the folder's name and a slash |
| ParseStructure.KeyFilesOfUnder | api/analysis/parse_structure.py:75-79 | when every walk root lies in a folder, every key file found lies below it |
| ParseStructure.KeyFilesAmongUnder | api/analysis/parse_structure.py:76-79 | a key file of one step is its root, a slash and the file name, so it lies below the walked folder |
| LegacyAnalyzer.AddFileLanguages | api/analyze_repo.py:104-107 | the language set stays free of duplicates and gains exactly the languages whose extension set holds the file's lower-cased suffix |
| LegacyAnalyzer.FileSeenInSnoc | api/analyze_repo.py:99-103 | a file is seen in the first k+1 walk steps exactly when it is seen in the first k or among the files of step k |
| LegacyAnalyzer.AddStepLanguages | api/analyze_repo.py:103-107 | after one folder's files the set holds exactly the earlier languages and those revealed by one of the folder's files |
| LegacyAnalyzer.LanguagesSeen | api/analyze_repo.py:99-107 | a language is reported exactly when some file of the walk reveals it; no duplicates |
| LegacyAnalyzer.DetectLanguages | api/analyze_repo.py:82-109 | a language is reported exactly when some file outside the skipped folders has one of its extensions, compared lower-cased |
| LegacyAnalyzer.OnlyTableLanguages | api/analyze_repo.py:85-97 | only the eleven names of the language table can ever be reported |
| LegacyAnalyzer.UpperSuffixExample | api/analyze_repo.py:104 | "APP.PY" counts as Python, since the suffix is lower-cased before the lookup |
| LegacyAnalyzer.HiddenFileExample | api/analyze_repo.py:104 | a dot file such as ".py" has no suffix and reveals no language |
| LegacyAnalyzer.KeysOf | api/analyze_repo.py:150-151 | a name is among the keys exactly when the table has an entry with that key |
| LegacyAnalyzer.AddAll | api/analyze_repo.py:142 | `update` keeps the set duplicate-free and adds exactly the tags |
| LegacyAnalyzer.MarkerTags | api/analyze_repo.py:139-142 | a tag is collected exactly when some marker path that lists it exists |
| LegacyAnalyzer.DetectFrameworks | api/analyze_repo.py:112-168 | a framework is reported exactly when a marker path listing it exists or package.json decodes and declares the package of that name |
| LegacyAnalyzer.PackageJsonMarkers | api/analyze_repo.py:118 | a package.json at the root always yields "nodejs" and "npm", even when it cannot be decoded |
| LegacyAnalyzer.NpmEntry | api/analyze_repo.py:176-185 | the "npm" entry exists exactly when package.json decodes with a non-empty dependency table; it is sorted, distinct, at most 20 long, and holds the smallest dependency names |
| LegacyAnalyzer.StrippedWhere | api/analyze_repo.py:192 | the comprehension keeps at most one entry per line |
| LegacyAnalyzer.StrippedWhereSound | api/analyze_repo.py:192 | every kept entry is the stripped form of a line that passes the filter |
| LegacyAnalyzer.StrippedWhereComplete | api/analyze_repo.py:192 | every line that passes the filter is kept, stripped |
| LegacyAnalyzer.IndentedCommentKept | api/analyze_repo.py:192 | an indented comment passes the `startswith('#')` test and is kept |
| LegacyAnalyzer.LeadingCommentDropped | api/analyze_repo.py:192 | a line starting with '#' is dropped |
| LegacyAnalyzer.PipEntry | api/analyze_repo.py:188-196 | the "pip" entry exists exactly when requirements.txt is readable and keeps some line; it is the first 20 kept lines, each non-empty and stripped |
| LegacyAnalyzer.GemEntry | api/analyze_repo.py:199-207 | the "bundler" entry exists exactly when the Gemfile is readable and has a line containing "gem "; it is the first 20 such lines, stripped |
| LegacyAnalyzer.ManagerListing | api/analyze_repo.py:173-209 | the listing holds exactly the present managers' lists, in the order npm, pip, bundler |
| LegacyAnalyzer.ParseDependencies | api/analyze_repo.py:171-209 | the dependency map holds exactly the present npm, pip and bundler entries in insertion order, each with 1 to 20 names |
| LegacyAnalyzer.ManagerListingBounded | api/analyze_repo.py:183-205 | every list in the map keeps the bound of its manager's list |
| LegacyAnalyzer.ShownDirNames | api/analyze_repo.py:269-270 | a name is kept exactly when it names a directory entry that does not start with '.' and is not node_modules |
| LegacyAnalyzer.TopLevelDirs | api/analyze_repo.py:265-274 | the result is sorted, a permutation of the shown directory names of a listable root, and names exactly those; nothing when listing fails; without repeats when entry names are distinct |
| LegacyAnalyzer.ShownDirNamesDistinct | api/analyze_repo.py:269-272 | entries with distinct names give distinct folder names |
| LegacyAnalyzer.CountFiles | api/analyze_repo.py:314 | the count is the number of files in every listable folder of the tree, ignored folders included |
| LegacyAnalyzer.AnalyzeRepo | api/analyze_repo.py:282-328 | the shape carries the URL, the sorted distinct languages and frameworks, the dependency map, the endpoints, the sorted top-level folders, the Dockerfile flag and the file count, each as its stage defines it |
| LegacyEndpoints.Entry | api/analyze_repo.py:225-226 | a key enters the endpoint map exactly when its value is present, with that value |
| LegacyEndpoints.ApiRoutes | api/analyze_repo.py:219-224 | a route is listed exactly when some file below pages/api ends in ".ts", or in ".js" but not ".test.js", and the route is "/api/" plus its stem |
| LegacyEndpoints.NextjsRoutes | api/analyze_repo.py:216-226 | the "nextjs" entry exists exactly when pages/api exists and yields a route; it is sorted, distinct, at most 15 long, and holds the smallest routes |
| LegacyEndpoints.RouteFileExamples | api/analyze_repo.py:220-224 | "users.test.js" is skipped while "users.test.ts" is kept as "/api/users.test" |
| LegacyEndpoints.VerbAt | api/analyze_repo.py:241 | the alternation matches one of get, post, put, delete, patch exactly when it occurs at the position |
| LegacyEndpoints.VerbAtUnique | api/analyze_repo.py:241 | no verb is a prefix of another, so the verb occurring at a position is the one matched |
| LegacyEndpoints.QuoteFreeRun | api/analyze_repo.py:241 | `[^'"]+` takes the longest run free of quotes, stopping at a quote or the end |
| LegacyEndpoints.CallAt | api/analyze_repo.py:241 | a call matches only as "(", a quote, a non-empty quote-free path and a quote, and the route carries that path |
| LegacyEndpoints.CallAtClosed | api/analyze_repo.py:241 | a parenthesis, a quote, a non-empty quote-free path and a closing quote always match |
| LegacyEndpoints.VerbCall | api/analyze_repo.py:241 | the verb found is one of the five and occurs at the position; the call is matched right after it |
| LegacyEndpoints.MatchAt | api/analyze_repo.py:240-243 | a match at a position is a route text there: prefix, verb, parenthesis, quotes and path |
| LegacyEndpoints.MatchAtVerb | api/analyze_repo.py:240-243 | after the prefix and a verb, the match is decided by the call part alone |
| LegacyEndpoints.MatchAtComplete | api/analyze_repo.py:240-243 | every route text at a position is matched there, with that route and end |
| LegacyEndpoints.RouteTextCall | api/analyze_repo.py:241 | the call part of a route text is the one the matcher finds |
| LegacyEndpoints.FindRoutes | api/analyze_repo.py:240-243 | every route found has one of the five verbs and a non-empty path |
| LegacyEndpoints.FindRoutesReaches | api/analyze_repo.py:240-243 | a match anywhere at or after the start makes the search non-empty |
| LegacyEndpoints.FindRoutesFound | api/analyze_repo.py:240-243 | a non-empty search starts at an actual match |
| LegacyEndpoints.DecoratorHoldsAppRoute | api/analyze_repo.py:241-251 | a FastAPI match at i is the same route as an Express match at i + 1 |
| LegacyEndpoints.DecoratorRoutesImplyAppRoutes | api/analyze_repo.py:240-253 | a file with a FastAPI route always yields an Express route as well |
| LegacyEndpoints.FindRoutesNearEnd | api/analyze_repo.py:240-243 | too close to the end for the prefix, nothing more is found |
| LegacyEndpoints.DecoratorFound | api/analyze_repo.py:250-253 | `@app.post("/items")` yields the FastAPI route POST /items |
| LegacyEndpoints.DecoratorFoundByAppSearch | api/analyze_repo.py:240-243 | the Express search finds the same route in that decorator |
| LegacyEndpoints.FileEndpoints | api/analyze_repo.py:233-257 | a file contributes at most ten routes, and some exactly when it is a .js or .ts file that opens and whose text, read with undecodable bytes dropped, matches |
| LegacyEndpoints.UndecodableScriptScanned | api/analyze_repo.py:236-237 | undecodable bytes do not stop the scan: such a file gives the routes of its text with those bytes dropped |
| FileTree.LenientText | api/analyze_repo.py:236-237 | `open(..., errors='ignore').read()` gives the text of a decodable file and the text without the bad bytes of an undecodable one; nothing when opening fails |
| LegacyEndpoints.AppendTo | api/analyze_repo.py:244-247 | appending no routes leaves the map as it was |
| LegacyEndpoints.Endpoints | api/analyze_repo.py:214-257 | the endpoint map has at most the three keys nextjs, express, fastapi |
| LegacyEndpoints.AppendToAfter | api/analyze_repo.py:247 | `setdefault(...).append` on a key leaves the entries of other keys before it alone |
| LegacyEndpoints.AppendExpress | api/analyze_repo.py:244-247 | appending Express routes extends the express list and keeps the nextjs, express, fastapi order |
| LegacyEndpoints.AppendFastapi | api/analyze_repo.py:254-257 | appending FastAPI routes extends the fastapi list and keeps the order |
| LegacyEndpoints.AppendFileKeepsShape | api/analyze_repo.py:240-257 | one file's Express then FastAPI routes extend the two lists and keep the key order |
| LegacyEndpoints.FileEndpointsOrder | api/analyze_repo.py:240-257 | a file that adds FastAPI routes adds Express routes too, so "express" is always inserted before "fastapi" |
| LegacyEndpoints.FilesEndpointsSnoc | api/analyze_repo.py:232 | the routes of one more file come after those of the files before it |
| LegacyEndpoints.WalkEndpointsSnoc | api/analyze_repo.py:229 | the routes of one more walk step come after those of the steps before it |
| LegacyEndpoints.ScanFiles | api/analyze_repo.py:232-260 | the loop over a folder's files extends the two lists by exactly those files' routes |
| LegacyEndpoints.ScanFile | api/analyze_repo.py:233-260 | one file extends the two lists by exactly its routes and keeps the express-before-fastapi order |
| LegacyEndpoints.FindApiEndpoints | api/analyze_repo.py:212-262 | the map holds the Next.js routes and the Express and FastAPI routes of every walked file outside the pruned folders, in walk order |
| Dependencies.DictSet | api/analysis/dependencies.py:26 | assigning a key keeps keys distinct, gives the key its new value, leaves every other key as it was and adds no other key |
| Dependencies.Assign | api/analysis/dependencies.py:26 | successive assignments keep the keys distinct |
| Dependencies.AssignGet | api/analysis/dependencies.py:26 | after the assignments a key has the last value assigned to it, or its old value when never assigned |
| Dependencies.MergeDicts | api/analysis/dependencies.py:26 | the merge assigns the dependencies' items, then the dev dependencies' items, into an empty dict |
| Dependencies.MergeOverrides | api/analysis/dependencies.py:26 | in the merged table each name appears once and a dev dependency's version overrides a dependency's |
| Dependencies.DictSetKeys | api/analysis/dependencies.py:26 | a dict assignment keeps a present key in its place and puts a new key last |
| Dependencies.AssignAppend | api/analysis/dependencies.py:26 | assigning two lists of pairs in turn is assigning their concatenation |
| Dependencies.AssignKeys | api/analysis/dependencies.py:26 | a dict built by assignments holds the assigned keys, each once, in the order of first assignment |
| Dependencies.MergedKeys | api/analysis/dependencies.py:26 | `{**deps, **dev_deps}` holds the keys of both, each once, in the order of first appearance |
| Dependencies.Records | api/analysis/dependencies.py:26-30 | one record per merged entry, in order, carrying its name and version |
| Dependencies.ReadPackageJson | api/analysis/dependencies.py:17-32 | the package.json section yields the records of the merged tables, and nothing when the file is missing, undecodable or not a pair of tables |
| Dependencies.PackageDependenciesUnique | api/analysis/dependencies.py:23-30 | the record names are the names of dependencies then devDependencies, each once in the order of first appearance, so every name of either table is reported and a name in both keeps its place from dependencies; each carries its overriding version |
| Dependencies.RequirementRoundTrip | api/analysis/dependencies.py:46-55 | rendering a parsed requirement gives the line back, and a versioned name holds no "==" since the split is at the first one |
| Dependencies.ReadRequirements | api/analysis/dependencies.py:37-57 | the requirements.txt section yields exactly the records of its lines, and nothing when the file is missing or unreadable |
| Dependencies.ParseRequirementLines | api/analysis/dependencies.py:41-55 | the line loop yields the records of the stripped non-empty, non-comment lines, in order |
| Dependencies.RequirementsOfPrefix | api/analysis/dependencies.py:41-55 | one more line appends its record, if it gives one |
| Dependencies.PyprojectNamesAreIdentifiers | api/analysis/dependencies.py:66-73 | every pyproject record is an unversioned identifier |
| Dependencies.PyprojectKeyLineYieldsKey | api/analysis/dependencies.py:66-73 | a line `key = value` whose key is an identifier not starting with "dependencies" yields that key |
| Dependencies.ReadPyproject | api/analysis/dependencies.py:62-75 | the pyproject.toml section yields exactly the records of its lines, and nothing when the file is missing or unreadable |
| Dependencies.ParsePyprojectLines | api/analysis/dependencies.py:66-73 | the line loop yields the records of the lines that pass the tests, in order |
| Dependencies.ListInternal | api/analysis/dependencies.py:80-86 | a name is internal exactly when it names a directory of the root not starting with '.'; no duplicates in a well-formed tree |
| Dependencies.ExtractDependencies | api/analysis/dependencies.py:6-91 | the external list is the package.json records, then the requirements.txt records, then the pyproject.toml records; the internal list holds exactly the visible top-level directories |
| CloneRepo.SplitScheme | api/ingestion/clone_repo.py:15 | a scheme is split off only before the first ':' that follows a non-empty head, and it is lower-cased |
| CloneRepo.SplitNetloc | api/ingestion/clone_repo.py:15 | after a leading "//" the network location runs up to the first '/', '?' or '#', and the rest follows; otherwise there is none |
| CloneRepo.UrlParse | api/ingestion/clone_repo.py:15 | parsing fails for an unbalanced IPv6 bracket, with urlparse's message; the NFKC and bracketed-host checks are not modelled |
| CloneRepo.UrlParseHttps | api/ingestion/clone_repo.py:15 | an https URL with a plain host parses with that scheme and host, and a plain path is kept |
| CloneRepo.PathParts | api/ingestion/clone_repo.py:20 | the path is cut at '/' into at least one part holding no '/' |
| CloneRepo.RepoDirName | api/ingestion/clone_repo.py:25 | removing ".git" never lengthens the name nor adds characters |
| CloneRepo.ValidateUrl | api/ingestion/clone_repo.py:15-27 | accepted URLs have host exactly github.com and at least two path parts, and the checkout name is the second part without ".git"; any other host is rejected |
| CloneRepo.CloneRepository | api/ingestion/clone_repo.py:6-55 | the clone succeeds exactly when the URL validates, git exits normally and the checkout exists; each failure has its own error, and the path is the workspace joined with the checkout name |
| CloneRepo.ClonePathEndsInName | api/ingestion/clone_repo.py:27 | the clone path ends in the checkout's directory name |
| CloneRepo.GitSuffixRemoved | api/ingestion/clone_repo.py:25 | "repo.git" becomes "repo" |
| CloneRepo.GitRemovedEverywhere | api/ingestion/clone_repo.py:25 | every ".git" is removed, not only a suffix: "a.github.io" becomes "ahub.io" |
| CloneRepo.PathPartsOfOwnerRepo | api/ingestion/clone_repo.py:20 | "/owner/repo" has the parts owner and repo |
| CloneRepo.GithubUrlAccepted | api/ingestion/clone_repo.py:15-25 | https://github.com/owner/repo is accepted with the repo name as checkout name |
| CloneRepo.WwwHostRejected | api/ingestion/clone_repo.py:17-18 | a www.github.com URL is rejected, since the host must be github.com exactly |
| CloneRepo.PortHostRejected | api/ingestion/clone_repo.py:17-18 | a URL with an explicit port on github.com is rejected too |
| CloneRepo.OwnerOnlyRejected | api/ingestion/clone_repo.py:20-22 | a URL naming only an owner is rejected as an invalid repository URL |
| GitHubUrls.RepoName | api/open_pr.js:53 | the lazy `([^/]+?)(\.git)?$` keeps the whole last segment, or drops exactly one trailing ".git", and nothing shorter would do |
| GitHubUrls.MatchAtShape | api/open_pr.js:53 | a match at a position starts at "github.com" plus ':' or '/', has a non-empty owner and repo free of '/', and the URL ends in the repo, optionally with ".git" |
| GitHubUrls.FirstMatch | api/open_pr.js:53 | the regex reports the leftmost position at which it matches, or none when no position matches |
| GitHubUrls.ParseGitHubUrl | api/open_pr.js:52-62 | parsing fails, with "Invalid GitHub URL: " and the input, exactly when no position matches; otherwise owner and repo are non-empty and slash-free and the URL is the canonical https form |
| GitHubUrls.MatchAtHost | api/open_pr.js:53 | a host followed by owner/repo and nothing else matches with that owner and the repo without ".git" |
| GitHubUrls.TrailingSlashRejected | api/open_pr.js:53-56 | a URL ending in a slash never parses |
| GitHubUrls.ParseAt | api/open_pr.js:52-62 | the first host occurrence followed by owner/repo decides the result |
| GitHubUrls.ParseAfterPrefix | api/open_pr.js:52-62 | any prefix free of the host, then the host, ':' or '/', owner/repo, parses to that owner and repo |
| GitHubUrls.FirstMatchAt | api/open_pr.js:53 | the first match is the one at k when none starts before it |
| GitHubUrls.HttpsForm | api/open_pr.js:52-62 | https://github.com/owner/repo parses to owner and repo |
| GitHubUrls.SshForm | api/open_pr.js:52-62 | git@github.com:owner/name.git parses to owner and name, with ".git" dropped |
| GitHubUrls.LookalikeHostAccepted | api/open_pr.js:53 | the host test is a substring test, so https://notgithub.com/owner/repo parses too |
| GitHubUrls.ExtraSegmentRejected | api/open_pr.js:53-56 | a URL with a third path segment is rejected |
| GitHubUrls.ReparseCanonicalUrl | api/open_pr.js:52-62 | parsing the canonical URL again gives the same owner, repo and URL, when the repo does not itself end in ".git" |
| ApiClient.BasePrecedence | web/lib/api.ts:5 | the base is the first non-empty of NEXT_PUBLIC_API_BASE_URL and NEXT_PUBLIC_API_URL, else http://localhost:8000; never empty |
| ApiClient.ApiBaseUrl | web/lib/api.ts:5 | `API_BASE_URL` from the two variables and the default (its properties: BasePrecedence) |
| ApiClient.GetApiUrl | web/lib/api.ts:8-12 | `getApiUrl`: the base without one trailing slash, then the endpoint with a leading slash (its properties: UrlShape, OnlyOneSlashRemoved) |
| ApiClient.FailureMessage | web/lib/api.ts:29-30 | the message of a failed response (its properties: FailureMessageChoice) |
| ApiClient.WithLeadingSlash | web/lib/api.ts:10 | the path starts with '/', and equals the endpoint exactly when the endpoint already did, else is '/' plus it |
| ApiClient.OnlyOneSlashRemoved | web/lib/api.ts:9 | `/\/$/` removes one trailing slash only, so a base ending in "//" keeps one |
| ApiClient.UrlShape | web/lib/api.ts:8-12 | the URL is the base without one trailing slash, a '/', then the endpoint; an endpoint with or without its leading slash gives the same URL |
| ApiClient.AnalyzeRequest | web/lib/api.ts:16-26 | the request posts the repository URL unchanged, to a URL that starts with the base and ends in /analyze |
| ApiClient.FailureMessageChoice | web/lib/api.ts:29-30 | a failed response's message is the first truthy of detail, message and error in the body, else "Analysis failed with status" and the status |
| ApiClient.AnalyzeRepository | web/lib/api.ts:14-42 | the call succeeds exactly when the server answered ok with a decodable body, returning that body; a non-ok answer fails with the chosen message; every failure is an Error object |
| ApiClient.RethrownMessages | web/lib/api.ts:35-40 | an Error thrown on the way is rethrown as it is; anything else becomes the fixed "unexpected error" Error |
| RepositoryAnalyzer.SegmentsHaveNoSlash | web/components/repository-analyzer.tsx:28 | the owner and repo classes `[\w-]` and `[\w.-]` never hold a slash |
| RepositoryAnalyzer.Decompose | web/components/repository-analyzer.tsx:28 | the URL pattern read as scheme, optional "www.", host, owner, repo and optional slash (its properties: DecomposeSound, DecomposeComplete, DecomposeCompose) |
| RepositoryAnalyzer.ValidUrl | web/components/repository-analyzer.tsx:28 | `urlPattern.test(url)`: the pattern accepts the whole URL (its properties: DecomposeSound, DecomposeComplete) |
| RepositoryAnalyzer.SchemeRoundTrip | web/components/repository-analyzer.tsx:28 | `https?://` read back from its spelling gives the same choice and the rest |
| RepositoryAnalyzer.SchemeSound | web/components/repository-analyzer.tsx:28 | a recognised scheme is the spelling of the choice read |
| RepositoryAnalyzer.WwwRoundTrip | web/components/repository-analyzer.tsx:28 | the optional "www." is read back as it was written |
| RepositoryAnalyzer.PathRoundTrip | web/components/repository-analyzer.tsx:28 | owner, repo and the optional trailing slash are read back from their spelling |
| RepositoryAnalyzer.PathSound | web/components/repository-analyzer.tsx:28 | what the path split reads spells the path it was read from |
| RepositoryAnalyzer.DecomposeSound | web/components/repository-analyzer.tsx:28 | every URL the pattern accepts is the spelling of well-formed parts |
| RepositoryAnalyzer.DecomposeCompose | web/components/repository-analyzer.tsx:28 | the spelling of slash-free parts is accepted exactly when the parts are well-formed, and then gives them back |
| RepositoryAnalyzer.DecomposeComplete | web/components/repository-analyzer.tsx:28 | every well-formed choice of parts spells an accepted URL |
| RepositoryAnalyzer.DotOnlyInRepo | web/components/repository-analyzer.tsx:28 | a dot is refused in the owner and allowed in the repo |
| RepositoryAnalyzer.FailureShowsServerMessage | web/components/repository-analyzer.tsx:41-42 | when the analysis fails, the message shown is the Error's message, which for a non-ok answer is the server's chosen message |
| RepositoryAnalyzer.CheckRepoUrl | web/components/repository-analyzer.tsx:22-32 | the trimmed input is accepted exactly when it is non-empty and matches the pattern; an empty input and a mismatch each get their own message |
| RepositoryAnalyzer.Analyzer.constructor | web/components/repository-analyzer.tsx:16-19 | the component starts with an empty input, not loading, no error and no results |
| RepositoryAnalyzer.Analyzer.SetRepoUrl | web/components/repository-analyzer.tsx:65 | typing replaces the input and touches nothing else |
| RepositoryAnalyzer.Analyzer.HandleAnalyze | web/components/repository-analyzer.tsx:21-39 | a rejected input sets its message and sends nothing; an accepted one clears the error and results, starts loading and sends the trimmed URL |
| RepositoryAnalyzer.Analyzer.CompleteAnalyze | web/components/repository-analyzer.tsx:39-45 | when the call settles, loading stops; success stores the results, failure stores the caught message |
| RepositoryAnalyzer.Analyzer.HandleKeyPress | web/components/repository-analyzer.tsx:48-52 | only Enter while not loading starts an analysis, as a click would; Enter with an input that fails validation sets the validation message and leaves loading and results alone; any other key changes nothing; the input never changes |
| MermaidViewer.WordEnd | web/components/MermaidViewer.tsx:85-86 | `\w+` runs to the first non-word character or the end |
| MermaidViewer.QuoteEnd | web/components/MermaidViewer.tsx:85-86 | `[^"]+` runs to the first double quote or the end |
| MermaidViewer.BracketAtShape | web/components/MermaidViewer.tsx:85-86 | a match at a position is a non-empty word id, the opening bracket, a quote, a non-empty quote-free caption, a quote and the closing bracket |
| MermaidViewer.FirstBracket | web/components/MermaidViewer.tsx:85-86 | `match` reports the leftmost position at which the pattern matches, or none |
| MermaidViewer.MatchBracket | web/components/MermaidViewer.tsx:85-86 | `line.match`: the id and caption at the leftmost match (its properties: FirstBracket, BracketAtShape, MatchLeadingNode, NoQuoteNoMatch) |
| MermaidViewer.MatchLeadingNode | web/components/MermaidViewer.tsx:85-86 | a line that starts with id, bracket, quoted caption and closing bracket matches with that id and caption |
| MermaidViewer.NoQuoteNoMatch | web/components/MermaidViewer.tsx:85-86 | a line without a double quote matches neither pattern |
| MermaidViewer.CapitalKeysUnreachable | web/components/MermaidViewer.tsx:157-178 | a lower-cased name is never "Dockerfile" nor "README.md", so those two table entries are never found |
| MermaidViewer.FileEntryMissingAsWritten | web/components/MermaidViewer.tsx:178-179 | as written, a file without a truthy table entry is described by its extension |
| MermaidViewer.UnknownExtension | web/components/MermaidViewer.tsx:179 | an extension without a table entry is named in capitals followed by " file" |
| MermaidViewer.DockerfileExtension | web/components/MermaidViewer.tsx:148-179 | "Dockerfile" holds no dot, so its whole name is taken as the extension and it reads "DOCKERFILE file" |
| MermaidViewer.DockerfileAsWritten | web/components/MermaidViewer.tsx:157-179 | as written, a Dockerfile is described as "DOCKERFILE file" rather than by its table entry |
| MermaidViewer.ReadmeExtension | web/components/MermaidViewer.tsx:171-179 | "README.md" has the Markdown extension |
| MermaidViewer.ReadmeAsWritten | web/components/MermaidViewer.tsx:160-179 | as written, a README is described by the Markdown extension line rather than by its table entry |
| MermaidViewer.FileEntryFound | web/components/MermaidViewer.tsx:178 | with the corrected table, a file with a truthy entry is described by that entry |
| MermaidViewer.FileEntryFoundAsWritten | web/components/MermaidViewer.tsx:178 | as written, a file whose lower-cased name has a truthy entry is described by that entry |
| MermaidViewer.DescribeAgrees | web/components/MermaidViewer.tsx:110-180 | the program's description and the corrected one are the same for every caption whose lower-cased name is neither "dockerfile" nor "readme.md" |
| MermaidViewer.FileTablesAgree | web/components/MermaidViewer.tsx:149-162 | the file table as written and the lower-cased one agree on every key but the two spellings of Dockerfile and README.md |
| MermaidViewer.DescribeAsWritten | web/components/MermaidViewer.tsx:110-180 | `generateDescription` as the program computes it (its properties: FileEntryMissingAsWritten, FileEntryFoundAsWritten, DescribeAgrees, PlainFileFallback) |
| MermaidViewer.CorrectedDockerfile | web/components/MermaidViewer.tsx:157 | with lower-cased keys, any spelling of "Dockerfile" gets the Docker description |
| MermaidViewer.CorrectedReadme | web/components/MermaidViewer.tsx:160 | with lower-cased keys, any spelling of "README.md" gets the documentation description |
| MermaidViewer.TrailingSlashIgnored | web/components/MermaidViewer.tsx:112 | one trailing slash of a caption does not change its description, as written and corrected |
| MermaidViewer.FolderFallback | web/components/MermaidViewer.tsx:145-146 | a folder missing from the table is described by its name, as written and corrected |
| MermaidViewer.NoEntryIsPlainFile | web/components/MermaidViewer.tsx:149-176 | no entry of the file or extension tables reads "File" |
| MermaidViewer.PlainFileFallback | web/components/MermaidViewer.tsx:148-179 | as written and corrected, a file reads "File" exactly when it has no table entry and an empty extension; an unknown extension reads in capitals |
| MermaidViewer.LineNode | web/components/MermaidViewer.tsx:85-104 | a line declares a folder exactly when the bracket pattern matches, and nothing exactly when neither pattern does |
| MermaidViewer.FolderFirst | web/components/MermaidViewer.tsx:88-95 | a line starting with a bracket node declares that folder, whatever follows |
| MermaidViewer.Lookup | web/components/MermaidViewer.tsx:90-103 | the map finds a node with the id exactly when the id is among its keys |
| MermaidViewer.IndexOfId | web/components/MermaidViewer.tsx:90-103 | a key sits at its first position in the insertion order |
| MermaidViewer.SetNodeLookup | web/components/MermaidViewer.tsx:90-103 | `set` maps the id to the new node, leaves every other id alone, and adds the id last only when it is new |
| MermaidViewer.LookupFirst | web/components/MermaidViewer.tsx:90-103 | a lookup returns the entry at the id's position |
| MermaidViewer.LookupAway | web/components/MermaidViewer.tsx:90-103 | replacing one entry leaves the lookups of other ids alone |
| MermaidViewer.LookupAppended | web/components/MermaidViewer.tsx:90-103 | appending an entry leaves the lookups of other ids alone |
| MermaidViewer.ExtractNodeInfo | web/components/MermaidViewer.tsx:79-108 | the map built by the line loop is the one the lines declare |
| MermaidViewer.NodesOf | web/components/MermaidViewer.tsx:83-104 | the map after the given lines, one `set` per declaring line (its properties: LastWriterWins, FirstDeclarationOrder) |
| MermaidViewer.LastWriterWins | web/components/MermaidViewer.tsx:88-104 | the node stored for an id is the one its last declaring line gives |
| MermaidViewer.FirstDeclarationOrder | web/components/MermaidViewer.tsx:80-107 | the ids iterate in the order of their first declaration, each once |
| MermaidViewer.ExtractDirectories | web/components/MermaidViewer.tsx:184-192 | the directory list is the folder captions, in map order |
| MermaidViewer.FolderCaptionsExact | web/components/MermaidViewer.tsx:184-192 | a caption is listed exactly when some folder node carries it, and the list is no longer than the map |
| ShapeDiagram.IconOr | api/generate_mermaid.js:158-202 | an icon lookup gives the fallback for a name outside the table, otherwise the first entry of that name when its icon is non-empty, and never an icon the table does not hold |
| ShapeDiagram.UnknownNamesGetFallback | api/generate_mermaid.js:172-202 | names outside both tables get the laptop and wrench icons |
| ShapeDiagram.PythonIcon | api/generate_mermaid.js:162 | "python" gets the snake icon |
| ShapeDiagram.TrailingSlashEmptyLabel | api/generate_mermaid.js:23-24 | a URL ending in '/' labels the repository node with nothing |
| ShapeDiagram.ListNodes | api/generate_mermaid.js:30-33 | one node line per item |
| ShapeDiagram.ListEdges | api/generate_mermaid.js:39-41 | one edge line per shown item |
| ShapeDiagram.Shown | api/generate_mermaid.js:28-66 | an absent field shows nothing; the structure section shows at most the first 8 folders, the others all items |
| ShapeDiagram.ListSection | api/generate_mermaid.js:29-42 | the section pushes the subgraph of the items, then their edges |
| ShapeDiagram.BuildListNodes | api/generate_mermaid.js:30-33 | the `map` yields the node line of each item, in order |
| ShapeDiagram.BuildListEdges | api/generate_mermaid.js:39-41 | the `forEach` pushes one numbered edge per item, in order |
| ShapeDiagram.ListSectionNumbering | api/generate_mermaid.js:30-41 | node i names item i with its icon, and edge i points at node i |
| ShapeDiagram.Unquoted | api/generate_mermaid.js:89 | removing double quotes keeps every other character and no quote |
| ShapeDiagram.EndpointLabel | api/generate_mermaid.js:89 | the label is at most 30 characters, holds no quote, and is a prefix of the unquoted endpoint, all of it when shorter |
| ShapeDiagram.ShownApiNodes | api/generate_mermaid.js:88-93 | one node per shown endpoint |
| ShapeDiagram.RenderApiSnoc | api/generate_mermaid.js:90-97 | rendering one more node appends its two lines |
| ShapeDiagram.ApiNodeIds | api/generate_mermaid.js:83-99 | every endpoint node, shown or "more", takes the next counter value |
| ShapeDiagram.ApiIdsUnique | api/generate_mermaid.js:83-99 | no two endpoint nodes share an id |
| ShapeDiagram.EndpointTypeNodes | api/generate_mermaid.js:87-99 | an endpoint type shows its first three endpoints, plus one "more" node counting the rest when it has more than three |
| ShapeDiagram.RenderApiAppend | api/generate_mermaid.js:84-100 | the lines of two runs of nodes are the lines of each in turn |
| ShapeDiagram.PushApiNode | api/generate_mermaid.js:90-91 | the two pushes for a node add exactly its lines |
| ShapeDiagram.ShownEndpointLines | api/generate_mermaid.js:88-93 | the `forEach` pushes the lines of the shown endpoints and advances the counter by their number |
| ShapeDiagram.EndpointTypeLines | api/generate_mermaid.js:87-99 | one endpoint type pushes the lines of its nodes and advances the counter by their number |
| ShapeDiagram.ApiSection | api/generate_mermaid.js:83-100 | the loop over endpoint types pushes the lines of all their nodes, skipping empty types |
| ShapeDiagram.ShownDepNodes | api/generate_mermaid.js:112-116 | a manager shows at most its first three dependencies |
| ShapeDiagram.RenderDeps | api/generate_mermaid.js:114-119 | one line per dependency node |
| ShapeDiagram.FirstDepNodeIsShown | api/generate_mermaid.js:108-128 | when any dependency node exists, the first is a shown dependency with id 0, so the "Dep0" edge points at a real node |
| ShapeDiagram.RenderDepsAppend | api/generate_mermaid.js:109-122 | the lines of two runs of dependency nodes are the lines of each in turn |
| ShapeDiagram.ManagerLines | api/generate_mermaid.js:112-121 | one manager pushes the lines of its nodes and advances the counter by their number |
| ShapeDiagram.DependencySection | api/generate_mermaid.js:108-122 | the loop over managers pushes all their node lines, skipping empty managers, and the counter ends at the number of nodes |
| ShapeDiagram.OptionalListSection | api/generate_mermaid.js:28-43 | a list section is drawn exactly when its field holds items |
| ShapeDiagram.OptionalApiSection | api/generate_mermaid.js:81-103 | the APIs subgraph is drawn exactly when the endpoint object has keys |
| ShapeDiagram.OptionalDependencySection | api/generate_mermaid.js:106-131 | the dependencies subgraph is drawn exactly when the dependency object has keys |
| ShapeDiagram.GenerateMermaidDiagram | api/generate_mermaid.js:15-153 | the diagram is the newline join of the header, the sections, the Docker and file-count nodes and the class lines |
| ShapeDiagram.DiagramFrame | api/generate_mermaid.js:19-152 | the diagram opens with "graph TD" and closes with "  class Repo repo" |
| CiTemplates.TagSet | api/generate_ci.js:330-332 | an absent list gives the empty set, otherwise the set of its tags |
| CiTemplates.SelectCiTemplate | api/generate_ci.js:329-358 | the template chosen is signalled by the tags and no template of higher priority is |
| CiTemplates.FirstMatchUnique | api/generate_ci.js:329-358 | at most one template is signalled with none of higher priority signalled, so the choice is determined |
| CiTemplates.TypeScriptNextjs | api/generate_ci.js:334-335 | TypeScript with Next.js gives the Next.js template |
| CiTemplates.JavaScriptNextjsIsNode | api/generate_ci.js:334-341 | JavaScript with Next.js but no TypeScript gives the Node template |
| CiTemplates.NuxtRuleRedundant | api/generate_ci.js:337-341 | the TypeScript-with-Nuxt rule adds nothing beyond the general Node rule |
| CiTemplates.PythonOnlyWithoutNode | api/generate_ci.js:340-344 | a Python signal gives the Python template exactly when there is no Node signal |
| CiTemplates.MissingFieldsAreEmpty | api/generate_ci.js:330-357 | a missing field counts as an empty list, and with both missing the generic template is chosen |
| BackupMermaid.UnquotedRemovesBackticks | api/llm/just-incase/generate_mermaid.js:7 | removing backticks keeps every other character as often as it occurs and removes nothing else |
| BackupMermaid.ToMermaid | api/llm/just-incase/generate_mermaid.js:3-10 | `toMermaid(data)`: the header and the file lines joined with newlines (its properties: StartsWithHeader, MissingFilesHeaderOnly, LinesOfDiagram, NoBackticks) |
| BackupMermaid.StartsWithHeader | api/llm/just-incase/generate_mermaid.js:3-10 | the diagram always begins with "graph TD" |
| BackupMermaid.MissingFilesHeaderOnly | api/llm/just-incase/generate_mermaid.js:4-5 | with no files, or an absent list, the diagram is the header alone |
| BackupMermaid.FileLineSingle | api/llm/just-incase/generate_mermaid.js:7 | a file line holds no newline when its file name holds none |
| BackupMermaid.LinesOfDiagram | api/llm/just-incase/generate_mermaid.js:3-10 | split at newlines, the diagram is the header and then one edge line per file, for the first 50 files |
| BackupMermaid.NoBackticks | api/llm/just-incase/generate_mermaid.js:3-10 | no backtick survives anywhere in the diagram |
| SummaryPrompt.AbbreviationAccounts | api/generate_summary.js:200-210 | an abbreviated list shows a prefix of at most the limit, counts exactly the rest as hidden, and hides something exactly when the list is longer than the limit |
| SummaryPrompt.GroupLinesText | api/generate_summary.js:198-202 | the loop over managers or endpoint types appends one line per non-empty list, in order |
| SummaryPrompt.AppendGroupBlock | api/generate_summary.js:196-214 | the block appended is the heading, the group lines and a blank line when the object has keys, and nothing otherwise |
| SummaryPrompt.UserPrompt | api/generate_summary.js:179-222 | the prompt built step by step is the text its parts define |
| SummaryPrompt.PromptFrame | api/generate_summary.js:186-219 | the prompt opens with the analysis request and closes with the three requests |
| SummaryPrompt.DependencySectionOnlyWithKeys | api/generate_summary.js:196-204 | the dependencies block is empty when the object has no keys and starts with its heading otherwise |
| SummaryPrompt.EmptyListSkipped | api/generate_summary.js:199 | a key whose list is empty adds no line |
| SummaryPrompt.AbbreviationCounts | api/generate_summary.js:200 | a list within the limit is joined whole; a longer one shows the first items then "(+n more)" with n the number left out |
| SummaryPrompt.SkipSpace | api/generate_summary.js:237-256 | `\s*` runs to the first non-space character or the end |
| SummaryPrompt.SkipDigits | api/generate_summary.js:246 | `\d+` runs to the first non-digit or the end |
| SummaryPrompt.LineEnd | api/generate_summary.js:246-256 | `(.+)$` with the m flag runs to the next line terminator or the end |
| SummaryPrompt.LastOnLine | api/generate_summary.js:246-256 | the backtracking `\s*(.+)` ends at the last non-terminator before the line end |
| SummaryPrompt.TailAt | api/generate_summary.js:246-256 | the item text after a marker ends after where it starts and within the text |
| SummaryPrompt.TailAtShape | api/generate_summary.js:248-258 | an item's text is one line, trimmed |
| SummaryPrompt.StripOneLine | api/generate_summary.js:248-258 | trimming one line leaves one line |
| SummaryPrompt.StripBlank | api/generate_summary.js:239 | trimming only whitespace leaves nothing |
| SummaryPrompt.ItemAt | api/generate_summary.js:246-256 | an item pattern matches only at a line start, and its match ends after where it starts |
| SummaryPrompt.Matches | api/generate_summary.js:246-256 | the match of the item pattern is tried at every position, and every match resumes past where it started |
| SummaryPrompt.ItemsShape | api/generate_summary.js:246-258 | every item found by the global match is one line, trimmed |
| SummaryPrompt.ScanShape | api/generate_summary.js:246-258 | the global match yields only texts found at match positions |
| SummaryPrompt.WordsAt | api/generate_summary.js:237-253 | heading words separated by `\s*` end at a newline |
| SummaryPrompt.HeadingAt | api/generate_summary.js:237-253 | a heading match starts with "##" and ends within the text |
| SummaryPrompt.FindHeading | api/generate_summary.js:237-253 | the search finds the leftmost heading, and none when no position holds one |
| SummaryPrompt.Section | api/generate_summary.js:237-253 | a section exists exactly when its heading occurs, and holds no "##" since the lazy body stops at the first one |
| SummaryPrompt.SliceFree | api/generate_summary.js:237 | a slice inside which "##" never starts holds no "##" |
| SummaryPrompt.ParseSummaryResponse | api/generate_summary.js:227-266 | the raw text is kept; a missing section leaves its field empty |
| SummaryPrompt.ParsedShape | api/generate_summary.js:237-260 | the summary is trimmed, and every hotspot and checklist item is one trimmed line |
| SummaryPrompt.SummaryHeadingFirst | api/generate_summary.js:237 | a text opening with "## Summary" and a newline has its summary heading at the start |
| SummaryPrompt.LeadingSummary | api/generate_summary.js:237-240 | after a leading "## Summary" line, the summary is the trimmed body up to the next "##", for any body in which no "##" starts |
| SummaryPrompt.ScanSkip | api/generate_summary.js:246-256 | positions without a match add nothing to the global match |
| SummaryPrompt.UnnumberedLineSkipped | api/generate_summary.js:246 | a line that does not start with a digit yields no hotspot |
| SummaryPrompt.NumberedLine | api/generate_summary.js:246-248 | a numbered first line yields its trimmed text as the first hotspot, and the search resumes at its end |
| SummaryPrompt.NumberedAt | api/generate_summary.js:246-248 | a line "n. text" matches with the trimmed text |
| SummaryPrompt.ScanHead | api/generate_summary.js:246-256 | a match at a position is the first item found from there |
| SummaryPrompt.CheckboxLine | api/generate_summary.js:256-258 | a "- [ ] " first line yields its trimmed text as the first checklist item, and the search resumes at its end |
| SummaryPrompt.CheckboxAt | api/generate_summary.js:256-258 | a line "- [ ] text" matches with the trimmed text |
| FileTree.ChildNamed | api/analyze_repo.py:140-141 | a path step finds an entry of that name among the children, or establishes that none has it |
| FileTree.Suffix | api/analyze_repo.py:104 | `Path(name).suffix` is empty or a dot followed by a dot-free tail that ends the name, and never the whole name |
| FileTree.Stem | api/analyze_repo.py:221 | `Path(name).stem` followed by the suffix is the name |
| FileTree.SubdirNames | api/analysis/risks.py:36-42 | the `dirs` of a walk step are exactly the names of the directory entries |
| FileTree.FilesOf | api/analysis/detect_stack.py:31-39 | the `files` of a walk step are exactly the file entries |
| FileTree.WalkSeesDirs | api/analysis/risks.py:36-42 | the `dirs` lists of the walk name a directory satisfying a test exactly when the tree has one below the top, reached through listable, unpruned folders |
| FileTree.WalkChildrenSeesDirs | api/analysis/risks.py:36-42 | the same over the walks of a listing's subdirectories |
| FileTree.DirSeenInAppend | api/analysis/risks.py:36-42 | a directory is seen in two runs of steps exactly when it is seen in one of them |
| FileTree.WalkSeesFiles | api/analyze_repo.py:99-107 | the `files` lists of the walk name a file satisfying a test exactly when the tree has one reached through listable, unpruned folders |
| FileTree.WalkChildrenSeesFiles | api/analyze_repo.py:99-107 | the same over the walks of a listing's subdirectories |
| FileTree.FileSeenInAppend | api/analyze_repo.py:99-107 | a file is seen in two runs of steps exactly when it is seen in one of them |
| FileTree.WalkCountsFiles | api/analyze_repo.py:314 | the `files` lists of an unpruned walk count every file of the listable folders of the tree |
| FileTree.WalkChildrenCountsFiles | api/analyze_repo.py:314 | the same over a listing and the walks of its subdirectories |
| FileTree.StepFilesAppend | api/analyze_repo.py:314 | the file count of two runs of steps is the sum of their counts |
| FileTree.WalkStaysUnder | api/analysis/parse_structure.py:75 | when every entry below has a plain name, each root `os.walk(path)` yields is the path or lies below it, and every file it lists has a plain name |
| FileTree.WalkChildrenStaysUnder | api/analysis/parse_structure.py:75 | the same for the walks of a listing's subdirectories |
| FileTree.PathJoinPlain | api/analysis/parse_structure.py:72 | `os.path.join` of a path ending in a name and a plain name puts one slash between them |
| Strings.Strip | api/analysis/dependencies.py:42 | `strip()` leaves no whitespace at either end and adds no character |
| Strings.SplitJoin | api/open_pr.js:53 | joining the pieces of a split with the separator gives the text back |
| Strings.JoinSplit | api/orchestration/analyze_repo.py:17-42 | splitting a join of separator-free pieces at the separator gives the pieces back |
| Strings.AfterLast | api/ir/builder.py:20 | `split(c)[-1]` is the separator-free tail of the text after the last separator, or the whole text |
| Strings.ReplaceAllAbsent | api/ingestion/clone_repo.py:25 | replacing a pattern that does not occur leaves the text as it is |
| Strings.NatToStringInjective | api/generate_mermaid.js:83-99 | distinct numbers render differently, so numbered node ids never clash |
| Strings.DropTrailing | web/lib/api.ts:9 | `replace(/c$/, '')` removes one trailing c exactly when there is one, and nothing else |
| Strings.Sort | api/analyze_repo.py:271 | `sorted` yields an ordered permutation of its input |
| Strings.Dedup | web/components/MermaidViewer.tsx:90-103 | the distinct elements, each once, and no others |
| Strings.DedupOrder | web/components/MermaidViewer.tsx:90-103 | the distinct elements come in the order of their first occurrence |
| Strings.FirstIndex | web/components/MermaidViewer.tsx:90-103 | the position of the first occurrence of an element |
| Strings.FirstIndexSnoc | web/components/MermaidViewer.tsx:90-103 | appending leaves the first occurrence of an element already present where it was |
| Strings.SmallestDistinct | api/analyze_repo.py:226 | `sorted(set(xs))[:n]` is sorted and distinct, at most n long, drawn from xs, non-empty for a non-empty xs, and holds the n smallest when something is cut |
| DetectStack.LookupIn | api/analysis/detect_stack.py:38-39 | a key is found exactly when the map has an entry with it, and the value found is that entry's |
| DetectStack.CountOfAt | api/analysis/detect_stack.py:39 | the count of a key of the tally is the value stored with it |
| DetectStack.IncrementDistinct | api/analysis/detect_stack.py:39 | `+= 1` on a `Counter` keeps its keys distinct |
| DetectStack.IncrementAbsent | api/analysis/detect_stack.py:39 | incrementing one key adds no other key |
| DetectStack.InsertByCount | api/analysis/detect_stack.py:80 | one insertion step of the count sort: one longer, the same pairs plus the new one |
| CloneRepo.LStripC0 | api/ingestion/clone_repo.py:15 | `urlparse` first strips the leading C0 controls and spaces, and nothing more |
| CloneRepo.NetlocEnd | api/ingestion/clone_repo.py:15 | the network location runs to the first '/', '?' or '#', or to the end |
| CloneRepo.SplitTail | api/ingestion/clone_repo.py:15 | the path stops before any '#' or '?'; a tail without '#', '?' or ';' is all path |
| CloneRepo.CleanHttps | api/ingestion/clone_repo.py:15 | cleaning an https URL with a plain host keeps the head and removes only tab, CR and LF from the rest |
| CloneRepo.NetlocOf | api/ingestion/clone_repo.py:15 | "//host/x" has the network location host and the rest "/x" |
| CloneRepo.UrlParseGithub | api/ingestion/clone_repo.py:15-18 | a github.com URL with a plain path parses with host github.com and that path |
| Orchestration.NoNewlineInNodeId | api/orchestration/analyze_repo.py:33 | a node id holds no newline when the name holds none |
| Strings.FindFrom | api/analysis/dependencies.py:46-47 | the search finds the first occurrence at or after the start, and none when there is none |
| Strings.SplitChar | api/ingestion/clone_repo.py:20 | `split(c)` yields at least one piece and no piece holds c |
| Strings.ReplaceAll | api/ingestion/clone_repo.py:25 | `replace` introduces no character that is neither in the text nor in the replacement |
| Strings.Lower | api/analyze_repo.py:104 | `lower()` maps each character by itself and keeps the length |
| Strings.NatToString | api/generate_mermaid.js:30-40 | the decimal rendering is a non-empty run of digits, one digit long exactly below 10 |
| Strings.Take | api/analyze_repo.py:194 | `xs[:n]` is the prefix of length min(n, len(xs)) |

## Left out

- Cloning, deleting checkouts, and the Windows retry loop. In `CloneRepo.CloneRepository` and `Orchestration.AnalyzeRepository`, git's outcome is a parameter: it failed, or it exited with or without a checkout. `shallow_clone` and `cleanup_repo` in api/analyze_repo.py are not modelled.
- File reading and JSON decoding. A file body (`FileTree.Body`) has four forms:
  - its text;
  - an already-decoded package.json (ordered key/value tables);
  - bytes that do not decode as text;
  - an error on opening.

  The strict reads, `readlines()` and `json.load`, fail on undecodable bytes before anything is appended, so they add nothing for such a file. The endpoint scan opens files with `errors='ignore'` (api/analyze_repo.py:236). It reads undecodable bytes as the text with those bytes dropped (`FileTree.LenientText`), and only an error on opening makes it skip the file.
- TOML is not parsed. pyproject.toml is scanned line by line, as the source does.
- Character classes are ASCII. `\s`, `str.strip` and `trim` cover space, tab, LF, CR, VT and FF. Python's `str.strip()` also removes the separators U+001C to U+001F, which the model keeps (JavaScript's `trim` keeps them too). U+2028, U+2029 and other Unicode spaces are not line terminators or whitespace here. `lower()`/`toLowerCase()` change A-Z only, and `toUpperCase()` changes a-z only (`Strings.Upper`), so a letter outside ASCII keeps its case. `str.isidentifier` is ASCII letters, digits and '_', not starting with a digit.
- Sorting is by code point (`Strings.LexLe`), which is Python's string order.
- The network and the LLM calls are left out: `fetch`, the summary and CI generators' HTTP calls, `gh`/git process calls in open_pr.js, and the scripts' `main` functions with their file writes.
- `ApiClient.AnalyzeRepository` takes the outcome of `fetch` as a parameter. It is a failure, or a response with its `ok` flag, status, error body and decoded data.
- The logging in `analyzeRepository` is not modelled.
- The CI YAML templates are distinct named constants (`CiTemplates.Template`). Their text is not modelled.
- Only the decision in `selectCITemplate` is modelled.
- Rendering and effects in MermaidViewer.tsx are not modelled: mermaid initialisation, rendering, click handlers and description fetching. Only `extractNodeInfo`, `generateDescription` and `extractDirectories` are.
- The dashboard's awaiting of `analyzeRepository` is split into two transitions. `RepositoryAnalyzer.Analyzer.HandleAnalyze` returns the request to send. `RepositoryAnalyzer.Analyzer.CompleteAnalyze` takes the settled outcome. Interleavings of several in-flight requests are not modelled.
- Exceptions are modelled as `Result` errors where the source lets them escape:
  - `Orchestration.AnalyzeRepository` fails when the checkout or its workflows folder cannot be listed;
  - `DetectStack.Detect` fails when the root cannot be listed.
- Caught exceptions become the source's fallbacks: a skipped manifest, an empty listing, or a file skipped by the endpoint scan.
- DetectStack.Detect: the root probes are not separate file system calls. `os.listdir` of the root and `os.path.exists` are read as one snapshot of the root (`MarkersOf`), so the tree cannot change between them.
- DetectStack.MostCommonIsTop: the order among languages with equal counts is computed but not stated. `Counter.most_common` keeps first-counted-first, and the model does the same, through a stable insertion sort of the tally in first-seen order.
- LegacyAnalyzer.DetectFrameworks: Python's set has no order. The model keeps a duplicate-free list, and the record sorts it, as the source does.
- LegacyEndpoints.ApiRoutes: `rglob` lists files in directory order. The model takes the walk order, then sorts and deduplicates, as the source does. Only the resulting set is stated.
- IrBuilder.RepoName: `build_ir` keeps a ".git" suffix, so a URL ending in "/widgets.git" gives the name "widgets.git" (api/ir/builder.py:20). The model does the same (`IrBuilder.RepoNameKeepsGitSuffix`).
- The order of `os.listdir` and `os.walk` is taken as given (the child order of the tree). This affects the module order, the internal dependency order and `Counter` ties. It is not proved to be anything in particular.
- CloneRepo.UrlParse: follows `urlparse` in Python 3.11 and later. It strips leading C0 controls and spaces, and removes tab, CR and LF. The port is not validated, since `netloc` is compared as text. Two checks that `urlsplit` makes are left out, because the model has no Unicode normalization:
  - bracketed IPv6 hosts are only checked for balance, not for a valid address;
  - for a network location that is not pure ASCII, Python raises "netloc '…' contains invalid characters under NFKC normalization" when its NFKC form gains one of '/', '?', '#', '@' or ':'. An example is "https://github.com\u2100/a/b".

  Such a network location is never "github.com", so the URL is rejected either way. Only the message differs: the model gives "Only github.com repositories are supported." where the program raises the NFKC error. For a URL whose network location is ASCII, this check never applies.
- CloneRepo.ValidateUrl: its errors are the host, path and bracket messages. Python's NFKC error is not among them, for the reason given for `CloneRepo.UrlParse`.
- CloneRepo.CloneRepository: a URL that meets Python's NFKC check fails with the host message in the model, for the reason given for `CloneRepo.UrlParse`.
- FastAPI decorators are also Express matches. `app.get(...)` occurs inside every `@app.get(...)`, so a FastAPI file reports each route under both keys (`LegacyEndpoints.DecoratorRoutesImplyAppRoutes`). This is modelled as written and not corrected, because the intent is not evident from the source.
- `GitHubUrls.ParseGitHubUrl` accepts lookalike hosts such as "notgithub.com" (`GitHubUrls.LookalikeHostAccepted`). This is modelled as written.
- The `'#'` test on the raw line in requirements parsing keeps indented comments (`LegacyAnalyzer.IndentedCommentKept`). This is modelled as written.
- ApiClient.FailureMessage: the error body's `detail`, `message` and `error` are modelled as optional strings. In the program a truthy non-string value is passed to `new Error`, which converts it to text. For example, FastAPI's 422 `detail` list gives the message "[object Object]".
- ApiClient.AnalyzeRepository: an error response whose JSON body is `null` makes `errorData.detail` throw a TypeError, and that TypeError's message is what the caller sees. The model has no `null` body: every error body is an `ErrorBody`, so a non-ok response always gives `FailureMessage`.
- ShapeDiagram.IconOr: an object-literal lookup in JavaScript also finds the keys every object inherits from `Object.prototype`. For a name such as "constructor", "toString" or "__proto__", `icons[name]` is a truthy function or object, so the program returns it instead of the fallback. The model's tables hold only the listed keys, so those names get the fallback.
- ShapeDiagram.UnknownNamesGetFallback: holds for names that are not keys of `Object.prototype`, for the reason given for `ShapeDiagram.IconOr`.
- ShapeDiagram.EndpointLabel: `substring(0, 30)` counts UTF-16 code units, while the model counts characters (code points). A label with characters outside the Basic Multilingual Plane can therefore be cut at a different place, or in the middle of a surrogate pair, in the program.
- MermaidViewer.DescribeAsWritten: the file, folder and extension tables are object literals in the program. A lower-cased name or extension such as "constructor" or "__proto__" finds an inherited `Object.prototype` member there, and the program returns it as the description. The model's tables hold only the listed keys.
- MermaidViewer.FileEntryMissingAsWritten: the lower-cased name is looked up in an object literal, so a name such as "constructor" or "__proto__" finds an inherited `Object.prototype` member and the program returns it. The model's table has no such entries, so those names are described by their extension.
- MermaidViewer.PlainFileFallback: does not hold in the program for a file named after an `Object.prototype` key, for the reason given for `MermaidViewer.FileEntryMissingAsWritten`.
- MermaidViewer.FolderFallback: does not hold in the program for a folder named after an `Object.prototype` key, such as "constructor", for the same reason.
- MermaidViewer.UnknownExtension: an extension such as "constructor" finds an inherited `Object.prototype` member in the program. `toUpperCase()` is modelled on ASCII letters only (`Strings.Upper`).
- LegacyAnalyzer.MarkerTags: `Path.exists` (api/analyze_repo.py:141) is modelled as `os.path.exists`, which gives False when a directory on the way cannot be searched. `Path.exists` does this from Python 3.13 on; Python 3.11 and 3.12 raise `PermissionError` there instead, which the program does not catch. The same holds for the other `Path.exists` calls below.
- LegacyAnalyzer.DetectFrameworks: the `package.json` probe (api/analyze_repo.py:146) follows Python 3.13 and later, as for `LegacyAnalyzer.MarkerTags`.
- LegacyAnalyzer.NpmEntry: the probe at api/analyze_repo.py:177 follows Python 3.13 and later, as for `LegacyAnalyzer.MarkerTags`.
- LegacyAnalyzer.PipEntry: the probe at api/analyze_repo.py:189 follows Python 3.13 and later, as for `LegacyAnalyzer.MarkerTags`.
- LegacyAnalyzer.GemEntry: the probe at api/analyze_repo.py:200 follows Python 3.13 and later, as for `LegacyAnalyzer.MarkerTags`.
- LegacyEndpoints.NextjsRoutes: the probe at api/analyze_repo.py:218 follows Python 3.13 and later, as for `LegacyAnalyzer.MarkerTags`.
- LegacyAnalyzer.DetectDockerfile: the probe at api/analyze_repo.py:279 follows Python 3.13 and later, as for `LegacyAnalyzer.MarkerTags`.

## Findings

| source | as written | input that shows it | evidently intended | confidence | as-written member | corrected member |
|---|---|---|---|---|---|---|
| web/components/MermaidViewer.tsx:157-178 | the file table has the key "Dockerfile" but is indexed by the lower-cased name, so the entry is never found | a file node captioned "Dockerfile" is described as "DOCKERFILE file" | "Docker container build instructions" | not executed | MermaidViewer.DockerfileAsWritten | MermaidViewer.CorrectedDockerfile |
| web/components/MermaidViewer.tsx:160-178 | the key "README.md" is never found for the same reason | a file node captioned "README.md" is described as "Markdown documentation file" | "Project documentation and setup instructions" | not executed | MermaidViewer.ReadmeAsWritten | MermaidViewer.CorrectedReadme |
