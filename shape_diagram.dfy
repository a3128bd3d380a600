/** The Mermaid diagram of a repository shape (api/generate_mermaid.js,
    `generateMermaidDiagram`, `getLanguageIcon`, `getFrameworkIcon`): a
    list of lines pushed one section at a time and joined with newlines. */
module ShapeDiagram {
  import opened Wrappers
  import opened Strings

  /** An ordered object whose values are lists, as `Object.entries` gives it. */
  type Groups = seq<(string, seq<string>)>

  /** The fields of the shape the diagram reads. A missing `has_dockerfile`
      is false and a missing `file_count` is 0; the source treats both as
      falsy alike. */
  datatype DiagramInput = DiagramInput(
    url: string,
    languages: Option<seq<string>>,
    frameworks: Option<seq<string>>,
    topLevelDirectories: Option<seq<string>>,
    apiEndpoints: Option<Groups>,
    dependencies: Option<Groups>,
    hasDockerfile: bool,
    fileCount: nat)

  // ---------------------------------------------------------------------
  // Icons
  // ---------------------------------------------------------------------

  const LanguageIcons: seq<(string, string)> := [
    ("javascript", "\U{1F4DC}"), ("typescript", "\U{1F4D8}"), ("python", "\U{1F40D}"),
    ("java", "\U{2615}"), ("go", "\U{1F439}"), ("rust", "\U{1F980}"), ("ruby", "\U{1F48E}"),
    ("php", "\U{1F418}"), ("csharp", "#\U{FE0F}\U{20E3}"), ("cpp", "\U{2699}\U{FE0F}"), ("c", "\U{1F527}")
  ]

  const FrameworkIcons: seq<(string, string)> := [
    ("react", "\U{269B}\U{FE0F}"), ("vue", "\U{1F49A}"), ("angular", "\U{1F170}\U{FE0F}"),
    ("nextjs", "\U{25B2}"), ("nuxt", "\U{1F7E2}"), ("express", "\U{1F682}"), ("fastapi", "\U{26A1}"),
    ("django", "\U{1F99C}"), ("docker", "\U{1F433}"), ("docker-compose", "\U{1F433}"),
    ("github-actions", "\U{2699}\U{FE0F}"), ("gitlab-ci", "\U{1F98A}"), ("kubernetes", "\U{2638}\U{FE0F}"),
    ("nodejs", "\U{1F4E6}"), ("npm", "\U{1F4E6}"), ("yarn", "\U{1F9F6}"), ("pip", "\U{1F40D}"),
    ("maven", "\U{1F528}"), ("gradle", "\U{1F528}"), ("webpack", "\U{1F4E6}"), ("vite", "\U{26A1}")
  ]

  const LanguageFallback: string := "\U{1F4BB}"
  const FrameworkFallback: string := "\U{1F527}"

  /** `icons[key] || fallback`: the first entry for `key` when it is a
      non-empty string, the fallback otherwise. */
  function IconOr(table: seq<(string, string)>, key: string, fallback: string): (r: string)
    ensures (forall i :: 0 <= i < |table| ==> table[i].0 != key) ==> r == fallback
    ensures r == fallback || exists i :: 0 <= i < |table| && table[i] == (key, r)
    ensures forall i :: (0 <= i < |table| && table[i].0 == key && table[i].1 != "" &&
      (forall j :: 0 <= j < i ==> table[j].0 != key)) ==> r == table[i].1
  {
    if table == [] then fallback
    else if table[0].0 == key then (if table[0].1 != "" then table[0].1 else fallback)
    else
      var r := IconOr(table[1..], key, fallback);
      assert forall i :: 1 <= i < |table| ==> table[i] == table[1..][i - 1];
      r
  }

  /** `getLanguageIcon(lang)`. */
  function LanguageIcon(lang: string): string {
    IconOr(LanguageIcons, lang, LanguageFallback)
  }

  /** `getFrameworkIcon(fw)`. */
  function FrameworkIcon(fw: string): string {
    IconOr(FrameworkIcons, fw, FrameworkFallback)
  }

  /** Names outside the tables get the fallback icons. */
  lemma UnknownNamesGetFallback(name: string)
    requires forall i :: 0 <= i < |LanguageIcons| ==> LanguageIcons[i].0 != name
    requires forall i :: 0 <= i < |FrameworkIcons| ==> FrameworkIcons[i].0 != name
    ensures LanguageIcon(name) == "\U{1F4BB}" && FrameworkIcon(name) == "\U{1F527}"
  {
  }

  /** A listed language gets its own icon. */
  lemma PythonIcon()
    ensures LanguageIcon("python") == "\U{1F40D}"
  {
    assert LanguageIcons[2] == ("python", "\U{1F40D}");
    assert forall j :: 0 <= j < 2 ==> LanguageIcons[j].0 != "python";
  }

  // ---------------------------------------------------------------------
  // Header and the three list sections
  // ---------------------------------------------------------------------

  /** `url.split('/').pop()`: the text after the last "/". */
  function RepoLabel(url: string): string {
    AfterLast(url, '/')
  }

  function HeaderLines(url: string): seq<string> {
    ["graph TD", "", "  Repo[\"\U{1F4E6} " + RepoLabel(url) + "\"]", ""]
  }

  /** A URL with a trailing slash labels the repository node with nothing. */
  lemma TrailingSlashEmptyLabel(url: string)
    requires url != [] && url[|url| - 1] == '/'
    ensures HeaderLines(url)[2] == "  Repo[\"\U{1F4E6} \"]"
  {
  }

  /** The three sections drawn the same way: numbered nodes in a subgraph,
      then one edge from the repository to each node. */
  datatype ListKind = Languages | Frameworks | Structure

  function NodePrefix(kind: ListKind): string {
    match kind
    case Languages => "Lang"
    case Frameworks => "FW"
    case Structure => "Dir"
  }

  function ItemIcon(kind: ListKind, x: string): string {
    match kind
    case Languages => LanguageIcon(x)
    case Frameworks => FrameworkIcon(x)
    case Structure => "\U{1F4C1}"
  }

  function ListNode(kind: ListKind, i: nat, x: string): string {
    "    " + NodePrefix(kind) + NatToString(i) + "[\"" + ItemIcon(kind, x) + " " + x + "\"]"
  }

  function ListEdge(kind: ListKind, i: nat): string {
    "  Repo --> " + NodePrefix(kind) + NatToString(i)
  }

  function ListNodes(kind: ListKind, xs: seq<string>): (r: seq<string>)
    ensures |r| == |xs|
  {
    seq(|xs|, i requires 0 <= i < |xs| => ListNode(kind, i, xs[i]))
  }

  function ListEdges(kind: ListKind, n: nat): (r: seq<string>)
    ensures |r| == n
  {
    seq(n, i requires 0 <= i < n => ListEdge(kind, i))
  }

  /** The lines of one list section: the subgraph opening, the nodes as one
      pushed element, the closing, a blank, the edges and a blank. */
  function ListLines(kind: ListKind, xs: seq<string>): seq<string> {
    ["  subgraph " + SectionTitle(kind), Join(ListNodes(kind, xs), "\n"), "  end", ""] + ListEdges(kind, |xs|) + [""]
  }

  function SectionTitle(kind: ListKind): string {
    match kind
    case Languages => "Languages"
    case Frameworks => "Frameworks"
    case Structure => "Structure"
  }

  /** The items a section shows: all languages or frameworks, the first
      8 directories; nothing when the field is missing or empty. */
  function Shown(kind: ListKind, field: Option<seq<string>>): (r: seq<string>)
    ensures kind == Structure ==> |r| <= 8
    ensures field.None? ==> r == []
    ensures field.Some? ==> r == Take(field.value, if kind == Structure then 8 else |field.value|)
  {
    match field
    case None => []
    case Some(xs) => if kind == Structure then Take(xs, 8) else xs
  }

  function SectionLines(kind: ListKind, field: Option<seq<string>>): seq<string> {
    if Shown(kind, field) == [] then [] else ListLines(kind, Shown(kind, field))
  }

  /** The loops of one list section: the `map` building the nodes and the
      `forEach` pushing the edges. */
  method ListSection(kind: ListKind, xs: seq<string>) returns (section: seq<string>)
    requires xs != []
    ensures section == ListLines(kind, xs)
  {
    var nodes := BuildListNodes(kind, xs);
    var head := ["  subgraph " + SectionTitle(kind), Join(nodes, "\n"), "  end", ""];
    var edges := BuildListEdges(kind, |xs|);
    section := head + edges + [""];
  }

  /** `items.map((x, i) => ...)`: one node line per item. */
  method BuildListNodes(kind: ListKind, xs: seq<string>) returns (nodes: seq<string>)
    ensures nodes == ListNodes(kind, xs)
  {
    nodes := [];
    for i := 0 to |xs|
      invariant nodes == ListNodes(kind, xs)[..i]
    {
      PrefixStep(ListNodes(kind, xs), i);
      nodes := nodes + [ListNode(kind, i, xs[i])];
    }
  }

  /** `items.forEach((_, i) => lines.push(...))`: one edge per item. */
  method BuildListEdges(kind: ListKind, n: nat) returns (edges: seq<string>)
    ensures edges == ListEdges(kind, n)
  {
    edges := [];
    for i := 0 to n
      invariant edges == ListEdges(kind, n)[..i]
    {
      PrefixStep(ListEdges(kind, n), i);
      edges := edges + [ListEdge(kind, i)];
    }
  }

  /** Node `i` of a section names item `i` and edge `i` points at it. */
  lemma ListSectionNumbering(kind: ListKind, xs: seq<string>, i: nat)
    requires i < |xs|
    ensures ListLines(kind, xs)[4 + i] == "  Repo --> " + NodePrefix(kind) + NatToString(i)
    ensures ListNodes(kind, xs)[i] == "    " + NodePrefix(kind) + NatToString(i) + "[\"" + ItemIcon(kind, xs[i]) + " " + xs[i] + "\"]"
  {
  }

  // ---------------------------------------------------------------------
  // Endpoints
  // ---------------------------------------------------------------------

  /** A node of the APIs subgraph, with the value `apiCounter` had when it
      was pushed. */
  datatype ApiNode = ApiShown(id: nat, caption: string) | ApiMore(id: nat, hidden: nat)

  /** `s.replace(/"/g, '')`. */
  function Unquoted(s: string): (r: string)
    ensures |r| <= |s|
    ensures forall c :: c in r <==> c in s && c != '"'
  {
    if s == [] then []
    else
      var init := s[..|s| - 1];
      assert s == init + [s[|s| - 1]];
      Unquoted(init) + (if s[|s| - 1] == '"' then [] else [s[|s| - 1]])
  }

  /** The label of a shown endpoint: quotes removed, then cut to 30. */
  function EndpointLabel(e: string): (r: string)
    ensures |r| <= 30 && '"' !in r
    ensures StartsWith(Unquoted(e), r) && (|r| < 30 ==> r == Unquoted(e))
  {
    var u := Unquoted(e);
    var r := Take(u, 30);
    assert r == u[..|r|];
    assert forall c :: c in r ==> c in u;
    r
  }

  /** The nodes of the endpoints shown, numbered from `c`. */
  function ShownApiNodes(display: seq<string>, c: nat): (r: seq<ApiNode>)
    ensures |r| == |display|
  {
    seq(|display|, j requires 0 <= j < |display| => ApiShown(c + j, EndpointLabel(display[j])))
  }

  /** The nodes one endpoint type adds, numbered from `c`: the first three
      endpoints, then a "more" node when some are hidden. */
  function EndpointNodes(eps: seq<string>, c: nat): seq<ApiNode> {
    ShownApiNodes(Take(eps, 3), c) + (if |eps| > 3 then [ApiMore(c + 3, |eps| - 3)] else [])
  }

  /** All endpoint nodes, the counter carried from one type to the next. */
  function ApiNodes(groups: Groups): seq<ApiNode> {
    if groups == [] then []
    else
      var prev := ApiNodes(groups[..|groups| - 1]);
      prev + EndpointNodes(groups[|groups| - 1].1, |prev|)
  }

  function ApiNodeLines(n: ApiNode): seq<string> {
    match n
    case ApiShown(id, caption) =>
      ["    API" + NatToString(id) + "[\"\U{1F50C} " + caption + "\"]", "    Repo --> API" + NatToString(id)]
    case ApiMore(id, hidden) =>
      ["    APIMore" + NatToString(id) + "[\"... +" + NatToString(hidden) + " more\"]", "    Repo --> APIMore" + NatToString(id)]
  }

  function RenderApi(ns: seq<ApiNode>): seq<string> {
    Concat(seq(|ns|, i requires 0 <= i < |ns| => ApiNodeLines(ns[i])))
  }

  lemma RenderApiSnoc(ns: seq<ApiNode>, n: ApiNode)
    ensures RenderApi(ns + [n]) == RenderApi(ns) + ApiNodeLines(n)
  {
    var groups := seq(|ns + [n]|, i requires 0 <= i < |ns + [n]| => ApiNodeLines((ns + [n])[i]));
    assert groups[..|ns|] == seq(|ns|, i requires 0 <= i < |ns| => ApiNodeLines(ns[i]));
  }

  function ApiLines(field: Option<Groups>): seq<string> {
    if field.None? || field.value == [] then []
    else ["  subgraph APIs"] + RenderApi(ApiNodes(field.value)) + ["  end", ""]
  }

  /** Every node of one type gets the next counter value. */
  lemma {:induction false} ApiNodeIds(groups: Groups)
    ensures forall i :: 0 <= i < |ApiNodes(groups)| ==> ApiNodes(groups)[i].id == i
    decreases |groups|
  {
    if groups != [] {
      var prev := ApiNodes(groups[..|groups| - 1]);
      ApiNodeIds(groups[..|groups| - 1]);
      var eps := groups[|groups| - 1].1;
      var cur := EndpointNodes(eps, |prev|);
      assert forall j :: 0 <= j < |cur| ==> cur[j].id == |prev| + j;
    }
  }

  /** So no two endpoint nodes share an id. */
  lemma ApiIdsUnique(groups: Groups, i: nat, j: nat)
    requires i < j < |ApiNodes(groups)|
    ensures NatToString(ApiNodes(groups)[i].id) != NatToString(ApiNodes(groups)[j].id)
  {
    ApiNodeIds(groups);
    if NatToString(ApiNodes(groups)[i].id) == NatToString(ApiNodes(groups)[j].id) {
      NatToStringInjective(ApiNodes(groups)[i].id, ApiNodes(groups)[j].id);
    }
  }

  /** Each type shows at most three endpoints, and a "more" node counting
      the rest exactly when it has more than three. */
  lemma EndpointTypeNodes(eps: seq<string>, c: nat)
    ensures |EndpointNodes(eps, c)| == (if |eps| > 3 then 4 else |eps|)
    ensures forall j :: 0 <= j < Min(3, |eps|) ==> EndpointNodes(eps, c)[j] == ApiShown(c + j, EndpointLabel(eps[j]))
    ensures |eps| > 3 ==> EndpointNodes(eps, c)[3] == ApiMore(c + 3, |eps| - 3)
  {
    var display := Take(eps, 3);
    assert forall j :: 0 <= j < |display| ==> display[j] == eps[j];
  }

  lemma RenderApiAppend(a: seq<ApiNode>, b: seq<ApiNode>)
    ensures RenderApi(a + b) == RenderApi(a) + RenderApi(b)
  {
    var ga := seq(|a|, i requires 0 <= i < |a| => ApiNodeLines(a[i]));
    var gb := seq(|b|, i requires 0 <= i < |b| => ApiNodeLines(b[i]));
    assert seq(|a + b|, i requires 0 <= i < |a + b| => ApiNodeLines((a + b)[i])) == ga + gb;
    ConcatAppend(ga, gb);
  }

  /** The two `lines.push` calls for one node. */
  method PushApiNode(added: seq<string>, ghost cur: seq<ApiNode>, node: ApiNode) returns (pushed: seq<string>)
    requires added == RenderApi(cur)
    ensures pushed == RenderApi(cur + [node])
  {
    RenderApiSnoc(cur, node);
    pushed := added + ApiNodeLines(node);
  }

  /** The `forEach` over the endpoints shown. */
  method ShownEndpointLines(display: seq<string>, apiCounter: nat) returns (added: seq<string>, next: nat)
    ensures added == RenderApi(ShownApiNodes(display, apiCounter))
    ensures next == apiCounter + |display|
  {
    added := [];
    next := apiCounter;
    ghost var cur: seq<ApiNode> := [];
    for i := 0 to |display|
      invariant |cur| == i && next == apiCounter + i
      invariant forall j :: 0 <= j < i ==> cur[j] == ApiShown(apiCounter + j, EndpointLabel(display[j]))
      invariant added == RenderApi(cur)
    {
      var node := ApiShown(next, EndpointLabel(display[i]));
      added := PushApiNode(added, cur, node);
      cur := cur + [node];
      next := next + 1;
    }
    assert cur == ShownApiNodes(display, apiCounter);
  }

  /** The body of the loop over endpoint types, for one non-empty type:
      the lines it pushes and the counter it leaves. */
  method EndpointTypeLines(eps: seq<string>, apiCounter: nat) returns (added: seq<string>, next: nat)
    ensures added == RenderApi(EndpointNodes(eps, apiCounter))
    ensures next == apiCounter + |EndpointNodes(eps, apiCounter)|
  {
    var display := Take(eps, 3);
    added, next := ShownEndpointLines(display, apiCounter);
    if |eps| > 3 {
      added := PushApiNode(added, ShownApiNodes(display, apiCounter), ApiMore(next, |eps| - 3));
      next := next + 1;
    } else {
      assert ShownApiNodes(display, apiCounter) + [] == ShownApiNodes(display, apiCounter);
    }
  }

  /** The loop over endpoint types, skipping empty ones. */
  method ApiSection(groups: Groups) returns (section: seq<string>)
    ensures section == RenderApi(ApiNodes(groups))
  {
    section := [];
    var apiCounter := 0;
    for k := 0 to |groups|
      invariant section == RenderApi(ApiNodes(groups[..k]))
      invariant apiCounter == |ApiNodes(groups[..k])|
    {
      ghost var prev := ApiNodes(groups[..k]);
      var eps := groups[k].1;
      assert groups[..k + 1][..k] == groups[..k];
      assert ApiNodes(groups[..k + 1]) == prev + EndpointNodes(eps, |prev|);
      if |eps| != 0 {
        var added, next := EndpointTypeLines(eps, apiCounter);
        RenderApiAppend(prev, EndpointNodes(eps, |prev|));
        section := section + added;
        apiCounter := next;
      } else {
        assert EndpointNodes(eps, |prev|) == [];
        assert prev + [] == prev;
      }
    }
    assert groups[..|groups|] == groups;
  }

  // ---------------------------------------------------------------------
  // Dependencies
  // ---------------------------------------------------------------------

  /** A node of the Dependencies subgraph, with the value `depCounter` had
      when it was pushed. */
  datatype DepNode = DepShown(id: nat, name: string) | DepMore(id: nat, hidden: nat, manager: string)

  function ShownDepNodes(deps: seq<string>, c: nat): (r: seq<DepNode>)
    ensures |r| == Min(3, |deps|)
  {
    seq(Min(3, |deps|), j requires 0 <= j < Min(3, |deps|) => DepShown(c + j, deps[j]))
  }

  function ManagerNodes(manager: string, deps: seq<string>, c: nat): seq<DepNode> {
    ShownDepNodes(deps, c) + (if |deps| > 3 then [DepMore(c + 3, |deps| - 3, manager)] else [])
  }

  function DepNodes(groups: Groups): seq<DepNode> {
    if groups == [] then []
    else
      var prev := DepNodes(groups[..|groups| - 1]);
      prev + ManagerNodes(groups[|groups| - 1].0, groups[|groups| - 1].1, |prev|)
  }

  function DepNodeLine(n: DepNode): string {
    match n
    case DepShown(id, name) => "    Dep" + NatToString(id) + "[\"\U{1F4E6} " + name + "\"]"
    case DepMore(id, hidden, manager) => "    DepMore" + NatToString(id) + "[\"... +" + NatToString(hidden) + " " + manager + "\"]"
  }

  function RenderDeps(ns: seq<DepNode>): (r: seq<string>)
    ensures |r| == |ns|
  {
    seq(|ns|, i requires 0 <= i < |ns| => DepNodeLine(ns[i]))
  }

  function DependencyLines(field: Option<Groups>): seq<string> {
    if field.None? || field.value == [] then []
    else
      var nodes := DepNodes(field.value);
      ["  subgraph Dependencies"] + RenderDeps(nodes) + ["  end", ""] +
      (if |nodes| > 0 then ["  Repo -.Dependencies.- Dep0"] else []) + [""]
  }

  /** The dotted edge always reaches a real dependency node: when any node
      was pushed, the first one is the shown dependency numbered 0. */
  lemma {:induction false} FirstDepNodeIsShown(groups: Groups)
    requires |DepNodes(groups)| > 0
    ensures DepNodes(groups)[0].DepShown? && DepNodes(groups)[0].id == 0
    decreases |groups|
  {
    var init := groups[..|groups| - 1];
    var prev := DepNodes(init);
    if |prev| > 0 {
      FirstDepNodeIsShown(init);
    } else {
      var deps := groups[|groups| - 1].1;
      assert |deps| > 0;
      assert ManagerNodes(groups[|groups| - 1].0, deps, 0)[0] == DepShown(0, deps[0]);
    }
  }

  lemma RenderDepsAppend(a: seq<DepNode>, b: seq<DepNode>)
    ensures RenderDeps(a + b) == RenderDeps(a) + RenderDeps(b)
  {
    assert forall i :: 0 <= i < |b| ==> (a + b)[|a| + i] == b[i];
  }

  /** The body of the loop over managers, for one non-empty manager: the
      lines it pushes and the counter it leaves. */
  method ManagerLines(manager: string, deps: seq<string>, depCounter: nat) returns (added: seq<string>, next: nat)
    ensures added == RenderDeps(ManagerNodes(manager, deps, depCounter))
    ensures next == depCounter + |ManagerNodes(manager, deps, depCounter)|
  {
    var display := Take(deps, 3);
    ghost var shown := ShownDepNodes(deps, depCounter);
    added := [];
    next := depCounter;
    for i := 0 to |display|
      invariant next == depCounter + i
      invariant added == RenderDeps(shown)[..i]
    {
      PrefixStep(RenderDeps(shown), i);
      assert display[i] == deps[i];
      added := added + [DepNodeLine(DepShown(next, display[i]))];
      next := next + 1;
    }
    assert added == RenderDeps(shown);
    if |deps| > 3 {
      var more := DepMore(next, |deps| - 3, manager);
      added := added + [DepNodeLine(more)];
      next := next + 1;
      RenderDepsAppend(shown, [more]);
    } else {
      assert ManagerNodes(manager, deps, depCounter) == shown;
    }
  }

  /** The loop over managers, skipping empty ones. */
  method DependencySection(groups: Groups) returns (nodeLines: seq<string>, depCounter: nat)
    ensures nodeLines == RenderDeps(DepNodes(groups)) && depCounter == |DepNodes(groups)|
  {
    nodeLines := [];
    depCounter := 0;
    for k := 0 to |groups|
      invariant nodeLines == RenderDeps(DepNodes(groups[..k]))
      invariant depCounter == |DepNodes(groups[..k])|
    {
      ghost var prev := DepNodes(groups[..k]);
      var (manager, deps) := groups[k];
      assert groups[..k + 1][..k] == groups[..k];
      assert DepNodes(groups[..k + 1]) == prev + ManagerNodes(manager, deps, |prev|);
      if |deps| != 0 {
        var added, next := ManagerLines(manager, deps, depCounter);
        RenderDepsAppend(prev, ManagerNodes(manager, deps, |prev|));
        nodeLines := nodeLines + added;
        depCounter := next;
      } else {
        assert ManagerNodes(manager, deps, |prev|) == [];
        assert prev + [] == prev;
      }
    }
    assert groups[..|groups|] == groups;
  }

  // ---------------------------------------------------------------------
  // The whole diagram
  // ---------------------------------------------------------------------

  function DockerLines(hasDockerfile: bool): seq<string> {
    if hasDockerfile then ["  Docker[\"\U{1F433} Docker\"]", "  Repo --> Docker", ""] else []
  }

  function StatsLines(fileCount: nat): seq<string> {
    if fileCount != 0 then ["  Stats[\"\U{1F4CA} " + NatToString(fileCount) + " files\"]", "  Repo -.-> Stats"] else []
  }

  const FooterLines: seq<string> := [
    "",
    "  classDef repo fill:#4f46e5,color:#fff,stroke:#312e81,stroke-width:2px",
    "  classDef category fill:#10b981,color:#fff,stroke:#065f46,stroke-width:1px",
    "  class Repo repo"
  ]

  /** The elements of `lines` when the function returns. */
  function DiagramLines(d: DiagramInput): seq<string> {
    HeaderLines(d.url)
    + SectionLines(Languages, d.languages)
    + SectionLines(Frameworks, d.frameworks)
    + SectionLines(Structure, d.topLevelDirectories)
    + ApiLines(d.apiEndpoints)
    + DependencyLines(d.dependencies)
    + DockerLines(d.hasDockerfile)
    + StatsLines(d.fileCount)
    + FooterLines
  }

  /** A list section when its field holds items, nothing otherwise. */
  method OptionalListSection(kind: ListKind, field: Option<seq<string>>) returns (section: seq<string>)
    ensures section == SectionLines(kind, field)
  {
    section := [];
    if field.Some? && |field.value| > 0 {
      section := ListSection(kind, if kind == Structure then Take(field.value, 8) else field.value);
    }
  }

  /** The APIs subgraph when the endpoint object has keys. */
  method OptionalApiSection(field: Option<Groups>) returns (section: seq<string>)
    ensures section == ApiLines(field)
  {
    section := [];
    if field.Some? && |field.value| > 0 {
      var s := ApiSection(field.value);
      section := ["  subgraph APIs"] + s + ["  end", ""];
    }
  }

  /** The Dependencies subgraph when the dependency object has keys; the
      dotted edge only when a node was pushed. */
  method OptionalDependencySection(field: Option<Groups>) returns (section: seq<string>)
    ensures section == DependencyLines(field)
  {
    section := [];
    if field.Some? && |field.value| > 0 {
      var s, depCounter := DependencySection(field.value);
      section := ["  subgraph Dependencies"] + s + ["  end", ""];
      if depCounter > 0 {
        section := section + ["  Repo -.Dependencies.- Dep0"];
      }
      section := section + [""];
    }
  }

  /** `generateMermaidDiagram(repoShape)`. */
  method GenerateMermaidDiagram(d: DiagramInput) returns (text: string)
    ensures text == Join(DiagramLines(d), "\n")
  {
    var lines := HeaderLines(d.url);
    var languages := OptionalListSection(Languages, d.languages);
    var frameworks := OptionalListSection(Frameworks, d.frameworks);
    var structure := OptionalListSection(Structure, d.topLevelDirectories);
    var apis := OptionalApiSection(d.apiEndpoints);
    var dependencies := OptionalDependencySection(d.dependencies);
    var docker: seq<string> := [];
    if d.hasDockerfile {
      docker := ["  Docker[\"\U{1F433} Docker\"]", "  Repo --> Docker", ""];
    }
    assert docker == DockerLines(d.hasDockerfile);
    var stats: seq<string> := [];
    if d.fileCount != 0 {
      stats := ["  Stats[\"\U{1F4CA} " + NatToString(d.fileCount) + " files\"]", "  Repo -.-> Stats"];
    }
    assert stats == StatsLines(d.fileCount);
    lines := lines + languages + frameworks + structure + apis + dependencies + docker + stats + FooterLines;
    text := Join(lines, "\n");
  }

  /** The diagram opens with "graph TD" and closes with the class line. */
  lemma DiagramFrame(d: DiagramInput)
    ensures DiagramLines(d)[0] == "graph TD"
    ensures DiagramLines(d)[|DiagramLines(d)| - 1] == "  class Repo repo"
    ensures StartsWith(Join(DiagramLines(d), "\n"), "graph TD")
  {
    JoinStartsWith(DiagramLines(d), "\n");
  }
}
