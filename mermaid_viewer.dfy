/** Node information read back from a rendered diagram's text
    (web/components/MermaidViewer.tsx, `extractNodeInfo`,
    `generateDescription`, `extractDirectories`). A JavaScript `Map` keeps
    its keys in first-insertion order and `set` on a present key replaces
    the value in place; here it is a sequence of nodes with distinct ids. */
module MermaidViewer {
  import opened Wrappers
  import opened Strings

  datatype NodeKind = Folder | File

  /** A node of the map. Its description is always the one
      `generateDescription` gives its caption and kind
      (`DescribeAsWritten`), so it is derived rather than stored. */
  datatype NodeInfo = NodeInfo(id: string, caption: string, kind: NodeKind)

  // ---------------------------------------------------------------------
  // The two node patterns: `(\w+)\["([^"]+)"\]` and `(\w+)\("([^"]+)"\)`.

  /** End of the run of word characters starting at `p`. */
  function WordEnd(s: string, p: nat): (q: nat)
    requires p <= |s|
    ensures p <= q <= |s| && (q == |s| || !IsWordChar(s[q]))
    ensures forall k :: p <= k < q ==> IsWordChar(s[k])
    decreases |s| - p
  {
    if p < |s| && IsWordChar(s[p]) then WordEnd(s, p + 1) else p
  }

  /** End of the run of characters other than `"` starting at `p`. */
  function QuoteEnd(s: string, p: nat): (q: nat)
    requires p <= |s|
    ensures p <= q <= |s| && (q == |s| || s[q] == '"')
    ensures forall k :: p <= k < q ==> s[k] != '"'
    decreases |s| - p
  {
    if p < |s| && s[p] != '"' then QuoteEnd(s, p + 1) else p
  }

  /** The pattern `(\w+)<open>"([^"]+)"<close>` tried at `p`: the id and the
      caption. Both runs are greedy and the character after each cannot
      belong to it, so no shorter run could match instead. */
  function BracketAt(s: string, p: nat, open: char, close: char): (r: Option<(string, string)>)
    ensures r.Some? ==> p < |s| && IsWordChar(s[p])
  {
    if p < |s| && IsWordChar(s[p]) then
      var q := WordEnd(s, p);
      if q + 1 < |s| && s[q] == open && s[q + 1] == '"' then
        var e := QuoteEnd(s, q + 2);
        if q + 2 < e && e + 1 < |s| && s[e + 1] == close then Some((s[p..q], s[q + 2..e])) else None
      else None
    else None
  }

  /** What a match at `p` consists of: a non-empty word id, the opening
      bracket and quote, a non-empty caption without quotes, the closing
      quote and bracket. */
  lemma BracketAtShape(s: string, p: nat, open: char, close: char)
    requires BracketAt(s, p, open, close).Some?
    ensures var (id, caption) := BracketAt(s, p, open, close).value;
      var q := p + |id|;
      var e := q + 2 + |caption|;
      && id != [] && (forall k :: 0 <= k < |id| ==> IsWordChar(id[k]))
      && caption != [] && '"' !in caption
      && e + 1 < |s| && s[p..q] == id && s[q] == open && s[q + 1] == '"'
      && s[q + 2..e] == caption && s[e] == '"' && s[e + 1] == close
  {
  }

  /** Where the leftmost match at or after `from` starts. */
  function FirstBracket(s: string, open: char, close: char, from: nat): (r: Option<nat>)
    ensures r.Some? ==> from <= r.value && BracketAt(s, r.value, open, close).Some?
    ensures r.Some? ==> forall p :: from <= p < r.value ==> BracketAt(s, p, open, close).None?
    ensures r.None? ==> forall p :: from <= p ==> BracketAt(s, p, open, close).None?
    decreases |s| - from
  {
    if from >= |s| then None
    else if BracketAt(s, from, open, close).Some? then Some(from)
    else FirstBracket(s, open, close, from + 1)
  }

  /** `line.match(pattern)`: the id and caption of the leftmost match. */
  function MatchBracket(s: string, open: char, close: char): Option<(string, string)> {
    match FirstBracket(s, open, close, 0)
    case None => None
    case Some(p) => BracketAt(s, p, open, close)
  }

  /** A line that begins with a node written out in full matches that
      node, whatever follows it. */
  lemma MatchLeadingNode(s: string, id: string, open: char, close: char, caption: string)
    requires id != [] && forall k :: 0 <= k < |id| ==> IsWordChar(id[k])
    requires caption != [] && '"' !in caption
    requires !IsWordChar(open) && !IsWordChar('"')
    requires var q := |id|; var e := q + 2 + |caption|;
      && e + 1 < |s| && s[..q] == id && s[q] == open && s[q + 1] == '"'
      && s[q + 2..e] == caption && s[e] == '"' && s[e + 1] == close
    ensures MatchBracket(s, open, close) == Some((id, caption))
  {
    var q := |id|;
    var e := q + 2 + |caption|;
    assert forall k :: 0 <= k < q ==> s[k] == id[k];
    assert WordEnd(s, 0) == q by {
      WordEndIs(s, 0, q);
    }
    assert forall k :: q + 2 <= k < e ==> s[k] == caption[k - q - 2];
    assert QuoteEnd(s, q + 2) == e by {
      QuoteEndIs(s, q + 2, e);
    }
    assert BracketAt(s, 0, open, close) == Some((id, caption));
  }

  lemma {:induction false} WordEndIs(s: string, p: nat, q: nat)
    requires p <= q < |s| && !IsWordChar(s[q])
    requires forall k :: p <= k < q ==> IsWordChar(s[k])
    ensures WordEnd(s, p) == q
    decreases q - p
  {
    if p < q {
      WordEndIs(s, p + 1, q);
    }
  }

  lemma {:induction false} QuoteEndIs(s: string, p: nat, q: nat)
    requires p <= q < |s| && s[q] == '"'
    requires forall k :: p <= k < q ==> s[k] != '"'
    ensures QuoteEnd(s, p) == q
    decreases q - p
  {
    if p < q {
      QuoteEndIs(s, p + 1, q);
    }
  }

  /** A line without a double quote matches neither pattern. */
  lemma NoQuoteNoMatch(s: string, open: char, close: char)
    requires '"' !in s
    ensures MatchBracket(s, open, close).None?
  {
    match FirstBracket(s, open, close, 0)
    case None =>
    case Some(p) =>
      BracketAtShape(s, p, open, close);
  }

  // ---------------------------------------------------------------------
  // Descriptions (`generateDescription`).

  /** The folder table, by lower-cased name. */
  function FolderDescription(key: string): Option<string> {
    match key
    case "api" => Some("Backend API implementation containing routes, controllers, and business logic")
    case "web" => Some("Frontend web application with UI components and pages")
    case "src" => Some("Main source code directory containing core application logic")
    case "lib" => Some("Reusable library code and utility functions")
    case "components" => Some("Reusable UI components for building the interface")
    case "pages" => Some("Application pages and routing definitions")
    case "routes" => Some("API route handlers and endpoint definitions")
    case "models" => Some("Data models and database schema definitions")
    case "controllers" => Some("Business logic controllers that handle requests")
    case "services" => Some("Service layer for business operations and integrations")
    case "utils" => Some("Utility functions and helper methods")
    case "config" => Some("Configuration files and environment settings")
    case "tests" => Some("Test suites and testing utilities")
    case "__tests__" => Some("Jest test files for unit and integration testing")
    case "docs" => Some("Documentation files and guides")
    case "public" => Some("Static assets accessible to the public")
    case "assets" => Some("Images, fonts, and other static resources")
    case "styles" => Some("CSS/styling files and theme definitions")
    case "hooks" => Some("Custom React hooks for shared logic")
    case "context" => Some("React context providers for state management")
    case "middleware" => Some("Express/API middleware functions")
    case "types" => Some("TypeScript type definitions and interfaces")
    case "interfaces" => Some("Interface definitions for data structures")
    case "schemas" => Some("Validation schemas and data structure definitions")
    case "db" => Some("Database connection and migration files")
    case "migrations" => Some("Database migration scripts")
    case "seeders" => Some("Database seeding scripts for test data")
    case _ => None
  }

  const DockerfileDescription := "Docker container build instructions"
  const ReadmeDescription := "Project documentation and setup instructions"

  /** The file table as the component writes it: two of its keys hold
      capitals, yet it is only ever indexed by a lower-cased name. */
  function FileDescriptionAsWritten(key: string): Option<string> {
    match key
    case "index" => Some("Main entry point file that initializes the application")
    case "app" => Some("Application initialization and configuration file")
    case "main" => Some("Main application file that starts the program")
    case "server" => Some("Server setup and configuration file")
    case "package.json" => Some("Node.js project metadata and dependency definitions")
    case "tsconfig.json" => Some("TypeScript compiler configuration")
    case "requirements.txt" => Some("Python package dependencies")
    case "Dockerfile" => Some(DockerfileDescription)
    case "docker-compose.yml" => Some("Multi-container Docker application definition")
    case ".env" => Some("Environment variables and configuration")
    case "README.md" => Some(ReadmeDescription)
    case ".gitignore" => Some("Git ignore patterns for excluded files")
    case _ => None
  }

  /** The same table with every key lower-cased, so that every entry can be
      found. */
  function FileDescription(key: string): Option<string> {
    match key
    case "index" => Some("Main entry point file that initializes the application")
    case "app" => Some("Application initialization and configuration file")
    case "main" => Some("Main application file that starts the program")
    case "server" => Some("Server setup and configuration file")
    case "package.json" => Some("Node.js project metadata and dependency definitions")
    case "tsconfig.json" => Some("TypeScript compiler configuration")
    case "requirements.txt" => Some("Python package dependencies")
    case "dockerfile" => Some(DockerfileDescription)
    case "docker-compose.yml" => Some("Multi-container Docker application definition")
    case ".env" => Some("Environment variables and configuration")
    case "readme.md" => Some(ReadmeDescription)
    case ".gitignore" => Some("Git ignore patterns for excluded files")
    case _ => None
  }

  /** The extension table. */
  function ExtensionDescription(key: string): Option<string> {
    match key
    case "py" => Some("Python source code file")
    case "js" => Some("JavaScript source code file")
    case "ts" => Some("TypeScript source code file")
    case "tsx" => Some("TypeScript React component file")
    case "jsx" => Some("JavaScript React component file")
    case "json" => Some("JSON configuration or data file")
    case "md" => Some("Markdown documentation file")
    case "yml" => Some("YAML configuration file")
    case "yaml" => Some("YAML configuration file")
    case "css" => Some("Stylesheet file")
    case "scss" => Some("SASS stylesheet file")
    case _ => None
  }

  /** `name.split('.').pop()?.toLowerCase()`: the text after the last dot,
      or the whole name when it has none. */
  function Extension(name: string): string {
    Lower(AfterLast(name, '.'))
  }

  /** `folderDescriptions[name.toLowerCase()] || ...`. */
  function FolderText(name: string): string {
    FirstTruthy([FolderDescription(Lower(name))], "Directory containing " + name + "-related code and resources")
  }

  /** A file missing from the file table: described by its extension, or
      plainly "File" when the extension is empty. */
  function ExtensionText(name: string): string {
    var ext := Extension(name);
    if ext != [] then FirstTruthy([ExtensionDescription(ext)], Upper(ext) + " file") else "File"
  }

  /** `generateDescription(label, type)` as the component computes it. */
  function DescribeAsWritten(caption: string, kind: NodeKind): string {
    var name := DropTrailing(caption, '/');
    match kind
    case Folder => FolderText(name)
    case File => FirstTruthy([FileDescriptionAsWritten(Lower(name))], ExtensionText(name))
  }

  /** The same with the corrected, lower-cased file table (see Findings
      in README). */
  function Describe(caption: string, kind: NodeKind): string {
    var name := DropTrailing(caption, '/');
    match kind
    case Folder => FolderText(name)
    case File => FirstTruthy([FileDescription(Lower(name))], ExtensionText(name))
  }

  /** A lower-cased name never holds a capital, so it is never "Dockerfile"
      nor "README.md": those two entries of the table as written are dead. */
  lemma CapitalKeysUnreachable(name: string)
    ensures Lower(name) != "Dockerfile" && Lower(name) != "README.md"
  {
    if |name| > 0 {
      assert Lower(name)[0] == LowerChar(name[0]);
    }
  }

  /** As written, a file whose lower-cased name has no truthy entry is
      described by its extension. */
  lemma FileEntryMissingAsWritten(caption: string)
    requires !Truthy(FileDescriptionAsWritten(Lower(DropTrailing(caption, '/'))))
    ensures DescribeAsWritten(caption, File) == ExtensionText(DropTrailing(caption, '/'))
  {
    var name := DropTrailing(caption, '/');
    FirstTruthyIs([FileDescriptionAsWritten(Lower(name))], ExtensionText(name));
  }

  /** An extension without a truthy entry is named in capitals. */
  lemma UnknownExtension(name: string)
    requires Extension(name) != [] && !Truthy(ExtensionDescription(Extension(name)))
    ensures ExtensionText(name) == Upper(Extension(name)) + " file"
  {
    var ext := Extension(name);
    FirstTruthyIs([ExtensionDescription(ext)], Upper(ext) + " file");
  }

  /** The name "Dockerfile" holds no dot. */
  lemma DockerfileHasNoDot()
    ensures '.' !in "Dockerfile"
  {
  }

  /** "Dockerfile" has no dot, so its extension is the whole name, which
      the extension table does not hold. */
  lemma DockerfileExtension()
    ensures ExtensionText("Dockerfile") == "DOCKERFILE file"
  {
    var name := "Dockerfile";
    DockerfileHasNoDot();
    AfterLastNone(name, '.');
    assert Extension(name) == "dockerfile";
    assert ExtensionDescription("dockerfile").None?;
    UnknownExtension(name);
    assert Upper("dockerfile") == "DOCKERFILE";
  }

  /** As written, a Dockerfile is described by its "extension", which is
      the whole name, upper-cased. */
  lemma DockerfileAsWritten()
    ensures DescribeAsWritten("Dockerfile", File) == "DOCKERFILE file"
  {
    var name := "Dockerfile";
    assert DropTrailing(name, '/') == name;
    assert Lower(name) == "dockerfile";
    assert FileDescriptionAsWritten("dockerfile").None?;
    FileEntryMissingAsWritten(name);
    DockerfileExtension();
  }

  /** "README.md" has the Markdown extension. */
  lemma ReadmeExtension()
    ensures ExtensionText("README.md") == "Markdown documentation file"
  {
    var name := "README.md";
    AfterLastOfSegment("README", '.', "md");
    assert "README" + ['.'] + "md" == name;
    assert Extension(name) == "md";
    var v := "Markdown documentation file";
    assert ExtensionDescription("md") == Some(v);
    assert v[0] == 'M';
    FirstTruthyIs([Some(v)], Upper("md") + " file");
    assert FirstTruthyAt([Some(v)], 0);
  }

  /** As written, a README is described by the Markdown line. */
  lemma ReadmeAsWritten()
    ensures DescribeAsWritten("README.md", File) == "Markdown documentation file"
  {
    var name := "README.md";
    assert DropTrailing(name, '/') == name;
    assert Lower(name) == "readme.md";
    assert FileDescriptionAsWritten("readme.md").None?;
    FileEntryMissingAsWritten(name);
    ReadmeExtension();
  }

  lemma AfterLastNone(s: string, c: char)
    requires c !in s
    ensures AfterLast(s, c) == s
  {
  }

  /** A file whose lower-cased name has a truthy table entry is described
      by that entry. */
  lemma FileEntryFound(caption: string, v: string)
    requires FileDescription(Lower(DropTrailing(caption, '/'))) == Some(v) && v != []
    ensures Describe(caption, File) == v
  {
    var name := DropTrailing(caption, '/');
    FirstTruthyIs([Some(v)], ExtensionText(name));
    assert FirstTruthyAt([Some(v)], 0);
  }

  /** The same for the table as written. */
  lemma FileEntryFoundAsWritten(caption: string, v: string)
    requires FileDescriptionAsWritten(Lower(DropTrailing(caption, '/'))) == Some(v) && v != []
    ensures DescribeAsWritten(caption, File) == v
  {
    var name := DropTrailing(caption, '/');
    FirstTruthyIs([Some(v)], ExtensionText(name));
    assert FirstTruthyAt([Some(v)], 0);
  }

  /** The two file tables differ only at the two keys with capitals, so the
      program and the corrected description agree on every caption other
      than a Dockerfile or a README in some spelling. */
  lemma DescribeAgrees(caption: string, kind: NodeKind)
    requires var key := Lower(DropTrailing(caption, '/')); key != "dockerfile" && key != "readme.md"
    ensures DescribeAsWritten(caption, kind) == Describe(caption, kind)
  {
    var name := DropTrailing(caption, '/');
    CapitalKeysUnreachable(name);
    FileTablesAgree(Lower(name));
  }

  lemma FileTablesAgree(key: string)
    requires key != "Dockerfile" && key != "README.md" && key != "dockerfile" && key != "readme.md"
    ensures FileDescriptionAsWritten(key) == FileDescription(key)
  {
  }

  /** A lower-cased name that ends in a letter ends in no slash. */
  lemma LowerEndsInLetter(name: string, key: string)
    requires Lower(name) == key && key != [] && 'a' <= key[|key| - 1] <= 'z'
    ensures DropTrailing(name, '/') == name
  {
    assert LowerChar(name[|name| - 1]) == key[|key| - 1];
  }

  /** With the lower-cased table a Dockerfile gets its own entry, in any
      capitalisation. */
  lemma CorrectedDockerfile(name: string)
    requires Lower(name) == "dockerfile"
    ensures Describe(name, File) == DockerfileDescription
  {
    LowerEndsInLetter(name, "dockerfile");
    assert FileDescription("dockerfile") == Some(DockerfileDescription);
    assert DockerfileDescription[0] == 'D';
    FileEntryFound(name, DockerfileDescription);
  }

  /** The same for a README. */
  lemma CorrectedReadme(name: string)
    requires Lower(name) == "readme.md"
    ensures Describe(name, File) == ReadmeDescription
  {
    LowerEndsInLetter(name, "readme.md");
    assert FileDescription("readme.md") == Some(ReadmeDescription);
    assert ReadmeDescription[0] == 'P';
    FileEntryFound(name, ReadmeDescription);
  }

  /** One trailing slash of a caption is ignored. */
  lemma TrailingSlashIgnored(caption: string, kind: NodeKind)
    requires caption == [] || caption[|caption| - 1] != '/'
    ensures Describe(caption + "/", kind) == Describe(caption, kind)
    ensures DescribeAsWritten(caption + "/", kind) == DescribeAsWritten(caption, kind)
  {
    assert DropTrailing(caption + "/", '/') == caption;
  }

  /** A folder not in the table is described by its name. */
  lemma FolderFallback(caption: string)
    requires !Truthy(FolderDescription(Lower(DropTrailing(caption, '/'))))
    ensures Describe(caption, Folder)
      == "Directory containing " + DropTrailing(caption, '/') + "-related code and resources"
    ensures DescribeAsWritten(caption, Folder) == Describe(caption, Folder)
  {
    var name := DropTrailing(caption, '/');
    FirstTruthyIs([FolderDescription(Lower(name))], "Directory containing " + name + "-related code and resources");
  }

  /** No entry of the file or extension tables reads "File". */
  lemma NoEntryIsPlainFile(key: string)
    ensures FileDescription(key) != Some("File")
    ensures FileDescriptionAsWritten(key) != Some("File")
    ensures ExtensionDescription(key) != Some("File")
  {
  }

  /** "File" is the description exactly of the files missing from the table
      whose extension is empty; an unknown non-empty extension gives
      "<EXT> file". */
  lemma PlainFileFallback(caption: string)
    ensures var name := DropTrailing(caption, '/');
      Describe(caption, File) == "File" <==> !Truthy(FileDescription(Lower(name))) && Extension(name) == []
    ensures var name := DropTrailing(caption, '/');
      var ext := Extension(name);
      (!Truthy(FileDescription(Lower(name))) && ext != [] && !Truthy(ExtensionDescription(ext)))
      ==> Describe(caption, File) == Upper(ext) + " file"
    ensures var name := DropTrailing(caption, '/');
      DescribeAsWritten(caption, File) == "File" <==> !Truthy(FileDescriptionAsWritten(Lower(name))) && Extension(name) == []
    ensures var name := DropTrailing(caption, '/');
      var ext := Extension(name);
      (!Truthy(FileDescriptionAsWritten(Lower(name))) && ext != [] && !Truthy(ExtensionDescription(ext)))
      ==> DescribeAsWritten(caption, File) == Upper(ext) + " file"
  {
    var name := DropTrailing(caption, '/');
    var ext := Extension(name);
    NoEntryIsPlainFile(Lower(name));
    NoEntryIsPlainFile(ext);
    FirstTruthyIs([FileDescription(Lower(name))], ExtensionText(name));
    FirstTruthyIs([FileDescriptionAsWritten(Lower(name))], ExtensionText(name));
    if ext != [] {
      FirstTruthyIs([ExtensionDescription(ext)], Upper(ext) + " file");
      assert |Upper(ext) + " file"| != |"File"|;
    }
  }

  // ---------------------------------------------------------------------
  // Reading nodes (`extractNodeInfo`).

  /** The node a line declares: a folder match takes precedence over a
      file match, and a line with neither declares none. */
  function LineNode(line: string): (r: Option<NodeInfo>)
    ensures r.Some? && r.value.kind == Folder <==> MatchBracket(line, '[', ']').Some?
    ensures r.None? <==> MatchBracket(line, '[', ']').None? && MatchBracket(line, '(', ')').None?
  {
    match MatchBracket(line, '[', ']')
    case Some((id, caption)) => Some(NodeInfo(id, caption, Folder))
    case None =>
      match MatchBracket(line, '(', ')')
      case Some((id, caption)) => Some(NodeInfo(id, caption, File))
      case None => None
  }

  /** A line that opens with a folder node declares that folder, even when a
      file node follows on the same line. */
  lemma FolderFirst(line: string, id: string, caption: string)
    requires id != [] && forall k :: 0 <= k < |id| ==> IsWordChar(id[k])
    requires caption != [] && '"' !in caption
    requires var q := |id|; var e := q + 2 + |caption|;
      && e + 1 < |line| && line[..q] == id && line[q] == '[' && line[q + 1] == '"'
      && line[q + 2..e] == caption && line[e] == '"' && line[e + 1] == ']'
    ensures LineNode(line) == Some(NodeInfo(id, caption, Folder))
  {
    MatchLeadingNode(line, id, '[', ']', caption);
  }

  /** The ids of a node list, in order. */
  function Ids(nodes: seq<NodeInfo>): seq<string> {
    seq(|nodes|, k requires 0 <= k < |nodes| => nodes[k].id)
  }

  /** `map.get(id)`. */
  function Lookup(nodes: seq<NodeInfo>, id: string): (r: Option<NodeInfo>)
    ensures r.Some? ==> r.value in nodes && r.value.id == id
    ensures r.None? <==> id !in Ids(nodes)
  {
    if nodes == [] then None
    else
      assert Ids(nodes) == [nodes[0].id] + Ids(nodes[1..]);
      if nodes[0].id == id then Some(nodes[0]) else Lookup(nodes[1..], id)
  }

  /** Where `id` sits in the list. */
  function IndexOfId(nodes: seq<NodeInfo>, id: string): (k: nat)
    requires id in Ids(nodes)
    ensures k < |nodes| && nodes[k].id == id && forall j :: 0 <= j < k ==> nodes[j].id != id
  {
    if nodes[0].id == id then 0
    else
      assert Ids(nodes) == [nodes[0].id] + Ids(nodes[1..]);
      1 + IndexOfId(nodes[1..], id)
  }

  /** `map.set(node.id, node)`: a present id keeps its place and takes the
      new node; a new id goes at the end. */
  function SetNode(nodes: seq<NodeInfo>, n: NodeInfo): seq<NodeInfo> {
    if n.id in Ids(nodes) then nodes[IndexOfId(nodes, n.id) := n] else nodes + [n]
  }

  /** After a `set`, the id finds the new node and every other id finds
      what it found before; the keys grow as `AddUnique` says. */
  lemma SetNodeLookup(nodes: seq<NodeInfo>, n: NodeInfo)
    ensures Lookup(SetNode(nodes, n), n.id) == Some(n)
    ensures forall id :: id != n.id ==> Lookup(SetNode(nodes, n), id) == Lookup(nodes, id)
    ensures Ids(SetNode(nodes, n)) == AddUnique(Ids(nodes), n.id)
  {
    var r := SetNode(nodes, n);
    if n.id in Ids(nodes) {
      var k := IndexOfId(nodes, n.id);
      LookupFirst(r, n.id, k);
      forall id | id != n.id
        ensures Lookup(r, id) == Lookup(nodes, id)
      {
        LookupAway(nodes, k, n, id);
      }
      assert Ids(r) == Ids(nodes);
    } else {
      forall j | 0 <= j < |nodes|
        ensures r[j].id != n.id
      {
        assert Ids(nodes)[j] == nodes[j].id;
      }
      LookupFirst(r, n.id, |nodes|);
      forall id | id != n.id
        ensures Lookup(r, id) == Lookup(nodes, id)
      {
        LookupAppended(nodes, n, id);
      }
      assert Ids(r) == Ids(nodes) + [n.id];
    }
  }

  lemma {:induction false} LookupFirst(nodes: seq<NodeInfo>, id: string, k: nat)
    requires k < |nodes| && nodes[k].id == id && forall j :: 0 <= j < k ==> nodes[j].id != id
    ensures Lookup(nodes, id) == Some(nodes[k])
    decreases k
  {
    if k > 0 {
      LookupFirst(nodes[1..], id, k - 1);
    }
  }

  lemma {:induction false} LookupAway(nodes: seq<NodeInfo>, k: nat, n: NodeInfo, id: string)
    requires k < |nodes| && nodes[k].id == n.id && id != n.id
    ensures Lookup(nodes[k := n], id) == Lookup(nodes, id)
    decreases k
  {
    if k > 0 {
      LookupAway(nodes[1..], k - 1, n, id);
      assert nodes[k := n][1..] == nodes[1..][k - 1 := n];
    }
  }

  lemma {:induction false} LookupAppended(nodes: seq<NodeInfo>, n: NodeInfo, id: string)
    requires id != n.id
    ensures Lookup(nodes + [n], id) == Lookup(nodes, id)
    decreases |nodes|
  {
    if nodes != [] {
      LookupAppended(nodes[1..], n, id);
      assert (nodes + [n])[1..] == nodes[1..] + [n];
    }
  }

  /** The map after the given lines, one `set` per declaring line. */
  function NodesOf(lines: seq<string>): seq<NodeInfo> {
    if lines == [] then []
    else
      var before := NodesOf(lines[..|lines| - 1]);
      match LineNode(lines[|lines| - 1])
      case None => before
      case Some(n) => SetNode(before, n)
  }

  /** `extractNodeInfo(diagramText)`. */
  method ExtractNodeInfo(diagramText: string) returns (nodes: seq<NodeInfo>)
    ensures nodes == NodesOf(SplitChar(diagramText, '\n'))
  {
    var lines := SplitChar(diagramText, '\n');
    nodes := [];
    var i := 0;
    while i < |lines|
      invariant 0 <= i <= |lines|
      invariant nodes == NodesOf(lines[..i])
    {
      assert lines[..i + 1][..i] == lines[..i];
      var node := LineNode(lines[i]);
      if node.Some? {
        nodes := SetNode(nodes, node.value);
      }
      i := i + 1;
    }
    assert lines[..i] == lines;
  }

  /** The last line declaring an id, scanning back from the end. */
  function LastDeclared(lines: seq<string>, id: string): Option<NodeInfo> {
    if lines == [] then None
    else
      var n := LineNode(lines[|lines| - 1]);
      if n.Some? && n.value.id == id then n else LastDeclared(lines[..|lines| - 1], id)
  }

  /** The ids of the declaring lines, in line order. */
  function DeclaredIds(lines: seq<string>): seq<string> {
    if lines == [] then []
    else
      var n := LineNode(lines[|lines| - 1]);
      DeclaredIds(lines[..|lines| - 1]) + (if n.Some? then [n.value.id] else [])
  }

  /** A later line with the same id overwrites the earlier node: each id
      finds the node of the last line that declared it. */
  lemma {:induction false} LastWriterWins(lines: seq<string>, id: string)
    ensures Lookup(NodesOf(lines), id) == LastDeclared(lines, id)
  {
    if lines != [] {
      var init := lines[..|lines| - 1];
      LastWriterWins(init, id);
      var n := LineNode(lines[|lines| - 1]);
      if n.Some? {
        SetNodeLookup(NodesOf(init), n.value);
      }
    }
  }

  /** The ids keep the order in which they were first declared, each once. */
  lemma {:induction false} FirstDeclarationOrder(lines: seq<string>)
    ensures Ids(NodesOf(lines)) == Dedup(DeclaredIds(lines))
    ensures NoDuplicates(Ids(NodesOf(lines)))
  {
    if lines != [] {
      var init := lines[..|lines| - 1];
      FirstDeclarationOrder(init);
      var n := LineNode(lines[|lines| - 1]);
      var d := DeclaredIds(lines);
      if n.Some? {
        SetNodeLookup(NodesOf(init), n.value);
        assert d == DeclaredIds(init) + [n.value.id];
        assert d[..|d| - 1] == DeclaredIds(init);
      } else {
        assert d == DeclaredIds(init);
      }
    }
  }

  // ---------------------------------------------------------------------
  // Directories (`extractDirectories`).

  /** The labels of the folder nodes, in map order. */
  function FolderCaptions(nodes: seq<NodeInfo>): seq<string> {
    if nodes == [] then []
    else
      var last := nodes[|nodes| - 1];
      FolderCaptions(nodes[..|nodes| - 1]) + (if last.kind == Folder then [last.caption] else [])
  }

  /** `extractDirectories(nodes)`. */
  method ExtractDirectories(nodes: seq<NodeInfo>) returns (directories: seq<string>)
    ensures directories == FolderCaptions(nodes)
  {
    directories := [];
    var i := 0;
    while i < |nodes|
      invariant 0 <= i <= |nodes|
      invariant directories == FolderCaptions(nodes[..i])
    {
      assert nodes[..i + 1][..i] == nodes[..i];
      if nodes[i].kind == Folder {
        directories := directories + [nodes[i].caption];
      }
      i := i + 1;
    }
    assert nodes[..i] == nodes;
  }

  /** The directories are exactly the folder labels: one per folder node,
      and each is some folder node's caption. */
  lemma {:induction false} FolderCaptionsExact(nodes: seq<NodeInfo>)
    ensures forall d :: d in FolderCaptions(nodes) <==> exists k :: 0 <= k < |nodes| && nodes[k].kind == Folder && nodes[k].caption == d
    ensures |FolderCaptions(nodes)| <= |nodes|
  {
    if nodes != [] {
      var init := nodes[..|nodes| - 1];
      FolderCaptionsExact(init);
      forall d
        ensures d in FolderCaptions(nodes) <==> exists k :: 0 <= k < |nodes| && nodes[k].kind == Folder && nodes[k].caption == d
      {
        if exists k :: 0 <= k < |nodes| && nodes[k].kind == Folder && nodes[k].caption == d {
          var k :| 0 <= k < |nodes| && nodes[k].kind == Folder && nodes[k].caption == d;
          if k < |init| {
            assert init[k] == nodes[k];
          }
        }
        if d in FolderCaptions(init) {
          var k :| 0 <= k < |init| && init[k].kind == Folder && init[k].caption == d;
          assert nodes[k] == init[k];
        }
      }
    }
  }
}
