/** Dependency extraction (api/analysis/dependencies.py): external packages
    from package.json, requirements.txt and pyproject.toml, and internal
    top-level folders. Each manifest section fails silently on its own. */
module Dependencies {
  import opened Wrappers
  import opened Strings
  import opened FileTree

  /** One external dependency record; `version` is absent from the record
      when the manifest line gives none. */
  datatype ExternalDependency = ExternalDependency(name: string, version: Option<string>)

  datatype DependencyReport = DependencyReport(external: seq<ExternalDependency>, internal: seq<string>)

  // ---------------------------------------------------------------------
  // Python dicts with string values, as insertion-ordered pairs
  // ---------------------------------------------------------------------

  type Dict = seq<(string, string)>

  predicate KeysDistinct(d: Dict) {
    forall i, j :: 0 <= i < j < |d| ==> d[i].0 != d[j].0
  }

  function Get(d: Dict, key: string): Option<string> {
    if d == [] then None else if d[0].0 == key then Some(d[0].1) else Get(d[1..], key)
  }

  /** `d[key] = value`: an existing key keeps its place, a new key goes last. */
  function DictSet(d: Dict, key: string, value: string): (r: Dict)
    requires KeysDistinct(d)
    ensures KeysDistinct(r)
    ensures Get(r, key) == Some(value)
    ensures forall k :: k != key ==> Get(r, k) == Get(d, k)
    ensures forall k :: Get(r, k).Some? <==> Get(d, k).Some? || k == key
  {
    if d == [] then [(key, value)]
    else if d[0].0 == key then
      GetAbsent(d[1..], key);
      [(key, value)] + d[1..]
    else
      var rest := DictSet(d[1..], key, value);
      forall i | 0 <= i < |rest| ensures rest[i].0 != d[0].0 {
        GetPresent(rest, i);
        if rest[i].0 != key {
          var j := GetKey(d[1..], rest[i].0);
          assert d[j + 1].0 == rest[i].0;
        }
      }
      [d[0]] + rest
  }

  lemma GetAbsent(d: Dict, key: string)
    requires forall i :: 0 <= i < |d| ==> d[i].0 != key
    ensures Get(d, key) == None
  {
  }

  lemma GetPresent(d: Dict, i: nat)
    requires i < |d|
    ensures Get(d, d[i].0).Some?
  {
    if i > 0 && d[0].0 != d[i].0 {
      GetPresent(d[1..], i - 1);
    }
  }

  lemma GetKey(d: Dict, key: string) returns (i: nat)
    requires Get(d, key).Some?
    ensures i < |d| && d[i].0 == key
  {
    if d[0].0 == key {
      i := 0;
    } else {
      var j := GetKey(d[1..], key);
      i := j + 1;
    }
  }

  /** The keys of a dict, in insertion order. */
  function Keys(d: Dict): (r: seq<string>)
    ensures |r| == |d| && forall i :: 0 <= i < |d| ==> r[i] == d[i].0
  {
    seq(|d|, i requires 0 <= i < |d| => d[i].0)
  }

  /** An assignment keeps the key order: a present key stays where it is,
      a new key goes last. */
  lemma {:induction false} DictSetKeys(d: Dict, key: string, value: string)
    requires KeysDistinct(d)
    ensures Keys(DictSet(d, key, value)) == AddUnique(Keys(d), key)
  {
    if d == [] {
      assert DictSet(d, key, value) == [(key, value)];
    } else if d[0].0 == key {
      assert DictSet(d, key, value) == [(key, value)] + d[1..];
      assert Keys(d)[0] == key;
    } else {
      DictSetKeys(d[1..], key, value);
      DictSetKeysStep(d, key, value);
    }
  }

  lemma DictSetKeysStep(d: Dict, key: string, value: string)
    requires KeysDistinct(d) && d != [] && d[0].0 != key
    requires Keys(DictSet(d[1..], key, value)) == AddUnique(Keys(d[1..]), key)
    ensures Keys(DictSet(d, key, value)) == AddUnique(Keys(d), key)
  {
    var rest := DictSet(d[1..], key, value);
    assert DictSet(d, key, value) == [d[0]] + rest;
    ConsKeys(d[0], d[1..]);
    ConsKeys(d[0], rest);
    assert d == [d[0]] + d[1..];
    AddUniqueCons(d[0].0, Keys(d[1..]), key);
  }

  lemma ConsKeys(p: (string, string), d: Dict)
    ensures Keys([p] + d) == [p.0] + Keys(d)
  {
  }

  lemma AddUniqueCons(a: string, t: seq<string>, key: string)
    requires a != key
    ensures AddUnique([a] + t, key) == [a] + AddUnique(t, key)
  {
    assert key in [a] + t <==> key in t;
  }

  /** Successive assignments of `pairs` into `d`. */
  function Assign(d: Dict, pairs: Dict): (r: Dict)
    requires KeysDistinct(d)
    ensures KeysDistinct(r)
  {
    if pairs == [] then d
    else DictSet(Assign(d, pairs[..|pairs| - 1]), pairs[|pairs| - 1].0, pairs[|pairs| - 1].1)
  }

  /** The value of the last pair with this key: the one a dict keeps. */
  function LastValue(pairs: Dict, key: string): Option<string> {
    if pairs == [] then None
    else if pairs[|pairs| - 1].0 == key then Some(pairs[|pairs| - 1].1)
    else LastValue(pairs[..|pairs| - 1], key)
  }

  /** After assigning `pairs`, a key holds its last assigned value, or its
      old value when it was not assigned. */
  lemma {:induction false} AssignGet(d: Dict, pairs: Dict, key: string)
    requires KeysDistinct(d)
    ensures Get(Assign(d, pairs), key) == if LastValue(pairs, key).Some? then LastValue(pairs, key) else Get(d, key)
    decreases |pairs|
  {
    if pairs != [] {
      AssignGet(d, pairs[..|pairs| - 1], key);
    }
  }

  /** Assigning two lists in turn is assigning their concatenation. */
  lemma {:induction false} AssignAppend(d: Dict, a: Dict, b: Dict)
    requires KeysDistinct(d)
    ensures Assign(Assign(d, a), b) == Assign(d, a + b)
    decreases |b|
  {
    if b == [] {
      assert a + b == a;
    } else {
      AssignAppend(d, a, b[..|b| - 1]);
      assert (a + b)[..|a + b| - 1] == a + b[..|b| - 1];
    }
  }

  /** The keys of a dict built by assignments are the assigned keys, each
      once, in the order of their first assignment. */
  lemma {:induction false} AssignKeys(pairs: Dict)
    ensures Keys(Assign([], pairs)) == Dedup(Keys(pairs))
    decreases |pairs|
  {
    if pairs != [] {
      var init := pairs[..|pairs| - 1];
      AssignKeys(init);
      DictSetKeys(Assign([], init), pairs[|pairs| - 1].0, pairs[|pairs| - 1].1);
      assert Keys(pairs)[..|pairs| - 1] == Keys(init);
    }
  }

  /** `{**deps, **dev_deps}` built by assigning the items of each in turn. */
  method MergeDicts(deps: Dict, devDeps: Dict) returns (merged: Dict)
    ensures merged == Assign(Assign([], deps), devDeps)
  {
    merged := [];
    for i := 0 to |deps|
      invariant KeysDistinct(merged) && merged == Assign([], deps[..i])
    {
      assert deps[..i + 1][..i] == deps[..i];
      merged := DictSet(merged, deps[i].0, deps[i].1);
    }
    assert deps[..|deps|] == deps;
    ghost var base := merged;
    for i := 0 to |devDeps|
      invariant KeysDistinct(merged) && merged == Assign(base, devDeps[..i])
    {
      assert devDeps[..i + 1][..i] == devDeps[..i];
      merged := DictSet(merged, devDeps[i].0, devDeps[i].1);
    }
    assert devDeps[..|devDeps|] == devDeps;
  }

  /** In the merged table every package appears once, and a
      devDependencies entry overrides a dependencies entry of the same name. */
  lemma MergeOverrides(deps: Dict, devDeps: Dict, name: string)
    ensures KeysDistinct(Assign(Assign([], deps), devDeps))
    ensures Get(Assign(Assign([], deps), devDeps), name) ==
      if LastValue(devDeps, name).Some? then LastValue(devDeps, name) else LastValue(deps, name)
  {
    AssignGet(Assign([], deps), devDeps, name);
    AssignGet([], deps, name);
  }

  // ---------------------------------------------------------------------
  // package.json
  // ---------------------------------------------------------------------

  /** `package_data.get(field, {})`, or None where using the value as a
      table raises. */
  function TableOf(field: PackageField): Option<Dict> {
    match field
    case Absent => Some([])
    case Table(entries) => Some(entries)
    case NotATable => None
  }

  /** The decoded package.json at the root, if there is one that can be
      opened and decoded; anything else makes the section add nothing. */
  function PackageDoc(root: Node): Option<(PackageField, PackageField)> {
    match Lookup(root, ["package.json"])
    case Some(File(_, Package(Decoded(deps, devDeps)))) => Some((deps, devDeps))
    case _ => None
  }

  function Records(d: Dict): (r: seq<ExternalDependency>)
    ensures |r| == |d| && forall i :: 0 <= i < |d| ==> r[i] == ExternalDependency(d[i].0, Some(d[i].1))
  {
    seq(|d|, i requires 0 <= i < |d| => ExternalDependency(d[i].0, Some(d[i].1)))
  }

  /** The records the package.json section appends. */
  function PackageDependencies(root: Node): seq<ExternalDependency> {
    match PackageDoc(root)
    case None => []
    case Some((deps, devDeps)) =>
      match (TableOf(deps), TableOf(devDeps))
      case (Some(a), Some(b)) => Records(Assign(Assign([], a), b))
      case _ => []
  }

  method ReadPackageJson(root: Node) returns (records: seq<ExternalDependency>)
    ensures records == PackageDependencies(root)
  {
    records := [];
    var doc := PackageDoc(root);
    if doc.None? {
      return;
    }
    var deps := TableOf(doc.value.0);
    var devDeps := TableOf(doc.value.1);
    if deps.None? || devDeps.None? {
      return;
    }
    var merged := MergeDicts(deps.value, devDeps.value);
    for i := 0 to |merged|
      invariant records == Records(merged[..i])
    {
      records := records + [ExternalDependency(merged[i].0, Some(merged[i].1))];
    }
    assert merged[..|merged|] == merged;
  }

  function RecordNames(r: seq<ExternalDependency>): (names: seq<string>)
    ensures |names| == |r| && forall i :: 0 <= i < |r| ==> names[i] == r[i].name
  {
    seq(|r|, i requires 0 <= i < |r| => r[i].name)
  }

  /** Each package named in package.json is reported once, with the version
      that wins the merge; every name of either table is reported, in the
      order of its first appearance, so a name in both tables keeps its
      place from `dependencies`. */
  lemma PackageDependenciesUnique(root: Node, deps: Dict, devDeps: Dict)
    requires PackageDoc(root).Some?
    requires TableOf(PackageDoc(root).value.0) == Some(deps) && TableOf(PackageDoc(root).value.1) == Some(devDeps)
    ensures RecordNames(PackageDependencies(root)) == Dedup(Keys(deps) + Keys(devDeps))
    ensures var r := PackageDependencies(root);
      forall name :: name in Keys(deps) || name in Keys(devDeps) ==> exists i :: 0 <= i < |r| && r[i].name == name
    ensures var r := PackageDependencies(root);
      && (forall i, j :: 0 <= i < j < |r| ==> r[i].name != r[j].name)
      && (forall i :: 0 <= i < |r| ==>
            r[i].version == if LastValue(devDeps, r[i].name).Some? then LastValue(devDeps, r[i].name) else LastValue(deps, r[i].name))
  {
    var merged := Assign(Assign([], deps), devDeps);
    var r := PackageDependencies(root);
    assert r == Records(merged);
    MergedKeys(deps, devDeps);
    RecordNamesAreKeys(merged);
    NamesCoverKeys(r, Keys(deps), Keys(devDeps));
    MergedRecordVersions(deps, devDeps);
    assert NoDuplicates(RecordNames(r));
  }

  /** Records named by the distinct keys of two lists name every key of
      either. */
  lemma NamesCoverKeys(r: seq<ExternalDependency>, a: seq<string>, b: seq<string>)
    requires RecordNames(r) == Dedup(a + b)
    ensures forall name :: name in a || name in b ==> exists i :: 0 <= i < |r| && r[i].name == name
  {
    forall name | name in a || name in b
      ensures exists i :: 0 <= i < |r| && r[i].name == name
    {
      assert name in a + b;
      assert name in RecordNames(r);
      var i :| 0 <= i < |r| && RecordNames(r)[i] == name;
    }
  }

  /** Each record of the merged table carries the version that wins the
      merge. */
  lemma MergedRecordVersions(deps: Dict, devDeps: Dict)
    ensures var r := Records(Assign(Assign([], deps), devDeps));
      forall i :: 0 <= i < |r| ==>
        r[i].version == if LastValue(devDeps, r[i].name).Some? then LastValue(devDeps, r[i].name) else LastValue(deps, r[i].name)
  {
    var merged := Assign(Assign([], deps), devDeps);
    MergeOverrides(deps, devDeps, "");
    forall i | 0 <= i < |merged| ensures Some(merged[i].1) == Get(merged, merged[i].0) {
      GetAt(merged, i);
    }
    forall i | 0 <= i < |merged| ensures Get(merged, merged[i].0) == if LastValue(devDeps, merged[i].0).Some? then LastValue(devDeps, merged[i].0) else LastValue(deps, merged[i].0) {
      MergeOverrides(deps, devDeps, merged[i].0);
    }
  }

  /** The merged table holds the keys of both tables, each once, in the
      order of first appearance. */
  lemma MergedKeys(deps: Dict, devDeps: Dict)
    ensures Keys(Assign(Assign([], deps), devDeps)) == Dedup(Keys(deps) + Keys(devDeps))
  {
    AssignAppend([], deps, devDeps);
    AssignKeys(deps + devDeps);
    assert Keys(deps + devDeps) == Keys(deps) + Keys(devDeps);
  }

  lemma RecordNamesAreKeys(d: Dict)
    ensures RecordNames(Records(d)) == Keys(d)
  {
  }

  lemma GetAt(d: Dict, i: nat)
    requires KeysDistinct(d) && i < |d|
    ensures Get(d, d[i].0) == Some(d[i].1)
  {
    if i > 0 {
      GetAt(d[1..], i - 1);
    }
  }

  // ---------------------------------------------------------------------
  // requirements.txt
  // ---------------------------------------------------------------------

  /** The lines of a text file at the root, or None when it is missing, a
      directory, or cannot be read as text (the section then adds nothing). */
  function TextLinesAt(root: Node, name: string): Option<seq<string>> {
    match Lookup(root, [name])
    case Some(File(_, Text(content))) => Some(Lines(content))
    case _ => None
  }

  /** One requirements line after `strip()`: blank and comment lines give
      nothing; `name==version` splits at the first "==". */
  function ParseRequirement(line: string): Option<ExternalDependency> {
    if line == [] || StartsWith(line, "#") then None
    else match Find(line, "==")
      case Some(i) => Some(ExternalDependency(line[..i], Some(line[i + 2..])))
      case None => Some(ExternalDependency(line, None))
  }

  /** How a record reads back as a requirements line. */
  function RenderRequirement(d: ExternalDependency): string {
    match d.version
    case Some(v) => d.name + "==" + v
    case None => d.name
  }

  /** Parsing keeps all of the line: writing the record back gives the
      stripped line, and a pinned record's name holds no "==". */
  lemma RequirementRoundTrip(line: string)
    requires ParseRequirement(line).Some?
    ensures RenderRequirement(ParseRequirement(line).value) == line
    ensures ParseRequirement(line).value.version.Some? ==> !Contains(ParseRequirement(line).value.name, "==")
  {
    match Find(line, "==")
    case Some(i) =>
      assert line[i..i + 2] == "==";
      assert line == line[..i] + "==" + line[i + 2..];
      var name := line[..i];
      assert FindFrom(line, "==", 0) == Some(i);
      forall j: nat ensures !OccursAt(name, "==", j) {
        if j + 2 <= |name| {
          assert name[j..j + 2] == line[j..j + 2];
          assert !OccursAt(line, "==", j);
        }
      }
      ContainsIff(name, "==");
    case None =>
  }

  function RequirementsOf(lines: seq<string>): seq<ExternalDependency> {
    if lines == [] then []
    else
      var last := ParseRequirement(Strip(lines[|lines| - 1]));
      RequirementsOf(lines[..|lines| - 1]) + (if last.Some? then [last.value] else [])
  }

  /** The records the requirements.txt section appends. */
  function RequirementDependencies(root: Node): seq<ExternalDependency> {
    match TextLinesAt(root, "requirements.txt")
    case None => []
    case Some(lines) => RequirementsOf(lines)
  }

  method ReadRequirements(root: Node) returns (records: seq<ExternalDependency>)
    ensures records == RequirementDependencies(root)
  {
    records := [];
    var lines := TextLinesAt(root, "requirements.txt");
    if lines.Some? {
      records := ParseRequirementLines(lines.value);
    }
  }

  /** The line loop of the requirements.txt section. */
  method ParseRequirementLines(ls: seq<string>) returns (records: seq<ExternalDependency>)
    ensures records == RequirementsOf(ls)
  {
    records := [];
    for i := 0 to |ls|
      invariant records == RequirementsOf(ls[..i])
    {
      RequirementsOfPrefix(ls, i);
      var parsed := ParseRequirement(Strip(ls[i]));
      if parsed.Some? {
        records := records + [parsed.value];
      }
    }
    assert ls[..|ls|] == ls;
  }

  /** One more line adds its record, if it gives one. */
  lemma RequirementsOfPrefix(ls: seq<string>, i: nat)
    requires i < |ls|
    ensures RequirementsOf(ls[..i + 1]) == RequirementsOf(ls[..i]) +
      (if ParseRequirement(Strip(ls[i])).Some? then [ParseRequirement(Strip(ls[i])).value] else [])
  {
    assert ls[..i + 1][..i] == ls[..i];
  }

  // ---------------------------------------------------------------------
  // pyproject.toml
  // ---------------------------------------------------------------------

  /** `str.isidentifier()` over ASCII. */
  predicate IsIdentifier(s: string) {
    s != [] && (IsAlpha(s[0]) || s[0] == '_') && forall i :: 0 <= i < |s| ==> IsWordChar(s[i])
  }

  /** One pyproject line: skipped when it starts with "dependencies" or
      "[", otherwise the stripped text before the first "=" if that is an
      identifier. Any `key = value` line qualifies, so metadata keys such as
      `name` and `version` are reported as dependencies. */
  function ParsePyprojectLine(raw: string): Option<ExternalDependency> {
    var line := Strip(raw);
    if StartsWith(line, "dependencies") || StartsWith(line, "[") then None
    else match Find(line, "=")
      case None => None
      case Some(i) =>
        var name := Strip(line[..i]);
        if name != [] && IsIdentifier(name) then Some(ExternalDependency(name, None)) else None
  }

  /** What a pyproject line yields is always an unversioned identifier. */
  lemma PyprojectNamesAreIdentifiers(raw: string)
    requires ParsePyprojectLine(raw).Some?
    ensures IsIdentifier(ParsePyprojectLine(raw).value.name) && ParsePyprojectLine(raw).value.version == None
  {
  }

  /** Conversely, every `key = value` line whose key is an identifier not
      starting with "dependencies" yields that key. */
  lemma PyprojectKeyLineYieldsKey(key: string, value: string)
    requires IsIdentifier(key) && !StartsWith(key, "dependencies")
    ensures ParsePyprojectLine(key + " = " + value) == Some(ExternalDependency(key, None))
  {
    var line := StripKeepsKey(key, value);
    NotSkipped(line, key);
    FirstEqualsAfterKey(line, key);
    KeyBeforeEquals(line, key);
    KeyedLineYieldsKey(key + " = " + value, line, key);
  }

  /** The text before the "=" of `key = ...` strips to the key. */
  lemma KeyBeforeEquals(line: string, key: string)
    requires IsIdentifier(key)
    requires |line| >= |key| + 2 && line[..|key| + 2] == key + " ="
    ensures Strip(line[..|key| + 1]) == key
  {
    assert line[..|key| + 1] == key + " ";
    StripKeyBlank(key);
  }

  /** A stripped line that is not skipped and whose text before the first
      "=" strips to an identifier yields that identifier. */
  lemma KeyedLineYieldsKey(raw: string, line: string, key: string)
    requires line == Strip(raw) && IsIdentifier(key)
    requires !StartsWith(line, "dependencies") && !StartsWith(line, "[")
    requires Find(line, "=") == Some(|key| + 1) && |key| + 1 <= |line|
    requires Strip(line[..|key| + 1]) == key
    ensures ParsePyprojectLine(raw) == Some(ExternalDependency(key, None))
  {
  }

  /** Stripping `key = value` keeps the key and the first "=". */
  lemma StripKeepsKey(key: string, value: string) returns (line: string)
    requires IsIdentifier(key)
    ensures line == Strip(key + " = " + value)
    ensures |line| >= |key| + 2 && line[..|key| + 2] == key + " ="
  {
    var raw := key + " = " + value;
    assert !IsSpace(raw[0]);
    assert LStrip(raw) == raw;
    line := RStrip(raw);
    assert raw[|key| + 1] == '=';
    assert |line| > |key| + 1;
    assert line[..|key| + 2] == raw[..|key| + 2];
  }

  lemma NotSkipped(line: string, key: string)
    requires IsIdentifier(key) && !StartsWith(key, "dependencies")
    requires |line| >= |key| + 2 && line[..|key| + 2] == key + " ="
    ensures !StartsWith(line, "dependencies") && !StartsWith(line, "[")
  {
    assert line[0] == key[0];
    var d := "dependencies";
    if |line| >= |d| {
      if |key| >= |d| {
        assert line[..|d|] == key[..|d|];
      } else {
        assert line[|key|] == ' ';
        assert line[..|d|][|key|] != d[|key|];
      }
    }
  }

  lemma FirstEqualsAfterKey(line: string, key: string)
    requires IsIdentifier(key)
    requires |line| >= |key| + 2 && line[..|key| + 2] == key + " ="
    ensures Find(line, "=") == Some(|key| + 1)
  {
    assert line[|key| + 1] == '=';
    assert line[|key| + 1..|key| + 2] == "=";
    assert OccursAt(line, "=", |key| + 1);
    forall i: nat | i < |key| + 1 ensures !OccursAt(line, "=", i) {
      if i < |key| {
        assert line[i] == key[i];
      } else {
        assert line[i] == ' ';
      }
      assert line[i..i + 1] == [line[i]];
    }

  }

  lemma StripKeyBlank(key: string)
    requires IsIdentifier(key)
    ensures Strip(key + " ") == key
  {
    assert LStrip(key + " ") == key + " " by {
      assert !IsSpace((key + " ")[0]);
    }
    assert (key + " ")[..|key|] == key;
    assert RStrip(key) == key by {
      assert !IsSpace(key[|key| - 1]);
    }
  }

  function PyprojectOf(lines: seq<string>): seq<ExternalDependency> {
    if lines == [] then []
    else
      var last := ParsePyprojectLine(lines[|lines| - 1]);
      PyprojectOf(lines[..|lines| - 1]) + (if last.Some? then [last.value] else [])
  }

  /** The records the pyproject.toml section appends. */
  function PyprojectDependencies(root: Node): seq<ExternalDependency> {
    match TextLinesAt(root, "pyproject.toml")
    case None => []
    case Some(lines) => PyprojectOf(lines)
  }

  method ReadPyproject(root: Node) returns (records: seq<ExternalDependency>)
    ensures records == PyprojectDependencies(root)
  {
    records := [];
    var lines := TextLinesAt(root, "pyproject.toml");
    if lines.Some? {
      records := ParsePyprojectLines(lines.value);
    }
  }

  /** The line loop of the pyproject.toml section. */
  method ParsePyprojectLines(ls: seq<string>) returns (records: seq<ExternalDependency>)
    ensures records == PyprojectOf(ls)
  {
    records := [];
    for i := 0 to |ls|
      invariant records == PyprojectOf(ls[..i])
    {
      assert ls[..i + 1][..i] == ls[..i];
      var parsed := ParsePyprojectLine(ls[i]);
      if parsed.Some? {
        records := records + [parsed.value];
      }
    }
    assert ls[..|ls|] == ls;
  }

  // ---------------------------------------------------------------------
  // Internal dependencies
  // ---------------------------------------------------------------------

  /** `name` is a directory of the (listable) root not starting with ".". */
  predicate IsInternalDir(root: Node, name: string) {
    Listable(root) && !StartsWith(name, ".") &&
    exists i :: 0 <= i < |root.children| && root.children[i].Dir? && root.children[i].name == name
  }

  /** Directories of the root whose names do not start with ".", in
      listing order; none when the root cannot be listed. */
  method ListInternal(root: Node) returns (internal: seq<string>)
    ensures forall name :: name in internal <==> IsInternalDir(root, name)
    ensures WellFormed(root) ==> NoDuplicates(internal)
  {
    internal := [];
    if !Listable(root) {
      return;
    }
    var cs := root.children;
    for i := 0 to |cs|
      invariant forall name :: name in internal <==>
        exists m :: 0 <= m < i && cs[m].Dir? && cs[m].name == name && !StartsWith(name, ".")
      invariant WellFormed(root) ==> NoDuplicates(internal)
    {
      if cs[i].Dir? && !StartsWith(cs[i].name, ".") {
        internal := internal + [cs[i].name];
      }
    }
  }

  /** `extract_dependencies(repo_path)`: the three manifest sections in
      order, then the internal folders. It never raises. */
  method ExtractDependencies(root: Node) returns (report: DependencyReport)
    ensures report.external == PackageDependencies(root) + RequirementDependencies(root) + PyprojectDependencies(root)
    ensures forall name :: name in report.internal <==> IsInternalDir(root, name)
  {
    var fromPackage := ReadPackageJson(root);
    var fromRequirements := ReadRequirements(root);
    var fromPyproject := ReadPyproject(root);
    var internal := ListInternal(root);
    report := DependencyReport(fromPackage + fromRequirements + fromPyproject, internal);
  }
}
