/** The repository checkout as a value: the analysis stages read nothing
    but this tree. Child order is the order in which `os.listdir` and
    `os.walk` return entries; it is taken as given. */
module FileTree {
  import opened Wrappers
  import opened Strings

  /** One dependency table of an already-decoded package.json: missing,
      an object (name/version pairs in document order), or some other
      JSON value (using it as a table raises). */
  datatype PackageField = Absent | Table(entries: seq<(string, string)>) | NotATable

  /** A package.json after `json.load`: a top-level object, or anything
      that makes decoding or `.get` raise. */
  datatype PackageDoc = Decoded(dependencies: PackageField, devDependencies: PackageField) | Malformed

  /** What opening a file yields: its text (after newline translation),
      an already-decoded package.json, bytes that do not decode as text,
      or an error. For `Undecodable`, a strict read raises, while a read
      with `errors='ignore'` gets `lenient`, the text with the undecodable
      bytes dropped. */
  datatype Body = Text(content: string) | Package(doc: PackageDoc) | Undecodable(lenient: string) | Unreadable

  /** What `open(path, 'r', errors='ignore').read()` returns, or None when
      opening or reading raises. */
  function LenientText(b: Body): (r: Option<string>)
    ensures r.Some? <==> b.Text? || b.Undecodable?
    ensures b.Text? ==> r == Some(b.content)
    ensures b.Undecodable? ==> r == Some(b.lenient)
  {
    match b
    case Text(content) => Some(content)
    case Undecodable(lenient) => Some(lenient)
    case _ => None
  }

  /** A directory that is not `accessible` can be seen in its parent's
      listing but can be neither listed nor looked into. */
  datatype Node =
    | File(name: string, body: Body)
    | Dir(name: string, children: seq<Node>, accessible: bool)

  predicate Listable(n: Node) {
    n.Dir? && n.accessible
  }

  /** Entry names of one directory are distinct, at every level. */
  predicate WellFormed(n: Node)
    decreases n
  {
    n.Dir? ==>
      (forall i, j :: 0 <= i < j < |n.children| ==> n.children[i].name != n.children[j].name) &&
      (forall i :: 0 <= i < |n.children| ==> WellFormed(n.children[i]))
  }

  function Names(cs: seq<Node>): (r: seq<string>)
    ensures |r| == |cs| && forall i :: 0 <= i < |cs| ==> r[i] == cs[i].name
  {
    seq(|cs|, i requires 0 <= i < |cs| => cs[i].name)
  }

  /** `os.listdir`: the entry names, or None when listing raises. */
  function ListDir(n: Node): Option<seq<string>> {
    if Listable(n) then Some(Names(n.children)) else None
  }

  /** The entry called `name` among `cs`. */
  function ChildNamed(cs: seq<Node>, name: string): (r: Option<Node>)
    ensures r.Some? ==> r.value in cs && r.value.name == name
    ensures r.None? ==> forall i :: 0 <= i < |cs| ==> cs[i].name != name
  {
    if cs == [] then None
    else if cs[0].name == name then Some(cs[0])
    else ChildNamed(cs[1..], name)
  }

  /** The entry reached from `n` by the relative path `path`, as
      `os.path.exists` sees it: None when a step is missing or passes
      through a directory that cannot be looked into. */
  function Lookup(n: Node, path: seq<string>): Option<Node>
    decreases |path|
  {
    if path == [] then Some(n)
    else if !Listable(n) then None
    else match ChildNamed(n.children, path[0])
      case None => None
      case Some(c) => Lookup(c, path[1..])
  }

  /** `os.path.exists(os.path.join(root, name))` for an entry of the root. */
  predicate HasEntry(root: Node, name: string) {
    Lookup(root, [name]).Some?
  }

  /** `os.path.join(a, b)` for a relative `b`. */
  function PathJoin(a: string, b: string): string {
    if StartsWith(b, "/") then b
    else if a == "" || EndsWith(a, "/") then a + b
    else a + "/" + b
  }

  /** `Path(name).suffix`: from the last "." to the end, provided that dot
      is neither the first nor the last character of the name. */
  function Suffix(name: string): (r: string)
    ensures r == [] || (|r| >= 2 && r[0] == '.' && EndsWith(name, r) && |r| < |name| && '.' !in r[1..])
  {
    match LastIndexOf(name, '.')
    case None => ""
    case Some(i) => if 0 < i < |name| - 1 then name[i..] else ""
  }

  /** `Path(name).stem`: the name without its suffix. */
  function Stem(name: string): (r: string)
    ensures r + Suffix(name) == name
  {
    var n := |name| - |Suffix(name)|;
    assert name == name[..n] + name[n..];
    name[..n]
  }

  /** The lines of a text file as `readlines()` or `for line in f` give
      them: each line but possibly the last keeps its "\n". */
  function Lines(s: string): (r: seq<string>)
    decreases |s|
  {
    if s == [] then []
    else match Find(s, "\n")
      case None => [s]
      case Some(i) => [s[..i + 1]] + Lines(s[i + 1..])
  }

  // ---------------------------------------------------------------------
  // os.walk
  // ---------------------------------------------------------------------

  /** One triple `(root, dirs, files)` of `os.walk`; the files are kept as
      nodes so that a stage can open them. */
  datatype WalkStep = WalkStep(root: string, dirs: seq<string>, files: seq<Node>)

  function SubdirNames(cs: seq<Node>): (r: seq<string>)
    ensures forall d :: d in r <==> exists i :: 0 <= i < |cs| && cs[i].Dir? && cs[i].name == d
  {
    if cs == [] then []
    else (if cs[0].Dir? then [cs[0].name] else []) + SubdirNames(cs[1..])
  }

  function FilesOf(cs: seq<Node>): (r: seq<Node>)
    ensures forall f :: f in r <==> f in cs && f.File?
  {
    if cs == [] then []
    else (if cs[0].File? then [cs[0]] else []) + FilesOf(cs[1..])
  }

  /** Top-down `os.walk(path)` of node `n`, where every subdirectory whose
      name is in `pruned` is removed from `dirs` before descending (the
      `dirs[:] = ...` idiom); with `pruned == {}` it is the plain walk.
      A directory that cannot be listed yields nothing. */
  function Walk(path: string, n: Node, pruned: set<string>): seq<WalkStep>
    decreases n, 1
  {
    if !Listable(n) then []
    else [WalkStep(path, SubdirNames(n.children), FilesOf(n.children))]
         + WalkChildren(path, n.children, pruned)
  }

  function WalkChildren(path: string, cs: seq<Node>, pruned: set<string>): seq<WalkStep>
    decreases cs, 0
  {
    if cs == [] then []
    else
      (if cs[0].Dir? && cs[0].name !in pruned then Walk(PathJoin(path, cs[0].name), cs[0], pruned) else [])
      + WalkChildren(path, cs[1..], pruned)
  }

  // ---------------------------------------------------------------------
  // What a walk sees, stated on the tree
  // ---------------------------------------------------------------------

  /** Some directory strictly below `n`, reached through directories that
      can be listed and whose names are not pruned, has a name satisfying P. */
  predicate SomeDirBelow(n: Node, P: string -> bool, pruned: set<string>)
    decreases n, 1
  {
    Listable(n) && SomeDirAmong(n.children, P, pruned)
  }

  predicate SomeDirAmong(cs: seq<Node>, P: string -> bool, pruned: set<string>)
    decreases cs, 0
  {
    cs != [] &&
    ((cs[0].Dir? && (P(cs[0].name) || (cs[0].name !in pruned && SomeDirBelow(cs[0], P, pruned))))
     || SomeDirAmong(cs[1..], P, pruned))
  }

  predicate DirSeenIn(steps: seq<WalkStep>, P: string -> bool) {
    exists k, j :: 0 <= k < |steps| && 0 <= j < |steps[k].dirs| && P(steps[k].dirs[j])
  }

  lemma DirSeenInAppend(a: seq<WalkStep>, b: seq<WalkStep>, P: string -> bool)
    ensures DirSeenIn(a + b, P) <==> DirSeenIn(a, P) || DirSeenIn(b, P)
  {
    if DirSeenIn(a + b, P) {
      var k, j :| 0 <= k < |a + b| && 0 <= j < |(a + b)[k].dirs| && P((a + b)[k].dirs[j]);
      if k >= |a| {
        assert (a + b)[k] == b[k - |a|];
      } else {
        assert (a + b)[k] == a[k];
      }
    }
    if DirSeenIn(a, P) {
      var k, j :| 0 <= k < |a| && 0 <= j < |a[k].dirs| && P(a[k].dirs[j]);
      assert (a + b)[k] == a[k];
      assert P((a + b)[k].dirs[j]);
    }
    if DirSeenIn(b, P) {
      var k, j :| 0 <= k < |b| && 0 <= j < |b[k].dirs| && P(b[k].dirs[j]);
      assert (a + b)[|a| + k] == b[k];
      assert P((a + b)[|a| + k].dirs[j]);
    }
  }

  /** The `dirs` lists that `os.walk` reports, taken together, name a
      directory satisfying P exactly when the tree has one below the top. */
  lemma {:induction false} WalkSeesDirs(path: string, n: Node, P: string -> bool, pruned: set<string>)
    ensures DirSeenIn(Walk(path, n, pruned), P) <==> SomeDirBelow(n, P, pruned)
    decreases n, 1
  {
    if Listable(n) {
      var step := WalkStep(path, SubdirNames(n.children), FilesOf(n.children));
      DirSeenInAppend([step], WalkChildren(path, n.children, pruned), P);
      WalkChildrenSeesDirs(path, n.children, P, pruned);
      SubdirNamesSeen(n.children, P);
      if DirSeenIn([step], P) {
        var k, j :| 0 <= k < 1 && 0 <= j < |[step][k].dirs| && P([step][k].dirs[j]);
        assert P(step.dirs[j]);
      }
      if exists i :: 0 <= i < |n.children| && n.children[i].Dir? && P(n.children[i].name) {
        var i :| 0 <= i < |n.children| && n.children[i].Dir? && P(n.children[i].name);
        assert n.children[i].name in step.dirs;
        var j :| 0 <= j < |step.dirs| && step.dirs[j] == n.children[i].name;
        assert [step][0].dirs[j] == step.dirs[j];
      }
    }
  }

  /** The names satisfying P among `SubdirNames(cs)` are the directory
      children satisfying P. */
  lemma SubdirNamesSeen(cs: seq<Node>, P: string -> bool)
    ensures (exists d :: d in SubdirNames(cs) && P(d)) <==> (exists i :: 0 <= i < |cs| && cs[i].Dir? && P(cs[i].name))
  {
    if exists d :: d in SubdirNames(cs) && P(d) {
      var d :| d in SubdirNames(cs) && P(d);
      var i :| 0 <= i < |cs| && cs[i].Dir? && cs[i].name == d;
    }
  }

  /** `SomeDirAmong` unfolded: some child directory satisfies P itself, or
      has a satisfying directory below it. */
  predicate SomeChildDir(cs: seq<Node>, P: string -> bool, pruned: set<string>) {
    (exists i :: 0 <= i < |cs| && cs[i].Dir? && P(cs[i].name)) ||
    (exists i :: 0 <= i < |cs| && cs[i].Dir? && cs[i].name !in pruned && SomeDirBelow(cs[i], P, pruned))
  }

  lemma {:induction false} WalkChildrenSeesDirs(path: string, cs: seq<Node>, P: string -> bool, pruned: set<string>)
    ensures DirSeenIn(WalkChildren(path, cs, pruned), P) <==>
            (exists i :: 0 <= i < |cs| && cs[i].Dir? && cs[i].name !in pruned && SomeDirBelow(cs[i], P, pruned))
    ensures SomeDirAmong(cs, P, pruned) <==> SomeChildDir(cs, P, pruned)
    decreases cs, 0
  {
    if cs != [] {
      var head := if cs[0].Dir? && cs[0].name !in pruned then Walk(PathJoin(path, cs[0].name), cs[0], pruned) else [];
      DirSeenInAppend(head, WalkChildren(path, cs[1..], pruned), P);
      WalkChildrenSeesDirs(path, cs[1..], P, pruned);
      if cs[0].Dir? && cs[0].name !in pruned {
        WalkSeesDirs(PathJoin(path, cs[0].name), cs[0], P, pruned);
      }
      var rest := cs[1..];
      assert forall i :: 0 <= i < |rest| ==> rest[i] == cs[i + 1];
      if exists i :: 0 <= i < |cs| && cs[i].Dir? && cs[i].name !in pruned && SomeDirBelow(cs[i], P, pruned) {
        var i :| 0 <= i < |cs| && cs[i].Dir? && cs[i].name !in pruned && SomeDirBelow(cs[i], P, pruned);
        if i > 0 { assert rest[i - 1] == cs[i]; }
      }
      if exists i :: 0 <= i < |cs| && cs[i].Dir? && P(cs[i].name) {
        var i :| 0 <= i < |cs| && cs[i].Dir? && P(cs[i].name);
        if i > 0 { assert rest[i - 1] == cs[i]; }
      }
    }
  }

  // ---------------------------------------------------------------------
  // Files a walk reaches, counted on the tree
  // ---------------------------------------------------------------------

  /** Number of files reachable from `n` through listable directories. */
  function FileCount(n: Node): nat
    decreases n, 1
  {
    if Listable(n) then FileCountAmong(n.children) else 0
  }

  function FileCountAmong(cs: seq<Node>): nat
    decreases cs, 0
  {
    if cs == [] then 0
    else (if cs[0].File? then 1 else FileCount(cs[0])) + FileCountAmong(cs[1..])
  }

  function StepFiles(steps: seq<WalkStep>): nat {
    if steps == [] then 0 else |steps[0].files| + StepFiles(steps[1..])
  }

  lemma StepFilesAppend(a: seq<WalkStep>, b: seq<WalkStep>)
    ensures StepFiles(a + b) == StepFiles(a) + StepFiles(b)
  {
    if a != [] {
      assert (a + b)[0] == a[0];
      assert (a + b)[1..] == a[1..] + b;
      StepFilesAppend(a[1..], b);
    } else {
      assert a + b == b;
    }
  }

  /** `sum(len(files) for _, _, files in os.walk(path))` is the number of
      files reachable in the tree, whatever the order of the walk. */
  lemma {:induction false} WalkCountsFiles(path: string, n: Node)
    ensures StepFiles(Walk(path, n, {})) == FileCount(n)
    decreases n, 1
  {
    if Listable(n) {
      var step := WalkStep(path, SubdirNames(n.children), FilesOf(n.children));
      StepFilesAppend([step], WalkChildren(path, n.children, {}));
      WalkChildrenCountsFiles(path, n.children);
    }
  }

  lemma {:induction false} WalkChildrenCountsFiles(path: string, cs: seq<Node>)
    ensures |FilesOf(cs)| + StepFiles(WalkChildren(path, cs, {})) == FileCountAmong(cs)
    decreases cs, 0
  {
    if cs != [] {
      var head := if cs[0].Dir? then Walk(PathJoin(path, cs[0].name), cs[0], {}) else [];
      StepFilesAppend(head, WalkChildren(path, cs[1..], {}));
      WalkChildrenCountsFiles(path, cs[1..]);
      if cs[0].Dir? {
        WalkCountsFiles(PathJoin(path, cs[0].name), cs[0]);
      }
    }
  }

  // ---------------------------------------------------------------------
  // Files a pruned walk sees, stated on the tree
  // ---------------------------------------------------------------------

  /** Some file below `n`, reached through directories that can be listed
      and whose names are not pruned, has a name satisfying P. */
  predicate SomeFileBelow(n: Node, P: string -> bool, pruned: set<string>)
    decreases n, 1
  {
    Listable(n) && SomeFileAmong(n.children, P, pruned)
  }

  predicate SomeFileAmong(cs: seq<Node>, P: string -> bool, pruned: set<string>)
    decreases cs, 0
  {
    cs != [] &&
    ((cs[0].File? && P(cs[0].name)) || (cs[0].Dir? && cs[0].name !in pruned && SomeFileBelow(cs[0], P, pruned))
     || SomeFileAmong(cs[1..], P, pruned))
  }

  predicate FileSeenIn(steps: seq<WalkStep>, P: string -> bool) {
    exists k, j :: 0 <= k < |steps| && 0 <= j < |steps[k].files| && P(steps[k].files[j].name)
  }

  lemma FileSeenInAppend(a: seq<WalkStep>, b: seq<WalkStep>, P: string -> bool)
    ensures FileSeenIn(a + b, P) <==> FileSeenIn(a, P) || FileSeenIn(b, P)
  {
    if FileSeenIn(a + b, P) {
      var k, j :| 0 <= k < |a + b| && 0 <= j < |(a + b)[k].files| && P((a + b)[k].files[j].name);
      if k >= |a| {
        assert (a + b)[k] == b[k - |a|];
      } else {
        assert (a + b)[k] == a[k];
      }
    }
    if FileSeenIn(a, P) {
      var k, j :| 0 <= k < |a| && 0 <= j < |a[k].files| && P(a[k].files[j].name);
      assert (a + b)[k] == a[k];
      assert P((a + b)[k].files[j].name);
    }
    if FileSeenIn(b, P) {
      var k, j :| 0 <= k < |b| && 0 <= j < |b[k].files| && P(b[k].files[j].name);
      assert (a + b)[|a| + k] == b[k];
      assert P((a + b)[|a| + k].files[j].name);
    }
  }

  /** The `files` lists of a pruned `os.walk`, taken together, name a file
      satisfying P exactly when the tree has one outside pruned folders. */
  lemma {:induction false} WalkSeesFiles(path: string, n: Node, P: string -> bool, pruned: set<string>)
    ensures FileSeenIn(Walk(path, n, pruned), P) <==> SomeFileBelow(n, P, pruned)
    decreases n, 1
  {
    if Listable(n) {
      var step := WalkStep(path, SubdirNames(n.children), FilesOf(n.children));
      FileSeenInAppend([step], WalkChildren(path, n.children, pruned), P);
      WalkChildrenSeesFiles(path, n.children, P, pruned);
      if FileSeenIn([step], P) {
        var k, j :| 0 <= k < 1 && 0 <= j < |[step][k].files| && P([step][k].files[j].name);
        var f := step.files[j];
        assert f in FilesOf(n.children);
        var i :| 0 <= i < |n.children| && n.children[i] == f;
      }
      if exists i :: 0 <= i < |n.children| && n.children[i].File? && P(n.children[i].name) {
        var i :| 0 <= i < |n.children| && n.children[i].File? && P(n.children[i].name);
        assert n.children[i] in step.files;
        var j :| 0 <= j < |step.files| && step.files[j] == n.children[i];
        assert [step][0].files[j] == step.files[j];
      }
    }
  }

  /** `SomeFileAmong` unfolded: some child file satisfies P itself, or a
      child directory that is not pruned has a satisfying file below it. */
  predicate SomeChildFile(cs: seq<Node>, P: string -> bool, pruned: set<string>) {
    (exists i :: 0 <= i < |cs| && cs[i].File? && P(cs[i].name)) ||
    (exists i :: 0 <= i < |cs| && cs[i].Dir? && cs[i].name !in pruned && SomeFileBelow(cs[i], P, pruned))
  }

  lemma {:induction false} WalkChildrenSeesFiles(path: string, cs: seq<Node>, P: string -> bool, pruned: set<string>)
    ensures FileSeenIn(WalkChildren(path, cs, pruned), P) <==>
            (exists i :: 0 <= i < |cs| && cs[i].Dir? && cs[i].name !in pruned && SomeFileBelow(cs[i], P, pruned))
    ensures SomeFileAmong(cs, P, pruned) <==> SomeChildFile(cs, P, pruned)
    decreases cs, 0
  {
    if cs != [] {
      var head := if cs[0].Dir? && cs[0].name !in pruned then Walk(PathJoin(path, cs[0].name), cs[0], pruned) else [];
      FileSeenInAppend(head, WalkChildren(path, cs[1..], pruned), P);
      WalkChildrenSeesFiles(path, cs[1..], P, pruned);
      if cs[0].Dir? && cs[0].name !in pruned {
        WalkSeesFiles(PathJoin(path, cs[0].name), cs[0], P, pruned);
      }
      var rest := cs[1..];
      assert forall i :: 0 <= i < |rest| ==> rest[i] == cs[i + 1];
      if exists i :: 0 <= i < |cs| && cs[i].Dir? && cs[i].name !in pruned && SomeFileBelow(cs[i], P, pruned) {
        var i :| 0 <= i < |cs| && cs[i].Dir? && cs[i].name !in pruned && SomeFileBelow(cs[i], P, pruned);
        if i > 0 { assert rest[i - 1] == cs[i]; }
      }
      if exists i :: 0 <= i < |cs| && cs[i].File? && P(cs[i].name) {
        var i :| 0 <= i < |cs| && cs[i].File? && P(cs[i].name);
        if i > 0 { assert rest[i - 1] == cs[i]; }
      }
    }
  }

  // ---------------------------------------------------------------------
  // Where a walk's paths lie
  // ---------------------------------------------------------------------

  /** A name `os.listdir` can return: non-empty and without a slash. */
  predicate PlainName(name: string) {
    name != [] && '/' !in name
  }

  /** Every entry below `n` has a plain name. */
  predicate PlainNamesBelow(n: Node)
    decreases n
  {
    n.Dir? ==> forall i :: 0 <= i < |n.children| ==> PlainName(n.children[i].name) && PlainNamesBelow(n.children[i])
  }

  /** A path that is `path` itself or lies below it, and ends in a name. */
  predicate RootUnder(path: string, r: string) {
    (r == path || StartsWith(r, path + "/")) && r != [] && r[|r| - 1] != '/'
  }

  predicate StepsUnder(path: string, steps: seq<WalkStep>) {
    forall k :: 0 <= k < |steps| ==>
      RootUnder(path, steps[k].root) && forall j :: 0 <= j < |steps[k].files| ==> PlainName(steps[k].files[j].name)
  }

  /** Joining a path that ends in a name with a plain name puts one slash
      between them. */
  lemma PathJoinPlain(path: string, name: string)
    requires path != [] && path[|path| - 1] != '/' && PlainName(name)
    ensures PathJoin(path, name) == path + "/" + name
  {
    assert name[0] != '/';
    assert path[|path| - 1..] != "/";
  }

  /** Every root `os.walk(path)` yields is `path` or lies below it, and
      every file it lists has a plain name. */
  lemma {:induction false} WalkStaysUnder(path: string, n: Node, pruned: set<string>)
    requires path != [] && path[|path| - 1] != '/' && PlainNamesBelow(n)
    ensures StepsUnder(path, Walk(path, n, pruned))
    decreases n, 1
  {
    if Listable(n) {
      WalkChildrenStaysUnder(path, n.children, pruned);
      var files := FilesOf(n.children);
      forall j | 0 <= j < |files| ensures PlainName(files[j].name) {
        assert files[j] in n.children;
      }
    }
  }

  lemma {:induction false} WalkChildrenStaysUnder(path: string, cs: seq<Node>, pruned: set<string>)
    requires path != [] && path[|path| - 1] != '/'
    requires forall i :: 0 <= i < |cs| ==> PlainName(cs[i].name) && PlainNamesBelow(cs[i])
    ensures StepsUnder(path, WalkChildren(path, cs, pruned))
    decreases cs, 0
  {
    if cs != [] {
      WalkChildrenStaysUnder(path, cs[1..], pruned);
      if cs[0].Dir? && cs[0].name !in pruned {
        var sub := PathJoin(path, cs[0].name);
        PathJoinPlain(path, cs[0].name);
        WalkStaysUnder(sub, cs[0], pruned);
        var head := Walk(sub, cs[0], pruned);
        forall k | 0 <= k < |head| ensures RootUnder(path, head[k].root) {
          var r := head[k].root;
          if r != sub {
            assert r[..|sub| + 1] == sub + "/";
          }
          assert r[..|path| + 1] == (path + "/" + cs[0].name)[..|path| + 1];
        }
      }
    }
  }
}
