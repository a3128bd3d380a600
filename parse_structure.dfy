/** Structure parsing (api/analysis/parse_structure.py): a sorted ASCII
    folder tree with a running file count, and the key files of every
    top-level module folder. */
module ParseStructure {
  import opened Wrappers
  import opened Strings
  import opened FileTree

  /** IGNORED_DIRS: entries with these names are neither shown nor counted,
      whether they are directories or files. */
  const IgnoredDirs: set<string> := {".git", "node_modules", "__pycache__", ".next", "dist", "build", "venv", ".venv"}

  /** `os.path.basename(path)`. */
  function Basename(path: string): (r: string)
    ensures '/' !in r && EndsWith(path, r)
  {
    AfterLast(path, '/')
  }

  // ---------------------------------------------------------------------
  // sorted(os.listdir(dir)), kept as the entry nodes ordered by name
  // ---------------------------------------------------------------------

  predicate SortedByName(cs: seq<Node>) {
    forall i :: 0 < i < |cs| ==> LexLe(cs[i - 1].name, cs[i].name)
  }

  function InsertByName(c: Node, cs: seq<Node>): (r: seq<Node>)
    ensures |r| == |cs| + 1 && multiset(r) == multiset(cs) + multiset{c}
    ensures r[0] == c || (cs != [] && r[0] == cs[0])
  {
    if cs == [] || LexLe(c.name, cs[0].name) then [c] + cs
    else
      assert cs == [cs[0]] + cs[1..];
      [cs[0]] + InsertByName(c, cs[1..])
  }

  /** Inserting into a sorted listing keeps it sorted. */
  lemma {:induction false} InsertByNameSorted(c: Node, cs: seq<Node>)
    requires SortedByName(cs)
    ensures SortedByName(InsertByName(c, cs))
  {
    if cs != [] && !LexLe(c.name, cs[0].name) {
      LexLeTotal(c.name, cs[0].name);
      InsertByNameSorted(c, cs[1..]);
    }
  }

  /** The entries of a directory in the order of `sorted(os.listdir(...))`;
      entry names of one directory are distinct, so ordering the nodes by
      name orders their names. */
  function SortByName(cs: seq<Node>): (r: seq<Node>)
    ensures SortedByName(r) && multiset(r) == multiset(cs) && |r| == |cs|
  {
    if cs == [] then []
    else
      assert cs == [cs[0]] + cs[1..];
      InsertByNameSorted(cs[0], SortByName(cs[1..]));
      InsertByName(cs[0], SortByName(cs[1..]))
  }

  lemma SortedNamesSorted(cs: seq<Node>)
    ensures Sorted(Names(SortByName(cs)))
  {
  }

  // ---------------------------------------------------------------------
  // The folder tree as `walk(dir_path, prefix)` prints it
  // ---------------------------------------------------------------------

  function Connector(last: bool): string {
    if last then "└── " else "├── "
  }

  function ChildPrefix(last: bool): string {
    if last then "    " else "│   "
  }

  /** The lines `walk(dir, prefix)` appends for directory `n`; nothing when
      the directory cannot be listed. */
  function TreeLines(n: Node, prefix: string): seq<string>
    decreases n, 1
  {
    if !Listable(n) then []
    else EntryLines(n, SortByName(n.children), 0, prefix)
  }

  /** The lines for `entries[idx..]`. The connector of an entry depends on
      its index among ALL sorted entries, ignored ones included. */
  function EntryLines(n: Node, entries: seq<Node>, idx: nat, prefix: string): seq<string>
    requires n.Dir? && multiset(entries) == multiset(n.children)
    decreases n, 0, |entries| - idx
  {
    if idx >= |entries| then []
    else
      assert entries[idx] in multiset(n.children);
      EntryOwnLines(entries[idx], idx == |entries| - 1, prefix) + EntryLines(n, entries, idx + 1, prefix)
  }

  /** The lines of one entry: none for an ignored name, else its own line
      and, for a directory, the lines below it. */
  function EntryOwnLines(entry: Node, last: bool, prefix: string): seq<string>
    decreases entry, 2
  {
    if entry.name in IgnoredDirs then []
    else
      var line := prefix + Connector(last) + entry.name;
      if entry.Dir? then [line] + TreeLines(entry, prefix + ChildPrefix(last)) else [line]
  }

  /** The files `walk` counts below `n`. */
  function ShownFiles(n: Node): nat
    decreases n, 1
  {
    if !Listable(n) then 0
    else ShownFilesFrom(n, SortByName(n.children), 0)
  }

  function ShownFilesFrom(n: Node, entries: seq<Node>, idx: nat): nat
    requires n.Dir? && multiset(entries) == multiset(n.children)
    decreases n, 0, |entries| - idx
  {
    if idx >= |entries| then 0
    else
      assert entries[idx] in multiset(n.children);
      EntryCount(entries[idx]) + ShownFilesFrom(n, entries, idx + 1)
  }

  /** The files `walk` counts for one entry. */
  function EntryCount(entry: Node): nat
    decreases entry, 2
  {
    if entry.name in IgnoredDirs then 0 else if entry.Dir? then ShownFiles(entry) else 1
  }

  /** The tree walk as a stateful object: `total_files` and `tree_lines`
      are the two variables the nested `walk` updates. */
  class StructureParser {
    var totalFiles: nat
    var treeLines: seq<string>

    constructor (rootLine: string)
      ensures totalFiles == 0 && treeLines == [rootLine]
    {
      totalFiles := 0;
      treeLines := [rootLine];
    }

    /** `walk(dir_path, prefix)`: appends the lines of `n` and counts its
        files; a directory that cannot be listed adds nothing. */
    method WalkDir(n: Node, prefix: string)
      modifies this
      decreases n, 1
      ensures treeLines == old(treeLines) + TreeLines(n, prefix)
      ensures totalFiles == old(totalFiles) + ShownFiles(n)
    {
      if !Listable(n) {
        return;
      }
      ghost var lines0, count0 := treeLines, totalFiles;
      var entries := SortByName(n.children);
      for idx := 0 to |entries|
        invariant lines0 + TreeLines(n, prefix) == treeLines + EntryLines(n, entries, idx, prefix)
        invariant count0 + ShownFiles(n) == totalFiles + ShownFilesFrom(n, entries, idx)
      {
        assert entries[idx] in multiset(n.children);
        var last := idx == |entries| - 1;
        ghost var before, own := treeLines, EntryOwnLines(entries[idx], last, prefix);
        ghost var rest := EntryLines(n, entries, idx + 1, prefix);
        WalkEntry(entries[idx], last, prefix);
        assert before + (own + rest) == (before + own) + rest;
      }
    }

    /** One pass of the loop in `walk`: an ignored name is skipped; any
        other entry gets its line, and a directory is walked while a file
        is counted. */
    method WalkEntry(entry: Node, last: bool, prefix: string)
      modifies this
      decreases entry, 2
      ensures treeLines == old(treeLines) + EntryOwnLines(entry, last, prefix)
      ensures totalFiles == old(totalFiles) + EntryCount(entry)
    {
      if entry.name in IgnoredDirs {
        return;
      }
      var line := prefix + Connector(last) + entry.name;
      treeLines := treeLines + [line];
      if entry.Dir? {
        WalkDir(entry, prefix + ChildPrefix(last));
      } else {
        totalFiles := totalFiles + 1;
      }
    }
  }

  // ---------------------------------------------------------------------
  // What the tree shows, independently of the order of the walk
  // ---------------------------------------------------------------------

  /** Files below `n` that are not inside, or named as, an ignored entry,
      summed in listing order. */
  function VisibleFiles(n: Node): nat
    decreases n, 1
  {
    if !Listable(n) then 0 else VisibleAmong(n.children)
  }

  function VisibleAmong(cs: seq<Node>): nat
    decreases cs, 0
  {
    if cs == [] then 0 else Weight(cs[0]) + VisibleAmong(cs[1..])
  }

  /** What one entry contributes to the count. */
  function Weight(c: Node): nat
    decreases c, 2
  {
    if c.name in IgnoredDirs then 0 else if c.Dir? then VisibleFiles(c) else 1
  }

  lemma VisibleAmongAppend(a: seq<Node>, b: seq<Node>)
    ensures VisibleAmong(a + b) == VisibleAmong(a) + VisibleAmong(b)
  {
    if a != [] {
      assert (a + b)[0] == a[0];
      assert (a + b)[1..] == a[1..] + b;
      VisibleAmongAppend(a[1..], b);
      assert VisibleAmong(a + b) == Weight(a[0]) + VisibleAmong(a[1..] + b);
    } else {
      assert a + b == b;
    }
  }

  /** The count does not depend on the order in which entries are visited. */
  lemma {:induction false} VisibleAmongPermutation(a: seq<Node>, b: seq<Node>)
    requires multiset(a) == multiset(b)
    ensures VisibleAmong(a) == VisibleAmong(b)
    decreases |a|
  {
    if a != [] {
      assert a[0] in multiset(b);
      var i :| 0 <= i < |b| && b[i] == a[0];
      var rest := b[..i] + b[i + 1..];
      RemoveAt(b, i);
      assert a == [a[0]] + a[1..];
      assert multiset(a[1..]) == multiset(a) - multiset{a[0]};
      VisibleAmongPermutation(a[1..], rest);
      VisibleAmongRemove(b, i);
    }
  }

  /** Taking out the entry at `i` takes one copy of it out of the multiset. */
  lemma RemoveAt(b: seq<Node>, i: nat)
    requires i < |b|
    ensures multiset(b[..i] + b[i + 1..]) == multiset(b) - multiset{b[i]}
  {
    SplitAround(b, i);
  }

  /** A sequence is what lies before `i`, the element at `i`, and what
      lies after it. */
  lemma SplitAround<T>(b: seq<T>, i: nat)
    requires i < |b|
    ensures b == b[..i] + [b[i]] + b[i + 1..]
  {
  }

  /** Taking out the entry at `i` takes its weight out of the count. */
  lemma VisibleAmongRemove(b: seq<Node>, i: nat)
    requires i < |b|
    ensures VisibleAmong(b) == Weight(b[i]) + VisibleAmong(b[..i] + b[i + 1..])
  {
    var before, after, one := b[..i], b[i + 1..], [b[i]];
    SplitAround(b, i);
    VisibleAmongAppend(before + one, after);
    VisibleAmongAppend(before, one);
    assert one[1..] == [];
    assert VisibleAmong(one) == Weight(b[i]);
    VisibleAmongAppend(before, after);
  }

  lemma {:induction false} ShownFilesFromSum(n: Node, entries: seq<Node>, idx: nat)
    requires n.Dir? && multiset(entries) == multiset(n.children) && idx <= |entries|
    requires forall c :: c in n.children && c.Dir? ==> ShownFiles(c) == VisibleFiles(c)
    ensures ShownFilesFrom(n, entries, idx) == VisibleAmong(entries[idx..])
    decreases |entries| - idx
  {
    if idx < |entries| {
      ShownFilesFromSum(n, entries, idx + 1);
      assert entries[idx..] == [entries[idx]] + entries[idx + 1..];
      assert entries[idx] in multiset(n.children);
    }
  }

  /** The count of `walk`, taken in sorted order, equals the count taken in
      listing order. */
  lemma {:induction false} ShownFilesAreVisible(n: Node)
    ensures ShownFiles(n) == VisibleFiles(n)
    decreases n
  {
    if Listable(n) {
      forall c | c in n.children && c.Dir?
        ensures ShownFiles(c) == VisibleFiles(c)
      {
        ShownFilesAreVisible(c);
      }
      var entries := SortByName(n.children);
      ShownFilesFromSum(n, entries, 0);
      assert entries[0..] == entries;
      VisibleAmongPermutation(entries, n.children);
    }
  }

  /** No entry anywhere below `n` (that `os.walk` reaches) has an ignored name. */
  predicate NothingIgnored(n: Node)
    decreases n
  {
    Listable(n) ==>
      forall i :: 0 <= i < |n.children| ==>
        n.children[i].name !in IgnoredDirs && NothingIgnored(n.children[i])
  }

  /** Ignoring entries only lowers the count; without ignored names the
      tree counts every file that `os.walk` would. */
  lemma {:induction false} VisibleAtMostAll(n: Node)
    ensures VisibleFiles(n) <= FileCount(n)
    ensures NothingIgnored(n) ==> VisibleFiles(n) == FileCount(n)
    decreases n, 1
  {
    if Listable(n) {
      VisibleAmongAtMostAll(n.children);
    }
  }

  lemma {:induction false} VisibleAmongAtMostAll(cs: seq<Node>)
    ensures VisibleAmong(cs) <= FileCountAmong(cs)
    ensures (forall i :: 0 <= i < |cs| ==> cs[i].name !in IgnoredDirs && NothingIgnored(cs[i])) ==>
      VisibleAmong(cs) == FileCountAmong(cs)
    decreases cs, 0
  {
    if cs != [] {
      VisibleAmongAtMostAll(cs[1..]);
      if cs[0].Dir? {
        VisibleAtMostAll(cs[0]);
      }
      if cs[0].Dir? && !Listable(cs[0]) {
        assert VisibleFiles(cs[0]) == 0 == FileCount(cs[0]);
      }
    }
  }

  // ---------------------------------------------------------------------
  // Lines of the tree
  // ---------------------------------------------------------------------

  predicate AllStartWith(lines: seq<string>, prefix: string) {
    forall i :: 0 <= i < |lines| ==> StartsWith(lines[i], prefix)
  }

  lemma StartsWithConcat(prefix: string, more: string, tail: string)
    ensures StartsWith(prefix + more + tail, prefix)
  {
    assert (prefix + more + tail)[..|prefix|] == prefix;
  }

  lemma StartsWithTrans(s: string, p: string, q: string)
    requires StartsWith(s, p + q)
    ensures StartsWith(s, p)
  {
    assert s[..|p|] == (p + q)[..|p|];
  }

  /** Every line printed below a directory carries the indentation prefix
      of that directory, so the tree nests. */
  lemma {:induction false} TreeLinesIndented(n: Node, prefix: string)
    ensures AllStartWith(TreeLines(n, prefix), prefix)
    decreases n, 1
  {
    if Listable(n) {
      EntryLinesIndented(n, SortByName(n.children), 0, prefix);
    }
  }

  lemma {:induction false} EntryLinesIndented(n: Node, entries: seq<Node>, idx: nat, prefix: string)
    requires n.Dir? && multiset(entries) == multiset(n.children)
    ensures AllStartWith(EntryLines(n, entries, idx, prefix), prefix)
    decreases n, 0, |entries| - idx
  {
    if idx < |entries| {
      EntryLinesIndented(n, entries, idx + 1, prefix);
      var entry := entries[idx];
      var last := idx == |entries| - 1;
      if entry.name !in IgnoredDirs {
        assert entry in multiset(n.children);
        StartsWithConcat(prefix, Connector(last), entry.name);
        if entry.Dir? {
          var sub := TreeLines(entry, prefix + ChildPrefix(last));
          TreeLinesIndented(entry, prefix + ChildPrefix(last));
          forall i | 0 <= i < |sub| ensures StartsWith(sub[i], prefix) {
            StartsWithTrans(sub[i], prefix, ChildPrefix(last));
          }
        }
      }
    }
  }

  /** Each counted file has its own line, so the count never exceeds the
      number of lines. */
  lemma {:induction false} FilesHaveLines(n: Node, prefix: string)
    ensures ShownFiles(n) <= |TreeLines(n, prefix)|
    decreases n, 1
  {
    if Listable(n) {
      FilesFromHaveLines(n, SortByName(n.children), 0, prefix);
    }
  }

  lemma {:induction false} FilesFromHaveLines(n: Node, entries: seq<Node>, idx: nat, prefix: string)
    requires n.Dir? && multiset(entries) == multiset(n.children)
    ensures ShownFilesFrom(n, entries, idx) <= |EntryLines(n, entries, idx, prefix)|
    decreases n, 0, |entries| - idx
  {
    if idx < |entries| {
      FilesFromHaveLines(n, entries, idx + 1, prefix);
      var entry := entries[idx];
      if entry.name !in IgnoredDirs && entry.Dir? {
        assert entry in multiset(n.children);
        FilesHaveLines(entry, prefix + ChildPrefix(idx == |entries| - 1));
      }
    }
  }

  /** Entries below `n` that `walk` shows: every entry whose name is not
      ignored, and what lies below such a directory, in listing order. */
  function VisibleEntries(n: Node): nat
    decreases n, 1
  {
    if !Listable(n) then 0 else EntriesAmong(n.children)
  }

  function EntriesAmong(cs: seq<Node>): nat
    decreases cs, 0
  {
    if cs == [] then 0 else EntryWeight(cs[0]) + EntriesAmong(cs[1..])
  }

  /** One line for the entry itself, plus the entries below a directory. */
  function EntryWeight(c: Node): nat
    decreases c, 2
  {
    if c.name in IgnoredDirs then 0 else if c.Dir? then 1 + VisibleEntries(c) else 1
  }

  lemma EntriesAmongAppend(a: seq<Node>, b: seq<Node>)
    ensures EntriesAmong(a + b) == EntriesAmong(a) + EntriesAmong(b)
  {
    if a != [] {
      assert (a + b)[0] == a[0];
      assert (a + b)[1..] == a[1..] + b;
      EntriesAmongAppend(a[1..], b);
      assert EntriesAmong(a + b) == EntryWeight(a[0]) + EntriesAmong(a[1..] + b);
    } else {
      assert a + b == b;
    }
  }

  lemma EntriesAmongRemove(b: seq<Node>, i: nat)
    requires i < |b|
    ensures EntriesAmong(b) == EntryWeight(b[i]) + EntriesAmong(b[..i] + b[i + 1..])
  {
    var before, after, one := b[..i], b[i + 1..], [b[i]];
    SplitAround(b, i);
    EntriesAmongAppend(before + one, after);
    EntriesAmongAppend(before, one);
    assert one[1..] == [];
    assert EntriesAmong(one) == EntryWeight(b[i]);
    EntriesAmongAppend(before, after);
  }

  /** The number of entries does not depend on the order of the listing. */
  lemma {:induction false} EntriesAmongPermutation(a: seq<Node>, b: seq<Node>)
    requires multiset(a) == multiset(b)
    ensures EntriesAmong(a) == EntriesAmong(b)
    decreases |a|
  {
    if a != [] {
      assert a[0] in multiset(b);
      var i :| 0 <= i < |b| && b[i] == a[0];
      var rest := b[..i] + b[i + 1..];
      RemoveAt(b, i);
      assert a == [a[0]] + a[1..];
      assert multiset(a[1..]) == multiset(a) - multiset{a[0]};
      EntriesAmongPermutation(a[1..], rest);
      EntriesAmongRemove(b, i);
    }
  }

  /** The tree prints exactly one line per entry it shows: one per
      non-ignored entry reached, none for an ignored one or for anything
      below it. */
  lemma {:induction false} TreeLinesCount(n: Node, prefix: string)
    ensures |TreeLines(n, prefix)| == VisibleEntries(n)
    decreases n, 1
  {
    if Listable(n) {
      var entries := SortByName(n.children);
      EntryLinesCount(n, entries, 0, prefix);
      assert entries[0..] == entries;
      EntriesAmongPermutation(entries, n.children);
    }
  }

  lemma {:induction false} EntryLinesCount(n: Node, entries: seq<Node>, idx: nat, prefix: string)
    requires n.Dir? && multiset(entries) == multiset(n.children) && idx <= |entries|
    ensures |EntryLines(n, entries, idx, prefix)| == EntriesAmong(entries[idx..])
    decreases n, 0, |entries| - idx
  {
    if idx < |entries| {
      EntryLinesCount(n, entries, idx + 1, prefix);
      assert entries[idx..] == [entries[idx]] + entries[idx + 1..];
      var entry := entries[idx];
      if entry.name !in IgnoredDirs && entry.Dir? {
        assert entry in multiset(n.children);
        TreeLinesCount(entry, prefix + ChildPrefix(idx == |entries| - 1));
      }
    }
  }

  /** The connector is chosen by position among all sorted entries, so when
      an ignored entry sorts last the last line shown still reads "├── ". */
  lemma IgnoredLastEntryKeepsBranch()
    ensures TreeLines(Dir("repo", [File("README.md", Unreadable), Dir("venv", [], true)], true), "")
      == ["├── README.md"]
  {
    var readme := File("README.md", Unreadable);
    var venv := Dir("venv", [], true);
    var n := Dir("repo", [readme, venv], true);
    assert LexLe(readme.name, venv.name);
    assert SortByName([venv]) == [venv];
    assert SortByName(n.children) == [readme, venv];
    assert "venv" in IgnoredDirs;
    assert EntryLines(n, [readme, venv], 2, "") == [];
    assert EntryLines(n, [readme, venv], 1, "") == [];
    assert EntryLines(n, [readme, venv], 0, "") == ["" + Connector(false) + "README.md"];
    assert "" + Connector(false) + "README.md" == "├── README.md";
    assert TreeLines(n, "") == EntryLines(n, [readme, venv], 0, "");
  }

  // ---------------------------------------------------------------------
  // Modules: top-level folders and their key files
  // ---------------------------------------------------------------------

  const KeyFileNames: set<string> := {"index.ts", "index.tsx", "index.js", "main.py", "app.py"}

  /** The top-level folders, in listing order: directories of the root
      whose names are not ignored; none when the root cannot be listed. */
  function TopLevel(root: Node): (r: seq<Node>)
    ensures forall c :: c in r <==> Listable(root) && c in root.children && c.Dir? && c.name !in IgnoredDirs
  {
    if !Listable(root) then [] else TopLevelAmong(root.children)
  }

  function TopLevelAmong(cs: seq<Node>): (r: seq<Node>)
    ensures forall c :: c in r <==> c in cs && c.Dir? && c.name !in IgnoredDirs
  {
    if cs == [] then []
    else (if cs[0].Dir? && cs[0].name !in IgnoredDirs then [cs[0]] else []) + TopLevelAmong(cs[1..])
  }

  /** Relative paths of the key files among `files`, in order. */
  function KeyFilesAmong(root: string, files: seq<Node>): (r: seq<string>)
    ensures |r| <= |files|
  {
    if files == [] then []
    else
      var f := files[|files| - 1];
      KeyFilesAmong(root, files[..|files| - 1]) + (if f.name in KeyFileNames then [PathJoin(root, f.name)] else [])
  }

  /** `p` is the step's root joined with the name of one of its files, and
      that name is one of the key file names. */
  predicate KeyFileOf(root: string, files: seq<Node>, p: string) {
    exists j :: 0 <= j < |files| && files[j].name in KeyFileNames && p == PathJoin(root, files[j].name)
  }

  lemma {:induction false} KeyFilesAmongNamed(root: string, files: seq<Node>)
    ensures forall i :: 0 <= i < |KeyFilesAmong(root, files)| ==> KeyFileOf(root, files, KeyFilesAmong(root, files)[i])
  {
    if files != [] {
      var init := files[..|files| - 1];
      var f := files[|files| - 1];
      KeyFilesAmongNamed(root, init);
      var r := KeyFilesAmong(root, files);
      var head := KeyFilesAmong(root, init);
      assert r == head + (if f.name in KeyFileNames then [PathJoin(root, f.name)] else []);
      forall i | 0 <= i < |r|
        ensures KeyFileOf(root, files, r[i])
      {
        if i < |head| {
          assert KeyFileOf(root, init, head[i]);
          var j :| 0 <= j < |init| && init[j].name in KeyFileNames && head[i] == PathJoin(root, init[j].name);
          assert files[j] == init[j];
        } else {
          assert files[|files| - 1] == f;
        }
      }
    }
  }

  /** A key file found in a step lies below the walked folder. */
  lemma KeyFilesAmongUnder(path: string, root: string, files: seq<Node>)
    requires RootUnder(path, root) && forall j :: 0 <= j < |files| ==> PlainName(files[j].name)
    ensures forall i :: 0 <= i < |KeyFilesAmong(root, files)| ==> StartsWith(KeyFilesAmong(root, files)[i], path + "/")
  {
    KeyFilesAmongNamed(root, files);
    var r := KeyFilesAmong(root, files);
    forall i | 0 <= i < |r| ensures StartsWith(r[i], path + "/") {
      assert KeyFileOf(root, files, r[i]);
      var j :| 0 <= j < |files| && files[j].name in KeyFileNames && r[i] == PathJoin(root, files[j].name);
      PathJoinPlain(root, files[j].name);
      assert r[i][..|path| + 1] == (root + "/")[..|path| + 1];
    }
  }

  /** Every key file of `os.walk`, step after step. */
  function KeyFilesOf(steps: seq<WalkStep>): seq<string> {
    if steps == [] then []
    else KeyFilesOf(steps[..|steps| - 1]) + KeyFilesAmong(steps[|steps| - 1].root, steps[|steps| - 1].files)
  }

  /** Every key file the walk of a folder finds lies below that folder. */
  lemma {:induction false} KeyFilesOfUnder(path: string, steps: seq<WalkStep>)
    requires StepsUnder(path, steps)
    ensures forall i :: 0 <= i < |KeyFilesOf(steps)| ==> StartsWith(KeyFilesOf(steps)[i], path + "/")
  {
    if steps != [] {
      var last := steps[|steps| - 1];
      KeyFilesOfUnder(path, steps[..|steps| - 1]);
      KeyFilesAmongUnder(path, last.root, last.files);
    }
  }

  /** The number of steps processed: the first prefix that has found at
      least three key files, or all steps. */
  function StopAfter(steps: seq<WalkStep>, k: nat): (r: nat)
    requires k <= |steps|
    ensures k <= r <= |steps|
    decreases |steps| - k
  {
    if k == |steps| then k
    else if |KeyFilesOf(steps[..k + 1])| >= 3 then k + 1
    else StopAfter(steps, k + 1)
  }

  /** The key files the loop with its `break` collects. */
  function KeyFilesCut(steps: seq<WalkStep>): seq<string> {
    KeyFilesOf(steps[..StopAfter(steps, 0)])
  }

  /** The key-file loop of one module folder over its `os.walk` steps. */
  method CollectKeyFiles(steps: seq<WalkStep>) returns (keyFiles: seq<string>)
    ensures keyFiles == KeyFilesCut(steps)
  {
    keyFiles := [];
    for k := 0 to |steps|
      invariant keyFiles == KeyFilesOf(steps[..k]) && |keyFiles| < 3
      invariant StopAfter(steps, k) == StopAfter(steps, 0)
    {
      keyFiles := AppendKeyFiles(keyFiles, steps[k].root, steps[k].files);
      assert steps[..k + 1][..k] == steps[..k];
      assert keyFiles == KeyFilesOf(steps[..k + 1]);
      if |keyFiles| >= 3 {
        assert StopAfter(steps, k) == k + 1;
        break;
      }
      assert StopAfter(steps, k) == StopAfter(steps, k + 1);
    }
    assert steps[..|steps|] == steps;
  }

  /** The inner loop over the files of one `os.walk` step: each file with
      a key name is appended as `os.path.join(root, file)`. */
  method AppendKeyFiles(keyFiles: seq<string>, root: string, files: seq<Node>) returns (r: seq<string>)
    ensures r == keyFiles + KeyFilesAmong(root, files)
  {
    r := keyFiles;
    for j := 0 to |files|
      invariant r == keyFiles + KeyFilesAmong(root, files[..j])
    {
      assert files[..j + 1][..j] == files[..j];
      if files[j].name in KeyFileNames {
        r := r + [PathJoin(root, files[j].name)];
      }
    }
    assert files[..|files|] == files;
  }

  lemma {:induction false} KeyFilesOfPrefix(steps: seq<WalkStep>, k: nat)
    requires k <= |steps|
    ensures KeyFilesOf(steps[..k]) <= KeyFilesOf(steps)
    decreases |steps|
  {
    if k < |steps| {
      var init := steps[..|steps| - 1];
      KeyFilesOfPrefix(init, k);
      assert init[..k] == steps[..k];
    } else {
      assert steps[..k] == steps;
    }
  }

  lemma {:induction false} StopAfterShort(steps: seq<WalkStep>, k: nat)
    requires k <= |steps|
    requires |KeyFilesOf(steps[..StopAfter(steps, k)])| < 3
    ensures StopAfter(steps, k) == |steps|
    decreases |steps| - k
  {
    if k < |steps| && |KeyFilesOf(steps[..k + 1])| < 3 {
      StopAfterShort(steps, k + 1);
    }
  }

  lemma {:induction false} StopAfterBefore(steps: seq<WalkStep>, k: nat)
    requires k <= |steps| && (k == 0 || |KeyFilesOf(steps[..k])| < 3)
    ensures StopAfter(steps, k) == 0 || |KeyFilesOf(steps[..StopAfter(steps, k) - 1])| < 3
    decreases |steps| - k
  {
    if k == |steps| {
      assert StopAfter(steps, k) == k;
      if k > 0 {
        var init := steps[..k];
        KeyFilesOfPrefix(init, k - 1);
        assert init[..k - 1] == steps[..k - 1];
        assert |KeyFilesOf(steps[..k - 1])| <= |KeyFilesOf(init)|;
      }
    } else if |KeyFilesOf(steps[..k + 1])| < 3 {
      assert StopAfter(steps, k) == StopAfter(steps, k + 1);
      StopAfterBefore(steps, k + 1);
    } else {
      assert StopAfter(steps, k) == k + 1;
    }
  }

  /** The collected key files are the first ones `os.walk` meets, in walk
      order; fewer than three only when the folder has no more. */
  lemma KeyFilesCutIsPrefix(steps: seq<WalkStep>)
    ensures KeyFilesCut(steps) <= KeyFilesOf(steps)
    ensures |KeyFilesCut(steps)| < 3 ==> KeyFilesCut(steps) == KeyFilesOf(steps)
  {
    KeyFilesOfPrefix(steps, StopAfter(steps, 0));
    if |KeyFilesCut(steps)| < 3 {
      StopAfterShort(steps, 0);
      assert steps[..|steps|] == steps;
    }
  }

  predicate DistinctNames(files: seq<Node>) {
    forall i, j :: 0 <= i < j < |files| ==> files[i].name != files[j].name
  }

  /** The number of `files` whose name is in `names`. */
  function CountNamedIn(files: seq<Node>, names: set<string>): nat {
    if files == [] then 0
    else CountNamedIn(files[..|files| - 1], names) + (if files[|files| - 1].name in names then 1 else 0)
  }

  lemma {:induction false} KeyFilesAmongCount(root: string, files: seq<Node>)
    ensures |KeyFilesAmong(root, files)| == CountNamedIn(files, KeyFileNames)
    decreases |files|
  {
    if files != [] {
      KeyFilesAmongCount(root, files[..|files| - 1]);
    }
  }

  lemma {:induction false} CountNamedInBound(files: seq<Node>, names: set<string>)
    requires DistinctNames(files)
    ensures CountNamedIn(files, names) <= |names|
    decreases |files|
  {
    if files != [] {
      var init := files[..|files| - 1];
      var last := files[|files| - 1].name;
      CountNamedInBound(init, names - {last});
      CountNamedInSame(init, names, last);
    }
  }

  lemma {:induction false} CountNamedInSame(files: seq<Node>, names: set<string>, x: string)
    requires forall i :: 0 <= i < |files| ==> files[i].name != x
    ensures CountNamedIn(files, names) == CountNamedIn(files, names - {x})
    decreases |files|
  {
    if files != [] {
      CountNamedInSame(files[..|files| - 1], names, x);
    }
  }

  /** With distinct file names in every directory, the step that crosses
      the threshold adds at most five key files to at most two: a module
      lists at most seven. */
  lemma KeyFilesCutBound(steps: seq<WalkStep>)
    requires forall k :: 0 <= k < |steps| ==> DistinctNames(steps[k].files)
    ensures |KeyFilesCut(steps)| <= 7
  {
    var s := StopAfter(steps, 0);
    StopAfterBefore(steps, 0);
    if s > 0 {
      var last := steps[s - 1];
      assert steps[..s][..s - 1] == steps[..s - 1];
      KeyFilesAmongCount(last.root, last.files);
      CountNamedInBound(last.files, KeyFileNames);
      assert |KeyFileNames| == 5;
    }
  }

  /** In a tree where the entries of every directory have distinct names,
      every `os.walk` step lists files with distinct names. */
  lemma {:induction false} WalkFilesDistinct(path: string, n: Node)
    requires WellFormed(n)
    ensures forall k :: 0 <= k < |Walk(path, n, {})| ==> DistinctNames(Walk(path, n, {})[k].files)
    decreases n, 1
  {
    if Listable(n) {
      FilesOfDistinct(n.children);
      WalkChildrenFilesDistinct(path, n.children);
    }
  }

  lemma {:induction false} WalkChildrenFilesDistinct(path: string, cs: seq<Node>)
    requires forall i :: 0 <= i < |cs| ==> WellFormed(cs[i])
    ensures forall k :: 0 <= k < |WalkChildren(path, cs, {})| ==> DistinctNames(WalkChildren(path, cs, {})[k].files)
    decreases cs, 0
  {
    if cs != [] {
      WalkChildrenFilesDistinct(path, cs[1..]);
      if cs[0].Dir? {
        WalkFilesDistinct(PathJoin(path, cs[0].name), cs[0]);
      }
    }
  }

  lemma {:induction false} FilesOfDistinct(cs: seq<Node>)
    requires DistinctNames(cs)
    ensures DistinctNames(FilesOf(cs))
  {
    if cs != [] {
      FilesOfDistinct(cs[1..]);
      var rest := FilesOf(cs[1..]);
      forall i | 0 <= i < |rest| ensures rest[i].name != cs[0].name {
        assert rest[i] in cs[1..];
      }
    }
  }

  datatype Module = Module(name: string, keyFiles: seq<string>)

  datatype Structure = Structure(totalFiles: nat, folderStructure: string, modules: seq<Module>)

  /** The module entry of one top-level folder; its `os.walk` starts at the
      folder's path relative to the repository, which is what
      `os.path.relpath` yields for each key file. */
  function ModuleOf(folder: Node): Module {
    Module(folder.name, KeyFilesCut(Walk(folder.name, folder, {})))
  }

  /** The module loop: one entry per top-level folder, in order. */
  method CollectModules(topLevel: seq<Node>) returns (modules: seq<Module>)
    ensures |modules| == |topLevel|
    ensures forall i :: 0 <= i < |modules| ==> modules[i] == ModuleOf(topLevel[i])
  {
    modules := [];
    for i := 0 to |topLevel|
      invariant |modules| == i
      invariant forall m :: 0 <= m < i ==> modules[m] == ModuleOf(topLevel[m])
    {
      var folder := topLevel[i];
      var keyFiles := CollectKeyFiles(Walk(folder.name, folder, {}));
      modules := modules + [Module(folder.name, keyFiles)];
    }
  }

  /** `parse_structure(repo_path)`. */
  method Parse(repoPath: string, root: Node) returns (s: Structure)
    ensures s.totalFiles == VisibleFiles(root)
    ensures s.folderStructure == Join([Basename(repoPath)] + TreeLines(root, ""), "\n")
    ensures |s.modules| == |TopLevel(root)|
    ensures forall i :: 0 <= i < |s.modules| ==> s.modules[i] == ModuleOf(TopLevel(root)[i])
    ensures |TreeLines(root, "")| == VisibleEntries(root)
    ensures PlainNamesBelow(root) ==> forall i, j :: 0 <= i < |s.modules| && 0 <= j < |s.modules[i].keyFiles| ==>
      StartsWith(s.modules[i].keyFiles[j], s.modules[i].name + "/")
  {
    var parser := new StructureParser(Basename(repoPath));
    parser.WalkDir(root, "");
    ShownFilesAreVisible(root);
    var modules := CollectModules(TopLevel(root));
    s := Structure(parser.totalFiles, Join(parser.treeLines, "\n"), modules);
    TreeLinesCount(root, "");
    if PlainNamesBelow(root) {
      forall i | 0 <= i < |s.modules|
        ensures forall j :: 0 <= j < |s.modules[i].keyFiles| ==> StartsWith(s.modules[i].keyFiles[j], s.modules[i].name + "/")
      {
        var folder := TopLevel(root)[i];
        assert folder in TopLevel(root);
        var k :| 0 <= k < |root.children| && root.children[k] == folder;
        ModuleKeyFilesUnderFolder(folder);
      }
    }
  }

  /** Every key file of a module lies inside the module's folder: its path
      starts with the folder's name and a slash. */
  lemma ModuleKeyFilesUnderFolder(folder: Node)
    requires PlainName(folder.name) && PlainNamesBelow(folder)
    ensures forall i :: 0 <= i < |ModuleOf(folder).keyFiles| ==> StartsWith(ModuleOf(folder).keyFiles[i], folder.name + "/")
  {
    var steps := Walk(folder.name, folder, {});
    WalkStaysUnder(folder.name, folder, {});
    KeyFilesOfUnder(folder.name, steps);
    KeyFilesCutIsPrefix(steps);
    var cut := KeyFilesCut(steps);
    forall i | 0 <= i < |cut| ensures StartsWith(cut[i], folder.name + "/") {
      assert cut[i] == KeyFilesOf(steps)[i];
    }
  }

  /** Every module lists at most seven key files, the first ones of its
      folder in walk order. */
  lemma ModuleKeyFilesBounded(root: Node, i: nat)
    requires WellFormed(root) && i < |TopLevel(root)|
    ensures |ModuleOf(TopLevel(root)[i]).keyFiles| <= 7
    ensures ModuleOf(TopLevel(root)[i]).keyFiles <= KeyFilesOf(Walk(TopLevel(root)[i].name, TopLevel(root)[i], {}))
  {
    var folder := TopLevel(root)[i];
    assert folder in TopLevel(root);
    var j :| 0 <= j < |root.children| && root.children[j] == folder;
    WalkFilesDistinct(folder.name, folder);
    KeyFilesCutBound(Walk(folder.name, folder, {}));
    KeyFilesCutIsPrefix(Walk(folder.name, folder, {}));
  }
}
