/** The fallback diagram writer (api/llm/just-incase/generate_mermaid.js,
    `toMermaid`): a header line, then one node per file for the first 50
    files, joined with newlines. */
module BackupMermaid {
  import opened Wrappers
  import opened Strings

  const Header := "graph TD"
  const FileLimit: nat := 50

  /** `f.replace(/`/g, '')`. */
  function Unquoted(f: string): string {
    ReplaceAll(f, "`", "")
  }

  /** Exactly the backticks are removed: none is left, every other
      character keeps its count, and a name without backticks is kept. */
  lemma {:induction false} UnquotedRemovesBackticks(f: string)
    ensures '`' !in Unquoted(f)
    ensures forall c :: c != '`' ==> multiset(Unquoted(f))[c] == multiset(f)[c]
    ensures '`' !in f ==> Unquoted(f) == f
    decreases |f|
  {
    if |f| >= 1 {
      UnquotedRemovesBackticks(f[1..]);
      assert f == [f[0]] + f[1..];
    }
  }

  /** `A --> F${i}(${name})`. */
  function FileLine(i: nat, f: string): string {
    "A --> F" + NatToString(i) + "(" + Unquoted(f) + ")"
  }

  /** The lines before joining: the header, then one per shown file. */
  function Lines(files: seq<string>): seq<string> {
    var shown := Take(files, FileLimit);
    [Header] + seq(|shown|, i requires 0 <= i < |shown| => FileLine(i, shown[i]))
  }

  /** `toMermaid(data)`, where `data.files || []` makes a missing list
      empty. */
  function ToMermaid(files: Option<seq<string>>): string {
    var fs := if files.Some? then files.value else [];
    Join(Lines(fs), "\n")
  }

  /** The diagram always begins with the header. */
  lemma StartsWithHeader(files: Option<seq<string>>)
    ensures StartsWith(ToMermaid(files), Header)
  {
    var fs := if files.Some? then files.value else [];
    JoinStartsWith(Lines(fs), "\n");
  }

  /** Without files, or without a file list at all, the diagram is the
      header alone. */
  lemma MissingFilesHeaderOnly()
    ensures ToMermaid(None) == Header
    ensures ToMermaid(Some([])) == Header
  {
    assert Lines([]) == [Header];
  }

  /** A file line holds no newline when its file name holds none. */
  lemma FileLineSingle(i: nat, f: string)
    requires '\n' !in f
    ensures '\n' !in FileLine(i, f)
  {
    var d := NatToString(i);
    assert forall k :: 0 <= k < |d| ==> d[k] != '\n';
  }

  /** When no file name holds a newline, the diagram splits back into the
      header and one line per file among the first 50, line `i + 1` naming
      file `i`. */
  lemma LinesOfDiagram(files: seq<string>)
    requires forall k :: 0 <= k < |files| ==> '\n' !in files[k]
    ensures var ls := SplitChar(ToMermaid(Some(files)), '\n');
      && |ls| == 1 + Min(FileLimit, |files|)
      && ls[0] == Header
      && forall i :: 0 <= i < |ls| - 1 ==> ls[i + 1] == FileLine(i, files[i])
  {
    var ls := Lines(files);
    forall k | 0 <= k < |ls|
      ensures '\n' !in ls[k]
    {
      if k > 0 {
        FileLineSingle(k - 1, files[k - 1]);
      }
    }
    JoinSplit(ls, '\n');
  }

  /** No backtick survives anywhere in the diagram. */
  lemma NoBackticks(files: Option<seq<string>>)
    ensures '`' !in ToMermaid(files)
  {
    var fs := if files.Some? then files.value else [];
    var ls := Lines(fs);
    forall k | 0 <= k < |ls|
      ensures '`' !in ls[k]
    {
      if k > 0 {
        var d := NatToString(k - 1);
        assert forall j :: 0 <= j < |d| ==> d[j] != '`';
        UnquotedRemovesBackticks(fs[k - 1]);
      }
    }
    JoinExcludes(ls, "\n", '`');
  }
}
