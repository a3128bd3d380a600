/** The language-model exchange of api/generate_summary.js: the user prompt
    built from a repository shape (`generateUserPrompt`) and the parse of
    the model's markdown answer into sections (`parseSummaryResponse`).
    The system prompt (`generateSystemPrompt`) is a constant text. */
module SummaryPrompt {
  import opened Wrappers
  import opened Strings

  /** Keyed lists in insertion order (`Object.entries`). */
  type Groups = seq<(string, seq<string>)>

  /** The fields of the repository shape the prompt reads; a field the
      shape lacks is None. */
  datatype PromptInput = PromptInput(
    url: Option<string>,
    languages: Option<seq<string>>,
    frameworks: Option<seq<string>>,
    fileCount: Option<nat>,
    hasDockerfile: bool,
    topLevelDirectories: Option<seq<string>>,
    dependencies: Option<Groups>,
    apiEndpoints: Option<Groups>)

  // ---------------------------------------------------------------------
  // generateUserPrompt
  // ---------------------------------------------------------------------

  const Opening := "Please analyze this GitHub repository:\n\n"

  /** The three numbered requests that close every prompt. */
  const Requests := "Based on this information, please provide:\n"
    + "1. A 3-sentence high-level summary\n"
    + "2. Top 5 hotspots (issues, areas for improvement, or interesting patterns)\n"
    + "3. A 3-step onboarding checklist for new developers\n"

  const DependencyHeading := "**Dependencies:**\n"
  const EndpointHeading := "**API Endpoints:**\n"

  /** How many dependencies per manager, and endpoints per type, are named. */
  const DependencyLimit := 10
  const EndpointLimit := 5

  /** `${value}` of a field that may be missing: JavaScript writes
      `undefined`. */
  function Interpolated(field: Option<string>): string {
    match field
    case None => "undefined"
    case Some(s) => s
  }

  function CountText(field: Option<nat>): string {
    match field
    case None => "undefined"
    case Some(n) => NatToString(n)
  }

  /** A keyed list as the prompt shows it: the first names, and how many
      are not named. */
  datatype Abbreviation = Abbreviation(key: string, shown: seq<string>, hidden: nat)

  function Abbreviate(key: string, xs: seq<string>, limit: nat): Abbreviation {
    var shown := Take(xs, limit);
    Abbreviation(key, shown, |xs| - |shown|)
  }

  /** The names shown are a prefix of the list of at most `limit` names,
      and the count hidden is the rest: together they account for every
      name. */
  lemma AbbreviationAccounts(key: string, xs: seq<string>, limit: nat)
    ensures var a := Abbreviate(key, xs, limit);
      && a.key == key && |a.shown| <= limit && |a.shown| <= |xs|
      && a.shown + xs[|a.shown|..] == xs
      && a.hidden == |xs| - |a.shown|
      && (a.hidden > 0 <==> |xs| > limit)
  {
    var shown := Take(xs, limit);
    assert shown + xs[|shown|..] == xs;
  }

  /** `- key: a, b, c (+N more)`. */
  function AbbreviationLine(key: string, xs: seq<string>, limit: nat): string {
    var a := Abbreviate(key, xs, limit);
    "- " + a.key + ": " + Join(a.shown, ", ")
      + (if a.hidden > 0 then " (+" + NatToString(a.hidden) + " more)" else "") + "\n"
  }

  /** The line of one key, none when its list is empty. */
  function GroupLine(group: (string, seq<string>), limit: nat): string {
    if |group.1| > 0 then AbbreviationLine(group.0, group.1, limit) else ""
  }

  /** One line per key whose list is non-empty, in order. */
  function GroupsText(groups: Groups, limit: nat): string {
    if groups == [] then ""
    else GroupsText(groups[..|groups| - 1], limit) + GroupLine(groups[|groups| - 1], limit)
  }

  /** A heading, the lines and a blank line, when the object has keys. */
  function GroupBlock(heading: string, field: Option<Groups>, limit: nat): string {
    var groups := field.GetOr([]);
    if |groups| > 0 then heading + GroupsText(groups, limit) + "\n" else ""
  }

  function FieldsText(input: PromptInput): string {
    "**Repository URL:** " + Interpolated(input.url) + "\n\n"
      + "**Languages Detected:** " + Join(input.languages.GetOr([]), ", ") + "\n"
      + "**Frameworks:** " + Join(input.frameworks.GetOr([]), ", ") + "\n"
      + "**File Count:** " + CountText(input.fileCount) + "\n"
      + "**Has Dockerfile:** " + (if input.hasDockerfile then "Yes" else "No") + "\n"
      + "**Top-level Directories:** " + Join(input.topLevelDirectories.GetOr([]), ", ") + "\n\n"
  }

  /** What the prompt says about the repository. */
  function PromptBody(input: PromptInput): string {
    FieldsText(input)
      + GroupBlock(DependencyHeading, input.dependencies, DependencyLimit)
      + GroupBlock(EndpointHeading, input.apiEndpoints, EndpointLimit)
  }

  /** The whole prompt, section after section. */
  function PromptText(input: PromptInput): string {
    Opening + PromptBody(input) + Requests
  }

  /** The loop over `Object.entries(...)`: one line per non-empty list,
      in order. */
  method GroupLinesText(groups: Groups, limit: nat) returns (lines: string)
    ensures lines == GroupsText(groups, limit)
  {
    lines := "";
    var i := 0;
    while i < |groups|
      invariant i <= |groups|
      invariant lines == GroupsText(groups[..i], limit)
    {
      assert groups[..i + 1][..i] == groups[..i];
      var (key, xs) := groups[i];
      if |xs| > 0 {
        lines := lines + AbbreviationLine(key, xs, limit);
      }
      i := i + 1;
    }
    assert groups[..i] == groups;
  }

  /** `if (Object.keys(field).length > 0) { ... }`: the heading, the
      lines and a blank line. */
  method AppendGroupBlock(prompt: string, heading: string, field: Option<Groups>, limit: nat)
    returns (out: string)
    ensures out == prompt + GroupBlock(heading, field, limit)
  {
    out := prompt;
    var groups := field.GetOr([]);
    if |groups| > 0 {
      var lines := GroupLinesText(groups, limit);
      out := out + heading + lines + "\n";
    }
  }

  /** `generateUserPrompt(repoShape)`. */
  method UserPrompt(input: PromptInput) returns (prompt: string)
    ensures prompt == PromptText(input)
  {
    prompt := Opening;
    var body := FieldsText(input);
    body := AppendGroupBlock(body, DependencyHeading, input.dependencies, DependencyLimit);
    body := AppendGroupBlock(body, EndpointHeading, input.apiEndpoints, EndpointLimit);
    prompt := prompt + body;
    prompt := prompt + Requests;
  }

  lemma Framed(a: string, m: string, b: string)
    ensures StartsWith(a + m + b, a) && EndsWith(a + m + b, b)
  {
    assert (a + m + b)[..|a|] == a;
    assert (a + m + b)[|a + m|..] == b;
  }

  /** Every prompt opens with the greeting and closes with the three
      numbered requests. */
  lemma PromptFrame(input: PromptInput)
    ensures StartsWith(PromptText(input), Opening)
    ensures EndsWith(PromptText(input), Requests)
  {
    Framed(Opening, PromptBody(input), Requests);
  }

  /** The dependency section is present exactly when the dependencies
      object has keys, even if every list is empty. */
  lemma DependencySectionOnlyWithKeys(field: Option<Groups>)
    ensures field.None? || field.value == [] ==> GroupBlock(DependencyHeading, field, DependencyLimit) == ""
    ensures field.Some? && field.value != [] ==>
      StartsWith(GroupBlock(DependencyHeading, field, DependencyLimit), DependencyHeading)
  {
  }

  /** A key whose list is empty adds no line. */
  lemma {:induction false} EmptyListSkipped(groups: Groups, key: string, limit: nat)
    ensures GroupsText(groups + [(key, [])], limit) == GroupsText(groups, limit)
  {
    assert (groups + [(key, [])])[..|groups|] == groups;
  }

  /** Lists are named in full up to the limit; past it the first `limit`
      names are followed by the count of the rest. */
  lemma AbbreviationCounts(key: string, xs: seq<string>, limit: nat)
    ensures |xs| <= limit ==>
      AbbreviationLine(key, xs, limit) == "- " + key + ": " + Join(xs, ", ") + "\n"
    ensures |xs| > limit ==>
      AbbreviationLine(key, xs, limit)
        == "- " + key + ": " + Join(xs[..limit], ", ") + " (+" + NatToString(|xs| - limit) + " more)\n"
  {
    var a := Abbreviate(key, xs, limit);
    AbbreviationAccounts(key, xs, limit);
    if |xs| <= limit {
      assert a.shown == xs;
    } else {
      assert a.shown == xs[..limit];
    }
  }

  // ---------------------------------------------------------------------
  // parseSummaryResponse
  // ---------------------------------------------------------------------

  /** The characters `.` does not match and after which `^` matches in a
      multiline regex. */
  predicate LineTerminator(c: char) { c == '\n' || c == '\r' }

  predicate SingleLine(s: string) { forall k :: 0 <= k < |s| ==> !LineTerminator(s[k]) }

  predicate Trimmed(s: string) { s == [] || (!IsSpace(s[0]) && !IsSpace(s[|s| - 1])) }

  /** What every list item is: one line, with no blank at either end. */
  predicate ItemShape(s: string) { Trimmed(s) && SingleLine(s) }

  /** End of the longest run of `\s` from `p`. */
  function SkipSpace(s: string, p: nat): (q: nat)
    requires p <= |s|
    decreases |s| - p
    ensures p <= q <= |s|
    ensures forall k :: p <= k < q ==> IsSpace(s[k])
    ensures q < |s| ==> !IsSpace(s[q])
  {
    if p < |s| && IsSpace(s[p]) then SkipSpace(s, p + 1) else p
  }

  /** End of the longest run of `\d` from `p`. */
  function SkipDigits(s: string, p: nat): (q: nat)
    requires p <= |s|
    decreases |s| - p
    ensures p <= q <= |s|
    ensures forall k :: p <= k < q ==> IsDigit(s[k])
    ensures q < |s| ==> !IsDigit(s[q])
  {
    if p < |s| && IsDigit(s[p]) then SkipDigits(s, p + 1) else p
  }

  /** End of the line through `p`: the next terminator, or the end. */
  function LineEnd(s: string, p: nat): (q: nat)
    requires p <= |s|
    decreases |s| - p
    ensures p <= q <= |s|
    ensures forall k :: p <= k < q ==> !LineTerminator(s[k])
    ensures q < |s| ==> LineTerminator(s[q])
  {
    if p < |s| && !LineTerminator(s[p]) then LineEnd(s, p + 1) else p
  }

  /** The last position in [p, q) that is not a line terminator. */
  function LastOnLine(s: string, p: nat, q: nat): (r: Option<nat>)
    requires p <= q <= |s|
    decreases q - p
    ensures r.Some? ==> p <= r.value < q && !LineTerminator(s[r.value])
    ensures r.Some? ==> forall k :: r.value < k < q ==> LineTerminator(s[k])
    ensures r.None? ==> forall k :: p <= k < q ==> LineTerminator(s[k])
  {
    if p == q then None
    else if !LineTerminator(s[q - 1]) then Some(q - 1)
    else LastOnLine(s, p, q - 1)
  }

  /** A list item found in a section: its value, and where its match ends. */
  datatype ItemMatch = ItemMatch(value: string, end: nat)

  /** The tail `\s*(.+)$` of an item pattern from position `p`, with the
      `m` flag, followed by the greedy prefix removal and `trim()`.
      The engine first takes the whole run of whitespace; when text
      follows it, `.+` is the rest of that line. When the run reaches the
      end, it gives back characters until `.+` can start on a blank that
      is not a line break, and the item is then blank. */
  function TailAt(s: string, p: nat): (r: Option<ItemMatch>)
    requires p <= |s|
    ensures r.Some? ==> p < r.value.end <= |s|
  {
    var w := SkipSpace(s, p);
    if w < |s| then
      var e := LineEnd(s, w);
      Some(ItemMatch(Strip(s[w..e]), e))
    else
      match LastOnLine(s, p, w)
      case None => None
      case Some(q) =>
        var e := LineEnd(s, q);
        Some(ItemMatch(Strip(s[q..e]), e))
  }

  /** An item is the trimmed rest of one line: nothing from the next line
      is ever part of it. */
  lemma TailAtShape(s: string, p: nat)
    requires p <= |s|
    ensures TailAt(s, p).Some? ==> ItemShape(TailAt(s, p).value.value)
  {
    var w := SkipSpace(s, p);
    if w < |s| {
      StripOneLine(s[w..LineEnd(s, w)]);
    } else if LastOnLine(s, p, w).Some? {
      var q := LastOnLine(s, p, w).value;
      StripBlank(s[q..LineEnd(s, q)]);
    }
  }

  lemma StripOneLine(t: string)
    requires SingleLine(t)
    ensures SingleLine(Strip(t))
  {
    var r := Strip(t);
    forall k | 0 <= k < |r|
      ensures !LineTerminator(r[k])
    {
      assert r[k] in t;
    }
  }

  lemma StripBlank(t: string)
    requires forall k :: 0 <= k < |t| ==> IsSpace(t[k])
    ensures Strip(t) == []
  {
  }

  predicate LineStart(s: string, i: nat) {
    i == 0 || (i <= |s| && LineTerminator(s[i - 1]))
  }

  /** The two item patterns: `^\d+\.\s*(.+)$` for numbered hotspots and
      `^\s*-\s*\[\s*\]\s*(.+)$` for checklist entries. */
  datatype ItemRule = Numbered | Checkbox

  /** Where the part of an item pattern before its tail ends, when it
      matches at `i`: after `\d+\.`, or after `\s*-\s*\[\s*\]`. Each `\s*` or
      `\d+` before a literal takes its whole run, since the literal is not
      in the class. */
  function PrefixEnd(rule: ItemRule, s: string, i: nat): (r: Option<nat>)
    requires i <= |s|
    ensures r.Some? ==> i < r.value <= |s|
  {
    match rule
    case Numbered =>
      var d := SkipDigits(s, i);
      if d == i || d == |s| || s[d] != '.' then None else Some(d + 1)
    case Checkbox =>
      var a := SkipSpace(s, i);
      if a == |s| || s[a] != '-' then None
      else
        var b := SkipSpace(s, a + 1);
        if b == |s| || s[b] != '[' then None
        else
          var c := SkipSpace(s, b + 1);
          if c == |s| || s[c] != ']' then None else Some(c + 1)
  }

  /** The match of an item pattern starting at `i`, if any. */
  function ItemAt(rule: ItemRule, s: string, i: nat): (r: Option<ItemMatch>)
    requires i <= |s|
    ensures r.Some? ==> i < r.value.end <= |s|
    ensures !LineStart(s, i) ==> r.None?
  {
    if !LineStart(s, i) then None
    else
      match PrefixEnd(rule, s, i)
      case None => None
      case Some(p) => TailAt(s, p)
  }

  /** The match of an item pattern tried at every position of `s`. */
  function Matches(rule: ItemRule, s: string): (t: seq<Option<ItemMatch>>)
    ensures |t| == |s|
    ensures forall k :: 0 <= k < |s| ==> t[k] == ItemAt(rule, s, k)
    ensures Resumable(t)
  {
    seq(|s|, k requires 0 <= k < |s| => ItemAt(rule, s, k))
  }

  /** Every match ends after it starts and within the text. */
  predicate Resumable(t: seq<Option<ItemMatch>>) {
    forall k :: 0 <= k < |t| && t[k].Some? ==> k < t[k].value.end <= |t|
  }

  /** The successive matches from `i` in a table of matches, each search
      resuming where the previous match ended. */
  function Scan(t: seq<Option<ItemMatch>>, i: nat): (r: seq<string>)
    requires Resumable(t) && i <= |t|
    decreases |t| - i
  {
    if i == |t| then []
    else
      match t[i]
      case Some(m) => [m.value] + Scan(t, m.end)
      case None => Scan(t, i + 1)
  }

  /** `text.match(pattern)` with the `g` flag, each match mapped through
      the prefix removal and `trim()`. */
  function Items(rule: ItemRule, s: string, i: nat): seq<string>
    requires i <= |s|
  {
    Scan(Matches(rule, s), i)
  }

  lemma ItemAtShape(rule: ItemRule, s: string, i: nat)
    requires i <= |s|
    ensures ItemAt(rule, s, i).Some? ==> ItemShape(ItemAt(rule, s, i).value.value)
  {
    if LineStart(s, i) && PrefixEnd(rule, s, i).Some? {
      TailAtShape(s, PrefixEnd(rule, s, i).value);
    }
  }

  /** A scan yields only values found in the table. */
  lemma {:induction false} ScanShape(t: seq<Option<ItemMatch>>, i: nat)
    requires Resumable(t) && i <= |t|
    requires forall k :: 0 <= k < |t| && t[k].Some? ==> ItemShape(t[k].value.value)
    ensures forall k :: 0 <= k < |Scan(t, i)| ==> ItemShape(Scan(t, i)[k])
    decreases |t| - i
  {
    if i < |t| {
      match t[i]
      case None =>
        ScanShape(t, i + 1);
      case Some(m) =>
        ScanShape(t, m.end);
        var rest := Scan(t, m.end);
        assert Scan(t, i) == [m.value] + rest;
        forall k | 0 <= k < |Scan(t, i)| ensures ItemShape(Scan(t, i)[k]) {
          if k > 0 {
            assert Scan(t, i)[k] == rest[k - 1];
          }
        }
    }
  }

  /** Every item found is one line, trimmed. */
  lemma ItemsShape(rule: ItemRule, s: string, i: nat)
    requires i <= |s|
    ensures forall k :: 0 <= k < |Items(rule, s, i)| ==> ItemShape(Items(rule, s, i)[k])
  {
    var t := Matches(rule, s);
    forall k | 0 <= k < |t| && t[k].Some?
      ensures ItemShape(t[k].value.value)
    {
      ItemAtShape(rule, s, k);
    }
    ScanShape(t, i);
  }

  /** After `##` at `p`: each word preceded by `\s*`, then a newline;
      the position after the newline. */
  function WordsAt(s: string, p: nat, words: seq<string>): (r: Option<nat>)
    requires p <= |s|
    decreases |words|
    ensures r.Some? ==> p < r.value <= |s| && s[r.value - 1] == '\n'
  {
    if words == [] then
      if p < |s| && s[p] == '\n' then Some(p + 1) else None
    else
      var w := SkipSpace(s, p);
      if OccursAt(s, words[0], w) then WordsAt(s, w + |words[0]|, words[1..]) else None
  }

  /** The heading pattern `##\s*W1\s*W2...\n` at position `i`: the start
      of the section body. */
  function HeadingAt(s: string, i: nat, words: seq<string>): (r: Option<nat>)
    ensures r.Some? ==> i + 2 < r.value <= |s|
  {
    if OccursAt(s, "##", i) then WordsAt(s, i + 2, words) else None
  }

  /** The leftmost heading match from `from` on: where it starts and where
      its body starts. */
  datatype Span = Span(start: nat, end: nat)

  function FindHeading(s: string, words: seq<string>, from: nat): (r: Option<Span>)
    requires from <= |s|
    decreases |s| - from
    ensures r.Some? ==> from <= r.value.start && HeadingAt(s, r.value.start, words) == Some(r.value.end)
    ensures r.Some? ==> forall j :: from <= j < r.value.start ==> HeadingAt(s, j, words).None?
    ensures r.None? ==> forall j :: from <= j ==> HeadingAt(s, j, words).None?
  {
    if from == |s| then None
    else
      match HeadingAt(s, from, words)
      case Some(e) => Some(Span(from, e))
      case None => FindHeading(s, words, from + 1)
  }

  /** `content.match(/##\s*Heading\n([\s\S]*?)(?=##|$)/)[1]`: the body after
      the first heading, up to the next `##` or the end of the text. */
  function Section(s: string, words: seq<string>): (r: Option<string>)
    ensures r.Some? ==> forall j :: !OccursAt(r.value, "##", j)
    ensures r.None? <==> forall j :: HeadingAt(s, j, words).None?
  {
    match FindHeading(s, words, 0)
    case None => None
    case Some(h) =>
      var k := match FindFrom(s, "##", h.end) case Some(k) => k case None => |s|;
      assert h.end <= k;
      SliceFree(s, "##", h.end, k);
      Some(s[h.end..k])
  }

  /** A slice of `s` inside which `p` never starts in `s` holds no `p`. */
  lemma SliceFree(s: string, p: string, a: nat, b: nat)
    requires |p| > 0 && a <= b <= |s|
    requires forall j :: a <= j < b ==> !OccursAt(s, p, j)
    ensures forall j :: !OccursAt(s[a..b], p, j)
  {
    forall j: nat | j + |p| <= b - a
      ensures !OccursAt(s[a..b], p, j)
    {
      var inner := s[a..b][j..j + |p|];
      assert inner == s[a + j..a + j + |p|] by {
        forall i | 0 <= i < |p| ensures inner[i] == s[a + j + i] {
        }
      }
      assert !OccursAt(s, p, a + j);
    }
  }

  const SummaryHeading := ["Summary"]
  const HotspotsHeading := ["Top", "5", "Hotspots"]
  const OnboardingHeading := ["Onboarding", "Checklist"]

  /** The sections filled from the model's answer. */
  datatype SummarySections = SummarySections(
    summary: string, hotspots: seq<string>, onboarding: seq<string>, raw: string)

  /** `parseSummaryResponse(content)`. */
  function ParseSummaryResponse(content: string): (r: SummarySections)
    ensures r.raw == content
    ensures Section(content, SummaryHeading).None? ==> r.summary == ""
    ensures Section(content, HotspotsHeading).None? ==> r.hotspots == []
    ensures Section(content, OnboardingHeading).None? ==> r.onboarding == []
  {
    var summary := match Section(content, SummaryHeading) case Some(t) => Strip(t) case None => "";
    var hotspots := match Section(content, HotspotsHeading) case Some(t) => Items(Numbered, t, 0) case None => [];
    var onboarding := match Section(content, OnboardingHeading) case Some(t) => Items(Checkbox, t, 0) case None => [];
    SummarySections(summary, hotspots, onboarding, content)
  }


  /** The summary is trimmed, and every hotspot and checklist entry is one
      trimmed line. */
  lemma ParsedShape(content: string)
    ensures var r := ParseSummaryResponse(content);
      && Trimmed(r.summary)
      && (forall k :: 0 <= k < |r.hotspots| ==> ItemShape(r.hotspots[k]))
      && (forall k :: 0 <= k < |r.onboarding| ==> ItemShape(r.onboarding[k]))
  {
    var hot := Section(content, HotspotsHeading);
    if hot.Some? {
      ItemsShape(Numbered, hot.value, 0);
    }
    var board := Section(content, OnboardingHeading);
    if board.Some? {
      ItemsShape(Checkbox, board.value, 0);
    }
  }

  /** An answer that opens with `## Summary` and a newline has its
      summary heading first, with the body right after it. */
  lemma SummaryHeadingFirst(s: string)
    requires |s| >= 11 && s[..11] == "## Summary\n"
    ensures FindHeading(s, SummaryHeading, 0) == Some(Span(0, 11))
  {
    SummaryWords(s);
    assert s[0..2] == s[..11][0..2];
    assert HeadingAt(s, 0, SummaryHeading) == Some(11);
  }

  lemma SummaryWords(s: string)
    requires |s| >= 11 && s[..11] == "## Summary\n"
    ensures WordsAt(s, 2, SummaryHeading) == Some(11)
  {
    assert s[2] == ' ' && s[3] == 'S' && s[10] == '\n' by {
      assert s[2] == s[..11][2] && s[3] == s[..11][3] && s[10] == s[..11][10];
    }
    SkipSpaceIs(s, 2, 3);
    assert s[3..10] == s[..11][3..10];
    assert WordsAt(s, 3 + 7, []) == Some(11);
  }

  /** An answer that opens with `## Summary` has for summary the trimmed
      text up to the next `##`, or to the end. */
  lemma LeadingSummary(body: string, rest: string)
    requires forall j :: 0 <= j < |body| ==> !OccursAt(body + rest, "##", j)
    requires rest == [] || StartsWith(rest, "##")
    ensures ParseSummaryResponse("## Summary\n" + body + rest).summary == Strip(body)
  {
    var s := "## Summary\n" + body + rest;
    var t := body + rest;
    assert s == "## Summary\n" + t;
    assert s[..11] == "## Summary\n";
    SummaryHeadingFirst(s);
    var k := 11 + |body|;
    ShiftedFree("## Summary\n", t, |body|);
    if rest != [] {
      assert s[k..k + 2] == rest[..2];
    }
    HeadingAtOrEnd(s, 11, k);
    assert s[11..k] == body;
  }

  /** The next "##" at or after `from` is at `k`, or there is none when `k`
      is the end of `s`. */
  lemma HeadingAtOrEnd(s: string, from: nat, k: nat)
    requires from <= k <= |s|
    requires forall j :: from <= j < k ==> !OccursAt(s, "##", j)
    requires k == |s| || OccursAt(s, "##", k)
    ensures FindFrom(s, "##", from) == if k == |s| then None else Some(k)
  {
  }

  /** Positions of `t` free of "##" stay free once `h` is put in front. */
  lemma ShiftedFree(h: string, t: string, n: nat)
    requires n <= |t|
    requires forall j :: 0 <= j < n ==> !OccursAt(t, "##", j)
    ensures forall j :: |h| <= j < |h| + n ==> !OccursAt(h + t, "##", j)
  {
    forall j | |h| <= j < |h| + n
      ensures !OccursAt(h + t, "##", j)
    {
      assert !OccursAt(t, "##", j - |h|);
      if j + 2 <= |h + t| {
        assert (h + t)[j..j + 2] == t[j - |h|..j - |h| + 2];
      }
    }
  }

  /** Over positions where nothing matches, the scan skips straight from
      one to the other. */
  lemma {:induction false} ScanSkip(t: seq<Option<ItemMatch>>, i: nat, j: nat)
    requires Resumable(t) && i <= j <= |t|
    requires forall k :: i <= k < j ==> t[k].None?
    ensures Scan(t, i) == Scan(t, j)
    decreases j - i
  {
    if i < j {
      ScanSkip(t, i + 1, j);
    }
  }

  /** A line that does not start with a digit gives no hotspot: the
      search resumes on the next line. */
  lemma UnnumberedLineSkipped(line: string, rest: string)
    requires SingleLine(line) && (line == [] || !IsDigit(line[0]))
    ensures Items(Numbered, line + "\n" + rest, 0) == Items(Numbered, line + "\n" + rest, |line| + 1)
  {
    var s := line + "\n" + rest;
    assert s[0] == if line == [] then '\n' else line[0];
    assert SkipDigits(s, 0) == 0;
    var t := Matches(Numbered, s);
    assert t[0].None?;
    forall k | 1 <= k < |line| + 1
      ensures t[k].None?
    {
      assert s[k - 1] == line[k - 1];
      assert !LineStart(s, k);
    }
    ScanSkip(t, 0, |line| + 1);
  }

  lemma SkipSpaceIs(s: string, p: nat, q: nat)
    requires p <= q <= |s|
    requires forall k :: p <= k < q ==> IsSpace(s[k])
    requires q < |s| ==> !IsSpace(s[q])
    ensures SkipSpace(s, p) == q
  {
  }

  lemma SkipDigitsIs(s: string, p: nat, q: nat)
    requires p <= q <= |s|
    requires forall k :: p <= k < q ==> IsDigit(s[k])
    requires q < |s| ==> !IsDigit(s[q])
    ensures SkipDigits(s, p) == q
  {
  }

  lemma LineEndIs(s: string, p: nat, q: nat)
    requires p <= q <= |s|
    requires forall k :: p <= k < q ==> !LineTerminator(s[k])
    requires q < |s| ==> LineTerminator(s[q])
    ensures LineEnd(s, p) == q
  {
  }

  /** When text follows the blanks after an item's prefix, the item is
      that text up to the end of its line, trimmed. */
  lemma TailAtText(s: string, p: nat, w: nat, e: nat)
    requires p <= w < e <= |s|
    requires forall k :: p <= k < w ==> IsSpace(s[k])
    requires !IsSpace(s[w])
    requires forall k :: w <= k < e ==> !LineTerminator(s[k])
    requires e < |s| ==> LineTerminator(s[e])
    ensures TailAt(s, p) == Some(ItemMatch(Strip(s[w..e]), e))
  {
    SkipSpaceIs(s, p, w);
    LineEndIs(s, w, e);
  }

  /** A line `N. text` is a hotspot: `text`, trimmed, without its number;
      the search then resumes at the end of that line. */
  lemma NumberedLine(s: string, d: nat, e: nat)
    requires 0 < d && d + 2 < e <= |s|
    requires forall k :: 0 <= k < d ==> IsDigit(s[k])
    requires s[d] == '.' && s[d + 1] == ' ' && !IsSpace(s[d + 2])
    requires forall k :: d + 2 <= k < e ==> !LineTerminator(s[k])
    requires e < |s| ==> LineTerminator(s[e])
    ensures Items(Numbered, s, 0) == [Strip(s[d + 2..e])] + Items(Numbered, s, e)
  {
    NumberedAt(s, d, e);
    ScanHead(Matches(Numbered, s), 0);
  }

  lemma NumberedAt(s: string, d: nat, e: nat)
    requires 0 < d && d + 2 < e <= |s|
    requires forall k :: 0 <= k < d ==> IsDigit(s[k])
    requires s[d] == '.' && s[d + 1] == ' ' && !IsSpace(s[d + 2])
    requires forall k :: d + 2 <= k < e ==> !LineTerminator(s[k])
    requires e < |s| ==> LineTerminator(s[e])
    ensures ItemAt(Numbered, s, 0) == Some(ItemMatch(Strip(s[d + 2..e]), e))
  {
    SkipDigitsIs(s, 0, d);
    assert PrefixEnd(Numbered, s, 0) == Some(d + 1);
    TailAtText(s, d + 1, d + 2, e);
  }

  /** A match at `i` is the first item scanned from `i`. */
  lemma ScanHead(t: seq<Option<ItemMatch>>, i: nat)
    requires Resumable(t) && i < |t| && t[i].Some?
    ensures Scan(t, i) == [t[i].value.value] + Scan(t, t[i].value.end)
  {
  }

  /** A line `- [ ] text` is a checklist entry: `text`, trimmed, without
      its box; the search then resumes at the end of that line. */
  lemma CheckboxLine(s: string, e: nat)
    requires 6 < e <= |s| && s[..6] == "- [ ] " && !IsSpace(s[6])
    requires forall k :: 6 <= k < e ==> !LineTerminator(s[k])
    requires e < |s| ==> LineTerminator(s[e])
    ensures Items(Checkbox, s, 0) == [Strip(s[6..e])] + Items(Checkbox, s, e)
  {
    CheckboxAt(s, e);
    ScanHead(Matches(Checkbox, s), 0);
  }

  lemma CheckboxAt(s: string, e: nat)
    requires 6 < e <= |s| && s[..6] == "- [ ] " && !IsSpace(s[6])
    requires forall k :: 6 <= k < e ==> !LineTerminator(s[k])
    requires e < |s| ==> LineTerminator(s[e])
    ensures ItemAt(Checkbox, s, 0) == Some(ItemMatch(Strip(s[6..e]), e))
  {
    assert s[0] == '-' && s[1] == ' ' && s[2] == '[' && s[3] == ' ' && s[4] == ']' && s[5] == ' ';
    SkipSpaceIs(s, 0, 0);
    SkipSpaceIs(s, 1, 2);
    SkipSpaceIs(s, 3, 4);
    assert PrefixEnd(Checkbox, s, 0) == Some(5);
    TailAtText(s, 5, 6, e);
  }
}
