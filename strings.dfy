/** String operations of Python's `str` and JavaScript's `String` that the
    analysis code relies on, over `string` = `seq<char>` (one char per code
    point, ASCII character classes). */
module Strings {
  import opened Wrappers

  /** The whitespace removed by Python's `str.strip()` and JavaScript's
      `trim()`, and matched by the regex class `\s`, restricted to ASCII. */
  predicate IsSpace(c: char) {
    c == ' ' || c == '\t' || c == '\n' || c == '\r' || c == '\U{B}' || c == '\U{C}'
  }

  predicate IsDigit(c: char) { '0' <= c <= '9' }

  predicate IsAlpha(c: char) { 'a' <= c <= 'z' || 'A' <= c <= 'Z' }

  /** The regex class `\w`. */
  predicate IsWordChar(c: char) { IsAlpha(c) || IsDigit(c) || c == '_' }

  predicate StartsWith(s: string, p: string) { |p| <= |s| && s[..|p|] == p }

  predicate EndsWith(s: string, p: string) { |p| <= |s| && s[|s| - |p|..] == p }

  predicate OccursAt(s: string, p: string, i: nat) { i + |p| <= |s| && s[i..i + |p|] == p }

  /** Index of the first occurrence of `p` in `s` at or after `from`. */
  function FindFrom(s: string, p: string, from: nat): (r: Option<nat>)
    decreases |s| - from
    ensures r.Some? ==> from <= r.value && OccursAt(s, p, r.value)
    ensures r.Some? ==> forall j :: from <= j < r.value ==> !OccursAt(s, p, j)
    ensures r.None? ==> forall j :: from <= j ==> !OccursAt(s, p, j)
  {
    if from + |p| > |s| then None
    else if s[from..from + |p|] == p then Some(from)
    else FindFrom(s, p, from + 1)
  }

  /** Index of the first `c` in `s`. */
  function IndexOf(s: string, c: char): (r: nat)
    requires c in s
    ensures r < |s| && s[r] == c && c !in s[..r]
  {
    if s[0] == c then 0
    else
      var r := IndexOf(s[1..], c) + 1;
      assert s[..r] == [s[0]] + s[1..][..r - 1];
      r
  }

  /** Index of the last `c` in `s` (`s.rfind(c)`, None for -1). */
  function LastIndexOf(s: string, c: char): (r: Option<nat>)
    ensures r.Some? ==> r.value < |s| && s[r.value] == c && c !in s[r.value + 1..]
    ensures r.None? ==> c !in s
  {
    if s == [] then None
    else if s[|s| - 1] == c then Some(|s| - 1)
    else
      var r := LastIndexOf(s[..|s| - 1], c);
      assert r.Some? ==> s[r.value + 1..] == s[..|s| - 1][r.value + 1..] + [s[|s| - 1]];
      assert r.None? ==> s == s[..|s| - 1] + [s[|s| - 1]];
      r
  }

  /** `s.find(p)` / `s.indexOf(p)`, with None for -1. */
  function Find(s: string, p: string): Option<nat> {
    FindFrom(s, p, 0)
  }

  /** The first occurrence of a character is where `find` stops. */
  lemma FindFirstChar(s: string, c: char, i: nat)
    requires i < |s| && s[i] == c && c !in s[..i]
    ensures Find(s, [c]) == Some(i)
  {
    FindFromChar(s, c, 0, i);
  }

  lemma {:induction false} FindFromChar(s: string, c: char, from: nat, i: nat)
    requires from <= i < |s| && s[i] == c
    requires forall k :: from <= k < i ==> s[k] != c
    ensures FindFrom(s, [c], from) == Some(i)
    decreases i - from
  {
    assert s[from..from + 1] == [s[from]];
    if from < i {
      FindFromChar(s, c, from + 1, i);
    }
  }

  /** `p in s` / `s.includes(p)`. */
  predicate Contains(s: string, p: string) {
    Find(s, p).Some?
  }

  lemma ContainsIff(s: string, p: string)
    ensures Contains(s, p) <==> exists i :: OccursAt(s, p, i)
  {
    if !Contains(s, p) {
      assert forall j: nat :: 0 <= j ==> !OccursAt(s, p, j);
    }
  }

  function LStrip(s: string): (r: string)
    ensures |r| <= |s| && r == s[|s| - |r|..]
    ensures r == [] || !IsSpace(r[0])
    ensures forall i :: 0 <= i < |s| - |r| ==> IsSpace(s[i])
  {
    if s != [] && IsSpace(s[0]) then LStrip(s[1..]) else s
  }

  function RStrip(s: string): (r: string)
    ensures |r| <= |s| && r == s[..|r|]
    ensures r == [] || !IsSpace(r[|r| - 1])
    ensures forall i :: |r| <= i < |s| ==> IsSpace(s[i])
  {
    if s != [] && IsSpace(s[|s| - 1]) then RStrip(s[..|s| - 1]) else s
  }

  /** `s.strip()` / `s.trim()`. */
  function Strip(s: string): (r: string)
    ensures r == [] || (!IsSpace(r[0]) && !IsSpace(r[|r| - 1]))
    ensures forall c :: c in r ==> c in s
  {
    var l := LStrip(s);
    var r := RStrip(l);
    assert r != [] ==> r[0] == l[0];
    r
  }

  /** `s.strip(c)` for a single character `c`. */
  function StripChar(s: string, c: char): (r: string)
    decreases |s|
    ensures |r| <= |s|
    ensures r == [] || (r[0] != c && r[|r| - 1] != c)
  {
    if s == [] then s
    else if s[0] == c then StripChar(s[1..], c)
    else if s[|s| - 1] == c then StripChar(s[..|s| - 1], c)
    else s
  }

  /** `sep.join(parts)`. */
  function Join(parts: seq<string>, sep: string): string
    decreases |parts|
  {
    if |parts| == 0 then ""
    else if |parts| == 1 then parts[0]
    else parts[0] + sep + Join(parts[1..], sep)
  }

  /** A join begins with its first piece. */
  lemma JoinStartsWith(parts: seq<string>, sep: string)
    requires |parts| >= 1
    ensures StartsWith(Join(parts, sep), parts[0])
  {
    if |parts| > 1 {
      assert Join(parts, sep)[..|parts[0]|] == parts[0];
    }
  }

  /** A character found in neither the pieces nor the separator is not in
      their join. */
  lemma {:induction false} JoinExcludes(parts: seq<string>, sep: string, c: char)
    requires c !in sep && forall k :: 0 <= k < |parts| ==> c !in parts[k]
    ensures c !in Join(parts, sep)
    decreases |parts|
  {
    if |parts| > 1 {
      JoinExcludes(parts[1..], sep, c);
    }
  }

  /** `s.split(c)` for a one-character separator: never empty, and no
      piece holds `c`. */
  function SplitChar(s: string, c: char): (r: seq<string>)
    ensures |r| >= 1
    ensures forall k :: 0 <= k < |r| ==> c !in r[k]
  {
    if s == [] then [""]
    else
      var rest := SplitChar(s[1..], c);
      if s[0] == c then [""] + rest else [[s[0]] + rest[0]] + rest[1..]
  }

  lemma JoinHead(a: string, parts: seq<string>, sep: string)
    requires |parts| >= 1
    ensures Join([a + parts[0]] + parts[1..], sep) == a + Join(parts, sep)
  {
  }

  /** Joining the pieces of a split with the separator gives the input back. */
  lemma {:induction false} SplitJoin(s: string, c: char)
    ensures Join(SplitChar(s, c), [c]) == s
  {
    if s != [] {
      var rest := SplitChar(s[1..], c);
      SplitJoin(s[1..], c);
      if s[0] == c {
        assert SplitChar(s, c) == [""] + rest;
      } else {
        JoinHead([s[0]], rest, [c]);
      }
      assert s == [s[0]] + s[1..];
    }
  }

  /** Splitting at the first separator: the piece before it is the first
      piece. */
  lemma {:induction false} SplitCharAt(a: string, c: char, b: string)
    requires c !in a
    ensures SplitChar(a + [c] + b, c) == [a] + SplitChar(b, c)
    decreases |a|
  {
    if a == [] {
      assert a + [c] + b == [c] + b;
      assert ([c] + b)[1..] == b;
    } else {
      assert (a + [c] + b)[1..] == a[1..] + [c] + b;
      SplitCharAt(a[1..], c, b);
      assert a == [a[0]] + a[1..];
    }
  }

  /** Splitting a join at the separator gives the pieces back when no
      piece holds the separator. */
  lemma {:induction false} JoinSplit(parts: seq<string>, c: char)
    requires |parts| >= 1
    requires forall k :: 0 <= k < |parts| ==> c !in parts[k]
    ensures SplitChar(Join(parts, [c]), c) == parts
    decreases |parts|
  {
    if |parts| == 1 {
      SplitNoSeparator(parts[0], c);
    } else {
      JoinSplit(parts[1..], c);
      SplitCharAt(parts[0], c, Join(parts[1..], [c]));
      assert parts == [parts[0]] + parts[1..];
    }
  }

  lemma {:induction false} SplitNoSeparator(s: string, c: char)
    requires c !in s
    ensures SplitChar(s, c) == [s]
    decreases |s|
  {
    if s != [] {
      SplitNoSeparator(s[1..], c);
      assert s == [s[0]] + s[1..];
    }
  }

  /** The piece after the last `c`: `s.split(c)[-1]` / `s.split(c).pop()`. */
  function AfterLast(s: string, c: char): (r: string)
    ensures c !in r && EndsWith(s, r)
    ensures c in s ==> |r| < |s| && s[|s| - |r| - 1] == c
    ensures c !in s ==> r == s
    decreases |s|
  {
    if s == [] then s
    else if s[|s| - 1] == c then []
    else AfterLast(s[..|s| - 1], c) + [s[|s| - 1]]
  }

  /** The piece after the last separator is whatever follows a separator
      when no separator comes after it. */
  lemma {:induction false} AfterLastOfSegment(a: string, c: char, b: string)
    requires c !in b
    ensures AfterLast(a + [c] + b, c) == b
    decreases |b|
  {
    var s := a + [c] + b;
    if b != [] {
      var b' := b[..|b| - 1];
      assert s[..|s| - 1] == a + [c] + b';
      AfterLastOfSegment(a, c, b');
      assert b == b' + [b[|b| - 1]];
    }
  }

  /** `s.rstrip(c)` for a single character `c`. */
  function RStripChar(s: string, c: char): (r: string)
    ensures |r| <= |s| && r == s[..|r|]
    ensures r == [] || r[|r| - 1] != c
    ensures forall i :: |r| <= i < |s| ==> s[i] == c
  {
    if s != [] && s[|s| - 1] == c then RStripChar(s[..|s| - 1], c) else s
  }

  /** Appending copies of `c` to a string that does not end in `c` is
      undone by `rstrip(c)`. */
  lemma {:induction false} RStripCharAppended(s: string, c: char, k: nat)
    requires s == [] || s[|s| - 1] != c
    ensures RStripChar(s + seq(k, _ => c), c) == s
  {
    if k > 0 {
      var t := s + seq(k, _ => c);
      assert t[..|t| - 1] == s + seq(k - 1, _ => c);
      RStripCharAppended(s, c, k - 1);
    }
  }

  /** Left-to-right, non-overlapping `s.replace(pat, rep)`. */
  function ReplaceAll(s: string, pat: string, rep: string): (r: string)
    requires |pat| > 0
    ensures forall c :: c in r ==> c in s || c in rep
    decreases |s|
  {
    if |s| < |pat| then s
    else if s[..|pat|] == pat then rep + ReplaceAll(s[|pat|..], pat, rep)
    else [s[0]] + ReplaceAll(s[1..], pat, rep)
  }

  /** Replacing one character by another is a character-wise map. */
  lemma {:induction false} ReplaceCharIsMap(s: string, a: char, b: char)
    ensures var r := ReplaceAll(s, [a], [b]);
      |r| == |s| && forall i :: 0 <= i < |s| ==> r[i] == (if s[i] == a then b else s[i])
    decreases |s|
  {
    if |s| >= 1 {
      ReplaceCharIsMap(s[1..], a, b);
    }
  }

  /** Removing a suffix `pat` that is no longer than the text before it
      and shares no border with itself undoes appending it: `replace`
      finds no earlier occurrence. */
  lemma {:induction false} ReplaceAllAppended(s: string, pat: string)
    requires |pat| > 0
    requires forall i :: 0 <= i <= |s| ==> !OccursAt(s + pat, pat, i) || i == |s|
    ensures ReplaceAll(s + pat, pat, "") == s
    decreases |s|
  {
    var t := s + pat;
    if s == [] {
      assert t[..|pat|] == pat;
      assert t[|pat|..] == [];
    } else {
      assert !OccursAt(t, pat, 0);
      assert t[..|pat|] != pat;
      assert t[1..] == s[1..] + pat;
      forall i | 0 <= i <= |s[1..]| ensures !OccursAt(s[1..] + pat, pat, i) || i == |s[1..]| {
        assert t[i + 1..i + 1 + |pat|] == (s[1..] + pat)[i..i + |pat|];
        assert OccursAt(s[1..] + pat, pat, i) == OccursAt(t, pat, i + 1);
      }
      ReplaceAllAppended(s[1..], pat);
      assert s == [s[0]] + s[1..];
    }
  }

  /** A text without `pat` is left as it is. */
  lemma {:induction false} ReplaceAllAbsent(s: string, pat: string, rep: string)
    requires |pat| > 0
    requires forall i :: 0 <= i <= |s| ==> !OccursAt(s, pat, i)
    ensures ReplaceAll(s, pat, rep) == s
    decreases |s|
  {
    if |s| >= |pat| {
      assert !OccursAt(s, pat, 0);
      forall i | 0 <= i <= |s[1..]| ensures !OccursAt(s[1..], pat, i) {
        if i + |pat| <= |s[1..]| {
          var u, v := s[i + 1..i + 1 + |pat|], s[1..][i..i + |pat|];
          forall k | 0 <= k < |pat| ensures u[k] == v[k] {
          }
          assert u == v;
        }
        assert OccursAt(s[1..], pat, i) == OccursAt(s, pat, i + 1);
      }
      ReplaceAllAbsent(s[1..], pat, rep);
      assert s == [s[0]] + s[1..];
    }
  }

  function LowerChar(c: char): char {
    if 'A' <= c <= 'Z' then (c as int + 32) as char else c
  }

  function UpperChar(c: char): char {
    if 'a' <= c <= 'z' then (c as int - 32) as char else c
  }

  /** `s.lower()` / `s.toLowerCase()` on ASCII letters. */
  function Lower(s: string): (r: string)
    ensures |r| == |s| && forall i :: 0 <= i < |s| ==> r[i] == LowerChar(s[i])
  {
    seq(|s|, i requires 0 <= i < |s| => LowerChar(s[i]))
  }

  /** `s.upper()` / `s.toUpperCase()` on ASCII letters. */
  function Upper(s: string): (r: string)
    ensures |r| == |s| && forall i :: 0 <= i < |s| ==> r[i] == UpperChar(s[i])
  {
    seq(|s|, i requires 0 <= i < |s| => UpperChar(s[i]))
  }

  function DigitChar(d: nat): (c: char)
    requires d < 10
    ensures IsDigit(c)
  {
    ('0' as int + d) as char
  }

  /** The decimal rendering of a natural number (`str(n)`, `${n}`). */
  function NatToString(n: nat): (r: string)
    ensures |r| >= 1 && forall i :: 0 <= i < |r| ==> IsDigit(r[i])
    ensures (n < 10) == (|r| == 1)
  {
    if n < 10 then [DigitChar(n)] else NatToString(n / 10) + [DigitChar(n % 10)]
  }

  /** Distinct numbers render differently, so numbered node ids never clash. */
  lemma {:induction false} NatToStringInjective(n: nat, m: nat)
    requires NatToString(n) == NatToString(m)
    ensures n == m
  {
    if n >= 10 && m >= 10 {
      var a, b := NatToString(n), NatToString(m);
      assert a[..|a| - 1] == NatToString(n / 10);
      assert b[..|b| - 1] == NatToString(m / 10);
      NatToStringInjective(n / 10, m / 10);
      assert DigitChar(n % 10) == a[|a| - 1] == DigitChar(m % 10);
    } else if n < 10 && m < 10 {
      assert DigitChar(n) == DigitChar(m);
    }
  }

  function Min(a: int, b: int): int { if a < b then a else b }

  /** `s[:n]` / `s.slice(0, n)`. */
  function Take<T>(s: seq<T>, n: nat): (r: seq<T>)
    ensures |r| == Min(n, |s|) && r == s[..|r|]
  {
    if n < |s| then s[..n] else s
  }

  /** A prefix one longer is the prefix and the next element. */
  lemma PrefixStep<T>(s: seq<T>, i: nat)
    requires i < |s|
    ensures s[..i + 1] == s[..i] + [s[i]]
  {
  }

  /** `s.replace(/c$/, '')`: one trailing `c` goes, at most. */
  function DropTrailing(s: string, c: char): (r: string)
    ensures r == s || r + [c] == s
    ensures r != s <==> s != [] && s[|s| - 1] == c
  {
    if s != [] && s[|s| - 1] == c then
      assert s == s[..|s| - 1] + [c];
      s[..|s| - 1]
    else s
  }

  /** A JavaScript value in an `||` chain: a string that is present and
      non-empty is truthy. */
  predicate Truthy(v: Option<string>) {
    v.Some? && v.value != []
  }

  /** `v0 || v1 || ... || fallback`. */
  function FirstTruthy(vs: seq<Option<string>>, fallback: string): string
    decreases |vs|
  {
    if vs == [] then fallback
    else if Truthy(vs[0]) then vs[0].value
    else FirstTruthy(vs[1..], fallback)
  }

  /** Position `k` holds the first truthy value. */
  predicate FirstTruthyAt(vs: seq<Option<string>>, k: nat) {
    k < |vs| && Truthy(vs[k]) && forall j :: 0 <= j < k ==> !Truthy(vs[j])
  }

  /** The chain yields the first truthy value, or the fallback when there
      is none. */
  lemma {:induction false} FirstTruthyIs(vs: seq<Option<string>>, fallback: string)
    ensures forall k: nat :: FirstTruthyAt(vs, k) ==> FirstTruthy(vs, fallback) == vs[k].value
    ensures (forall j :: 0 <= j < |vs| ==> !Truthy(vs[j])) ==> FirstTruthy(vs, fallback) == fallback
    decreases |vs|
  {
    if vs != [] {
      FirstTruthyIs(vs[1..], fallback);
      forall k: nat | 0 < k && FirstTruthyAt(vs, k)
        ensures FirstTruthy(vs, fallback) == vs[k].value
      {
        assert !Truthy(vs[0]);
        assert FirstTruthyAt(vs[1..], k - 1);
      }
    }
  }

  /** The pieces one after the other (`lines.push(...pieces)` in a loop). */
  function Concat<T>(xss: seq<seq<T>>): seq<T> {
    if xss == [] then [] else Concat(xss[..|xss| - 1]) + xss[|xss| - 1]
  }

  lemma {:induction false} ConcatAppend<T>(a: seq<seq<T>>, b: seq<seq<T>>)
    ensures Concat(a + b) == Concat(a) + Concat(b)
    decreases |b|
  {
    if b == [] {
      assert a + b == a;
    } else {
      var init, last := b[..|b| - 1], b[|b| - 1];
      ConcatAppend(a, init);
      assert (a + b)[..|a + b| - 1] == a + init;
      assert (a + b)[|a + b| - 1] == last;
      assert Concat(a + b) == Concat(a + init) + last;
      assert Concat(b) == Concat(init) + last;
    }
  }

  // ---------------------------------------------------------------------
  // Ordering of strings by code point, as Python's `sorted` uses it.
  // ---------------------------------------------------------------------

  predicate LexLe(a: string, b: string)
    decreases |a|
  {
    |a| == 0 || (|b| > 0 && (a[0] < b[0] || (a[0] == b[0] && LexLe(a[1..], b[1..]))))
  }

  lemma {:induction false} LexLeTotal(a: string, b: string)
    ensures LexLe(a, b) || LexLe(b, a)
    decreases |a|
  {
    if |a| > 0 && |b| > 0 && a[0] == b[0] {
      LexLeTotal(a[1..], b[1..]);
    }
  }

  lemma {:induction false} LexLeAntisymmetric(a: string, b: string)
    requires LexLe(a, b) && LexLe(b, a)
    ensures a == b
    decreases |a|
  {
    if |a| > 0 {
      LexLeAntisymmetric(a[1..], b[1..]);
      assert a == [a[0]] + a[1..] && b == [b[0]] + b[1..];
    }
  }

  lemma {:induction false} LexLeTransitive(a: string, b: string, c: string)
    requires LexLe(a, b) && LexLe(b, c)
    ensures LexLe(a, c)
    decreases |a|
  {
    if |a| > 0 && a[0] == b[0] && b[0] == c[0] {
      LexLeTransitive(a[1..], b[1..], c[1..]);
    }
  }

  predicate Sorted(s: seq<string>) {
    forall i :: 0 < i < |s| ==> LexLe(s[i - 1], s[i])
  }

  /** In a sorted sequence every element is at most every later one. */
  lemma {:induction false} SortedOrdered(s: seq<string>, i: nat, j: nat)
    requires Sorted(s) && i <= j < |s|
    ensures LexLe(s[i], s[j])
    decreases j - i
  {
    if i == j {
      LexLeReflexive(s[i]);
    } else {
      SortedOrdered(s, i, j - 1);
      LexLeTransitive(s[i], s[j - 1], s[j]);
    }
  }

  lemma {:induction false} LexLeReflexive(a: string)
    ensures LexLe(a, a)
    decreases |a|
  {
    if |a| > 0 {
      LexLeReflexive(a[1..]);
    }
  }

  function Insert(x: string, s: seq<string>): (r: seq<string>)
    ensures |r| == |s| + 1 && multiset(r) == multiset(s) + multiset{x}
    ensures r[0] == x || (s != [] && r[0] == s[0])
    ensures Sorted(s) ==> Sorted(r)
  {
    if s == [] || LexLe(x, s[0]) then [x] + s
    else
      LexLeTotal(x, s[0]);
      assert s == [s[0]] + s[1..];
      [s[0]] + Insert(x, s[1..])
  }

  /** `sorted(xs)` on strings. */
  function Sort(s: seq<string>): (r: seq<string>)
    ensures Sorted(r) && multiset(r) == multiset(s) && |r| == |s|
  {
    if s == [] then []
    else
      assert s == [s[0]] + s[1..];
      Insert(s[0], Sort(s[1..]))
  }

  /** Element-wise description of a duplicate-free sequence. */
  predicate NoDuplicates<T(==)>(s: seq<T>) {
    forall i, j :: 0 <= i < j < |s| ==> s[i] != s[j]
  }

  /** Adding to a Python `set` kept as a duplicate-free sequence. */
  function AddUnique(s: seq<string>, x: string): (r: seq<string>)
    ensures NoDuplicates(s) ==> NoDuplicates(r)
    ensures forall y :: y in r <==> y in s || y == x
  {
    if x in s then s else s + [x]
  }

  /** A sequence has no duplicates exactly when no element occurs twice in
      its multiset. */
  lemma {:induction false} NoDuplicatesCount(s: seq<string>)
    ensures NoDuplicates(s) <==> forall y :: multiset(s)[y] <= 1
  {
    if s != [] {
      var t := s[1..];
      assert s == [s[0]] + t;
      NoDuplicatesCount(t);
      assert forall y :: multiset(s)[y] == (if y == s[0] then 1 else 0) + multiset(t)[y];
      if NoDuplicates(s) {
        forall k | 0 <= k < |t| ensures t[k] != s[0] {
          assert t[k] == s[k + 1];
        }
        assert NoDuplicates(t) by {
          forall i, j | 0 <= i < j < |t| ensures t[i] != t[j] {
            assert t[i] == s[i + 1] && t[j] == s[j + 1];
          }
        }
      }
      if forall y :: multiset(s)[y] <= 1 {
        assert multiset(t)[s[0]] == 0;
        forall i, j | 0 <= i < j < |s| ensures s[i] != s[j] {
          if i == 0 {
            assert s[j] == t[j - 1] && s[j] in t;
          } else {
            assert s[i] == t[i - 1] && s[j] == t[j - 1];
          }
        }
      }
    }
  }

  /** `sorted(set(xs))` has no duplicates. */
  lemma SortKeepsNoDuplicates(s: seq<string>)
    requires NoDuplicates(s)
    ensures NoDuplicates(Sort(s))
  {
    NoDuplicatesCount(s);
    NoDuplicatesCount(Sort(s));
  }

  /** `set(xs)` as a duplicate-free sequence in first-occurrence order. */
  function Dedup(s: seq<string>): (r: seq<string>)
    ensures NoDuplicates(r) && |r| <= |s|
    ensures forall y :: y in r <==> y in s
  {
    if s == [] then []
    else
      var r := AddUnique(Dedup(s[..|s| - 1]), s[|s| - 1]);
      assert s == s[..|s| - 1] + [s[|s| - 1]];
      r
  }

  /** Where `x` first occurs in `s` (`xs.index(x)`). */
  function FirstIndex(s: seq<string>, x: string): (r: nat)
    requires x in s
    ensures r < |s| && s[r] == x && x !in s[..r]
  {
    if s[0] == x then 0
    else
      var r := FirstIndex(s[1..], x) + 1;
      assert s[..r] == [s[0]] + s[1..][..r - 1];
      r
  }

  /** Appending leaves the first occurrence of an element already present
      where it was. */
  lemma FirstIndexSnoc(s: seq<string>, y: string, x: string)
    requires x in s
    ensures FirstIndex(s + [y], x) == FirstIndex(s, x)
  {
    var k := FirstIndex(s, x);
    var t := s + [y];
    assert t[..k] == s[..k];
    var k' := FirstIndex(t, x);
    assert t[k] == x;
  }

  /** `Dedup` keeps the elements in the order of their first occurrence. */
  lemma {:induction false} DedupOrder(s: seq<string>)
    ensures forall i, j :: 0 <= i < j < |Dedup(s)| ==> FirstIndex(s, Dedup(s)[i]) < FirstIndex(s, Dedup(s)[j])
  {
    if s != [] {
      var t, x := s[..|s| - 1], s[|s| - 1];
      assert s == t + [x];
      DedupOrder(t);
      var d, r := Dedup(t), Dedup(s);
      forall i | 0 <= i < |d| ensures FirstIndex(s, d[i]) == FirstIndex(t, d[i]) {
        FirstIndexSnoc(t, x, d[i]);
      }
      if x !in d {
        assert r == d + [x];
        assert x !in t;
        forall i | 0 <= i < |d| ensures FirstIndex(s, r[i]) < FirstIndex(s, x) {
          assert r[i] == d[i];
          assert FirstIndex(s, x) == |t| by {
            assert s[|t|] == x && x !in s[..|t|];
          }
        }
      }
    }
  }

  /** Past the first n elements of a sorted sequence, every element is at
      least each of those n. */
  lemma TakeSortedBelow(s: seq<string>, n: nat, x: string)
    requires Sorted(s) && x in s && x !in Take(s, n)
    ensures |Take(s, n)| == n && forall y :: y in Take(s, n) ==> LexLe(y, x)
  {
    var r := Take(s, n);
    var p :| 0 <= p < |s| && s[p] == x;
    assert p >= |r| by {
      forall q | 0 <= q < |r| ensures s[q] != x {
        assert r[q] == s[q] && r[q] in r;
      }
    }
    forall y | y in r ensures LexLe(y, x) {
      var q :| 0 <= q < |r| && r[q] == y;
      SortedOrdered(s, q, p);
    }
  }

  /** `sorted(set(xs))[:n]`: the n smallest distinct elements, in order. */
  function SmallestDistinct(xs: seq<string>, n: nat): (r: seq<string>)
    ensures Sorted(r) && NoDuplicates(r) && |r| <= n
    ensures forall x :: x in r ==> x in xs
    ensures xs != [] && n > 0 ==> r != []
    ensures forall x :: x in xs && x !in r ==> |r| == n && forall y :: y in r ==> LexLe(y, x)
  {
    var d := Dedup(xs);
    var s := Sort(d);
    SortKeepsNoDuplicates(d);
    assert forall x :: x in s <==> x in d by {
      forall x ensures x in s <==> x in d {
        assert x in s <==> x in multiset(s);
        assert x in d <==> x in multiset(d);
      }
    }
    var r := Take(s, n);
    assert forall x :: x in r ==> x in s;
    forall x | x in xs && x !in r ensures |r| == n && forall y :: y in r ==> LexLe(y, x) {
      TakeSortedBelow(s, n, x);
    }
    r
  }
}
