/** API endpoint discovery of the earlier single-script analyzer
    (api/analyze_repo.py, `find_api_endpoints`): Next.js route files under
    `pages/api`, and Express- and FastAPI-style route registrations found
    by a regular expression in `.js`/`.ts` files. */
module LegacyEndpoints {
  import opened Wrappers
  import opened Strings
  import opened FileTree

  /** A Python dict from names to string lists, in insertion order. */
  type Listing = seq<(string, seq<string>)>

  /** The entry a key contributes: none when the value is absent. */
  function Entry(key: string, value: Option<seq<string>>): (r: Listing)
    ensures |r| <= 1 && (r != [] <==> value.Some?)
    ensures value.Some? ==> r[0] == (key, value.value)
  {
    if value.Some? then [(key, value.value)] else []
  }

  // ---------------------------------------------------------------------
  // Next.js API routes: pages/api
  // ---------------------------------------------------------------------

  /** The names of every entry below `n`, folders included and at any
      depth, as `rglob` reaches them; a folder that cannot be listed adds
      nothing. */
  function NamesBelow(n: Node): seq<string>
    decreases n, 1
  {
    if !Listable(n) then [] else NamesAmong(n.children)
  }

  function NamesAmong(cs: seq<Node>): seq<string>
    decreases cs, 0
  {
    if cs == [] then [] else [cs[0].name] + NamesBelow(cs[0]) + NamesAmong(cs[1..])
  }

  /** An entry `rglob("*.ts")` reports, or one `rglob("*.js")` reports that
      is not a `.test.js` file. */
  predicate IsRouteFile(name: string) {
    EndsWith(name, ".ts") || (EndsWith(name, ".js") && !EndsWith(name, ".test.js"))
  }

  /** `/api/<stem>` for every route file, in walk order. */
  function ApiRoutes(names: seq<string>): (r: seq<string>)
    ensures forall x :: x in r <==> exists i :: 0 <= i < |names| && IsRouteFile(names[i]) && x == "/api/" + Stem(names[i])
  {
    if names == [] then []
    else
      var last := names[|names| - 1];
      var r := ApiRoutes(names[..|names| - 1]) + (if IsRouteFile(last) then ["/api/" + Stem(last)] else []);
      assert forall i :: 0 <= i < |names| - 1 ==> names[..|names| - 1][i] == names[i];
      r
  }

  /** The "nextjs" entry: present when `pages/api` exists and holds a route
      file; then the 15 smallest distinct routes, sorted. */
  function NextjsRoutes(root: Node): (r: Option<seq<string>>)
    ensures r.Some? <==> Lookup(root, ["pages", "api"]).Some? && ApiRoutes(NamesBelow(Lookup(root, ["pages", "api"]).value)) != []
    ensures r.Some? ==> Sorted(r.value) && NoDuplicates(r.value) && 0 < |r.value| <= 15
    ensures r.Some? ==> forall x :: x in r.value ==> x in ApiRoutes(NamesBelow(Lookup(root, ["pages", "api"]).value))
    ensures r.Some? ==> forall x :: x in ApiRoutes(NamesBelow(Lookup(root, ["pages", "api"]).value)) && x !in r.value ==>
      |r.value| == 15 && forall y :: y in r.value ==> LexLe(y, x)
  {
    match Lookup(root, ["pages", "api"])
    case None => None
    case Some(dir) =>
      var routes := ApiRoutes(NamesBelow(dir));
      if routes == [] then None else Some(SmallestDistinct(routes, 15))
  }

  /** A test file is not a route, and a route file keeps everything up to
      its last suffix. */
  lemma RouteFileExamples()
    ensures !IsRouteFile("users.test.js") && IsRouteFile("users.test.ts")
    ensures "/api/" + Stem("users.test.ts") == "/api/users.test"
  {
    assert "users.test.js"[13 - 8..] == ".test.js";
    assert "users.test.ts"[13 - 3..] == ".ts";
    var name := "users.test.ts";
    assert name[10] == '.' && '.' !in name[11..];
    assert LastIndexOf(name, '.') == Some(10);
    assert Suffix(name) == ".ts";
    assert name[..10] == "users.test";
  }

  // ---------------------------------------------------------------------
  // Route registrations: app\.(get|post|put|delete|patch)\(['"]([^'"]+)['"]
  // ---------------------------------------------------------------------

  datatype Route = Route(verb: string, path: string)

  const Verbs: seq<string> := ["get", "post", "put", "delete", "patch"]

  predicate IsQuote(c: char) { c == '\'' || c == '"' }

  /** The alternation `(get|post|put|delete|patch)` at position i. */
  function VerbAt(s: string, i: nat): (r: Option<string>)
    ensures r.Some? ==> r.value in Verbs && OccursAt(s, r.value, i)
    ensures r.None? ==> forall v :: v in Verbs ==> !OccursAt(s, v, i)
  {
    if OccursAt(s, "get", i) then Some("get")
    else if OccursAt(s, "post", i) then Some("post")
    else if OccursAt(s, "put", i) then Some("put")
    else if OccursAt(s, "delete", i) then Some("delete")
    else if OccursAt(s, "patch", i) then Some("patch")
    else None
  }

  /** No verb is a prefix of another, so at most one occurs at a position. */
  lemma VerbAtUnique(s: string, i: nat, v: string)
    requires v in Verbs && OccursAt(s, v, i)
    ensures VerbAt(s, i) == Some(v)
  {
    assert s[i] == v[0] && s[i + 1] == v[1] by {
      assert s[i..i + |v|][0] == s[i] && s[i..i + |v|][1] == s[i + 1];
    }
    var w := VerbAt(s, i).value;
    assert s[i] == w[0] && s[i + 1] == w[1] by {
      assert s[i..i + |w|][0] == s[i] && s[i..i + |w|][1] == s[i + 1];
    }
  }

  /** Length of the run of non-quote characters starting at i: the greedy
      `[^'"]+`. */
  function QuoteFreeRun(s: string, i: nat): (n: nat)
    requires i <= |s|
    decreases |s| - i
    ensures i + n <= |s|
    ensures forall k :: i <= k < i + n ==> !IsQuote(s[k])
    ensures i + n == |s| || IsQuote(s[i + n])
  {
    if i == |s| || IsQuote(s[i]) then 0 else 1 + QuoteFreeRun(s, i + 1)
  }

  /** The regular expression read declaratively: at i the text is `prefix`,
      a verb, "(", a quote, a non-empty quote-free path, and a quote, the
      match ending just before `end`. */
  predicate RouteText(s: string, prefix: string, i: nat, rt: Route, end: nat) {
    var p := i + |prefix| + |rt.verb|;
    && rt.verb in Verbs && rt.path != []
    && end == p + |rt.path| + 3 && end <= |s|
    && OccursAt(s, prefix, i) && OccursAt(s, rt.verb, i + |prefix|)
    && s[p] == '(' && IsQuote(s[p + 1])
    && s[p + 2..end - 1] == rt.path && (forall k :: 0 <= k < |rt.path| ==> !IsQuote(rt.path[k]))
    && IsQuote(s[end - 1])
  }

  /** The call part of one attempt, after the verb ends at p: "(", a quote,
      the greedy quote-free path (non-empty) and a closing quote. */
  function CallAt(s: string, verb: string, p: nat): (r: Option<(Route, nat)>)
    ensures r.Some? ==> var n := |r.value.0.path|;
      && r.value.0.verb == verb && n > 0 && r.value.1 == p + 3 + n && r.value.1 <= |s|
      && s[p] == '(' && IsQuote(s[p + 1]) && r.value.0.path == s[p + 2..p + 2 + n]
      && (forall k :: 0 <= k < n ==> !IsQuote(r.value.0.path[k])) && IsQuote(s[p + 2 + n])
  {
    if p + 2 <= |s| && s[p] == '(' && IsQuote(s[p + 1]) then
      var n := QuoteFreeRun(s, p + 2);
      if n > 0 && p + 2 + n < |s| then Some((Route(verb, s[p + 2..p + 2 + n]), p + 3 + n)) else None
    else None
  }

  /** The call part is found once "(", a quote and n > 0 quote-free
      characters closed by a quote are there. */
  lemma CallAtClosed(s: string, verb: string, p: nat, n: nat)
    requires p + 2 + n < |s| && s[p] == '(' && IsQuote(s[p + 1]) && n > 0
    requires (forall k :: p + 2 <= k < p + 2 + n ==> !IsQuote(s[k])) && IsQuote(s[p + 2 + n])
    ensures CallAt(s, verb, p) == Some((Route(verb, s[p + 2..p + 2 + n]), p + 3 + n))
  {
    QuoteFreeRunIs(s, p + 2, n);
  }

  /** The verb and the call part from position j on. */
  function VerbCall(s: string, j: nat): (r: Option<(Route, nat)>)
    ensures r.Some? ==> var v := r.value.0.verb;
      v in Verbs && OccursAt(s, v, j) && r == CallAt(s, v, j + |v|)
  {
    match VerbAt(s, j)
    case None => None
    case Some(v) => CallAt(s, v, j + |v|)
  }

  /** One attempt of the regular expression at position i: the route and
      the position after the match. */
  function MatchAt(s: string, prefix: string, i: nat): (r: Option<(Route, nat)>)
    ensures r.Some? ==> RouteText(s, prefix, i, r.value.0, r.value.1)
  {
    if OccursAt(s, prefix, i) then VerbCall(s, i + |prefix|) else None
  }

  /** Once the prefix and the verb are there, the attempt is the call
      part after the verb. */
  lemma MatchAtVerb(s: string, prefix: string, i: nat, verb: string)
    requires OccursAt(s, prefix, i) && VerbAt(s, i + |prefix|) == Some(verb)
    ensures MatchAt(s, prefix, i) == CallAt(s, verb, i + |prefix| + |verb|)
  {
    VerbCallIs(s, i + |prefix|, verb);
  }

  lemma VerbCallIs(s: string, j: nat, verb: string)
    requires VerbAt(s, j) == Some(verb)
    ensures VerbCall(s, j) == CallAt(s, verb, j + |verb|)
  {
  }

  /** Every way the text matches at i is the one `MatchAt` finds: the
      greedy path cannot stop early, because it must end at a quote. */
  lemma MatchAtComplete(s: string, prefix: string, i: nat, rt: Route, end: nat)
    requires RouteText(s, prefix, i, rt, end)
    ensures MatchAt(s, prefix, i) == Some((rt, end))
  {
    VerbAtUnique(s, i + |prefix|, rt.verb);
    RouteTextCall(s, prefix, i, rt, end);
    MatchAtVerb(s, prefix, i, rt.verb);
  }

  /** The call part of a route text is the one `CallAt` finds. */
  lemma RouteTextCall(s: string, prefix: string, i: nat, rt: Route, end: nat)
    requires RouteText(s, prefix, i, rt, end)
    ensures CallAt(s, rt.verb, i + |prefix| + |rt.verb|) == Some((rt, end))
  {
    var p := i + |prefix| + |rt.verb|;
    forall k | p + 2 <= k < end - 1 ensures !IsQuote(s[k]) {
      assert s[k] == s[p + 2..end - 1][k - (p + 2)];
    }
    CallAtClosed(s, rt.verb, p, |rt.path|);
  }

  /** The greedy run is exactly `n` long when `n` quote-free characters
      are followed by a quote or the end. */
  lemma {:induction false} QuoteFreeRunIs(s: string, i: nat, n: nat)
    requires i + n <= |s|
    requires forall k :: i <= k < i + n ==> !IsQuote(s[k])
    requires i + n == |s| || IsQuote(s[i + n])
    ensures QuoteFreeRun(s, i) == n
    decreases n
  {
    if n > 0 {
      QuoteFreeRunIs(s, i + 1, n - 1);
    }
  }

  /** `re.findall` from position `from`: leftmost matches, each search
      resuming after the previous match. */
  function FindRoutes(s: string, prefix: string, from: nat): (r: seq<Route>)
    decreases |s| - from
    ensures forall k :: 0 <= k < |r| ==> r[k].verb in Verbs && r[k].path != []
  {
    if from >= |s| then []
    else match MatchAt(s, prefix, from)
      case Some((rt, end)) => [rt] + FindRoutes(s, prefix, end)
      case None => FindRoutes(s, prefix, from + 1)
  }

  /** A match anywhere at or after `from` makes the search non-empty. */
  lemma {:induction false} FindRoutesReaches(s: string, prefix: string, from: nat, i: nat)
    requires from <= i && MatchAt(s, prefix, i).Some?
    ensures FindRoutes(s, prefix, from) != []
    decreases i - from
  {
    var m := MatchAt(s, prefix, i).value;
    assert RouteText(s, prefix, i, m.0, m.1);
    if MatchAt(s, prefix, from).None? {
      FindRoutesReaches(s, prefix, from + 1, i);
    }
  }

  /** A non-empty search result starts at an actual match. */
  lemma {:induction false} FindRoutesFound(s: string, prefix: string, from: nat) returns (i: nat)
    requires FindRoutes(s, prefix, from) != []
    ensures from <= i && MatchAt(s, prefix, i).Some?
    decreases |s| - from
  {
    if MatchAt(s, prefix, from).Some? {
      i := from;
    } else {
      i := FindRoutesFound(s, prefix, from + 1);
    }
  }

  /** Every FastAPI decorator `@app.get("...")` holds an Express-style
      match `app.get("...")` one character later. */
  lemma DecoratorHoldsAppRoute(s: string, i: nat)
    requires MatchAt(s, "@app.", i).Some?
    ensures MatchAt(s, "app.", i + 1) == MatchAt(s, "@app.", i)
  {
    var m := MatchAt(s, "@app.", i).value;
    assert RouteText(s, "@app.", i, m.0, m.1);
    assert s[i + 1..i + 5] == s[i..i + 5][1..];
    MatchAtComplete(s, "app.", i + 1, m.0, m.1);
  }

  /** A file with a FastAPI route always has an Express route as well. */
  lemma DecoratorRoutesImplyAppRoutes(s: string)
    requires FindRoutes(s, "@app.", 0) != []
    ensures FindRoutes(s, "app.", 0) != []
  {
    var i := FindRoutesFound(s, "@app.", 0);
    DecoratorHoldsAppRoute(s, i);
    FindRoutesReaches(s, "app.", 0, i + 1);
  }

  /** Too close to the end for the prefix, nothing more is found. */
  lemma {:induction false} FindRoutesNearEnd(s: string, prefix: string, from: nat)
    requires |s| < from + |prefix|
    ensures FindRoutes(s, prefix, from) == []
    decreases |s| - from
  {
    if from < |s| {
      FindRoutesNearEnd(s, prefix, from + 1);
    }
  }

  const DecoratorText: string := "@app.post(\"/items\")"

  lemma DecoratorTextMatches()
    ensures MatchAt(DecoratorText, "@app.", 0) == Some((Route("post", "/items"), 18))
  {
    var s := DecoratorText;
    assert RouteText(s, "@app.", 0, Route("post", "/items"), 18) by {
      assert s[0..5] == "@app." && s[5..9] == "post" && s[11..17] == "/items";
    }
    MatchAtComplete(s, "@app.", 0, Route("post", "/items"), 18);
  }

  /** A decorator is found by the FastAPI search, with the verb kept in
      lower case and the path taken from between the quotes. */
  lemma DecoratorFound()
    ensures FindRoutes(DecoratorText, "@app.", 0) == [Route("post", "/items")]
  {
    DecoratorTextMatches();
    FindRoutesNearEnd(DecoratorText, "@app.", 18);
  }

  /** The Express search finds the same route one character later. */
  lemma DecoratorFoundByAppSearch()
    ensures FindRoutes(DecoratorText, "app.", 0) == [Route("post", "/items")]
  {
    var s := DecoratorText;
    DecoratorTextMatches();
    DecoratorHoldsAppRoute(s, 0);
    assert !OccursAt(s, "app.", 0) by {
      assert s[0..4][0] == s[0] == '@';
    }
    assert FindRoutes(s, "app.", 0) == FindRoutes(s, "app.", 1);
    FindRoutesNearEnd(s, "app.", 18);
  }

  /** `f'{method.upper()} {route}'`. */
  function Endpoint(rt: Route): string {
    Upper(rt.verb) + " " + rt.path
  }

  predicate IsScript(name: string) {
    EndsWith(name, ".js") || EndsWith(name, ".ts")
  }

  /** What one walked file adds under a key: the first 10 matches of its
      text read with `errors='ignore'`, formatted; nothing for other files
      or when opening it raises. */
  function FileEndpoints(f: Node, prefix: string): (r: seq<string>)
    ensures |r| <= 10
    ensures r != [] ==> f.File? && IsScript(f.name) && LenientText(f.body).Some?
    ensures r != [] <==>
      f.File? && IsScript(f.name) && LenientText(f.body).Some? && FindRoutes(LenientText(f.body).value, prefix, 0) != []
  {
    if f.File? && IsScript(f.name) && LenientText(f.body).Some? then
      var routes := Take(FindRoutes(LenientText(f.body).value, prefix, 0), 10);
      seq(|routes|, k requires 0 <= k < |routes| => Endpoint(routes[k]))
    else []
  }

  /** Undecodable bytes do not stop the scan: the file is scanned as its
      text with those bytes dropped. */
  lemma UndecodableScriptScanned(name: string, lenient: string, prefix: string)
    ensures FileEndpoints(File(name, Undecodable(lenient)), prefix) == FileEndpoints(File(name, Text(lenient)), prefix)
  {
  }

  /** What the files of a walk add under a key, in walk order. */
  function FilesEndpoints(files: seq<Node>, prefix: string): seq<string> {
    if files == [] then [] else FilesEndpoints(files[..|files| - 1], prefix) + FileEndpoints(files[|files| - 1], prefix)
  }

  function WalkEndpoints(steps: seq<WalkStep>, prefix: string): seq<string> {
    if steps == [] then [] else WalkEndpoints(steps[..|steps| - 1], prefix) + FilesEndpoints(steps[|steps| - 1].files, prefix)
  }

  /** The folders the route search does not descend into. */
  const RoutePruned: set<string> := {".git", "node_modules", "dist", "build", ".next"}

  /** `endpoints.setdefault(key, []).append(...)` for each value in turn;
      a key is created only when there is something to append. */
  function AppendTo(d: Listing, key: string, values: seq<string>): (r: Listing)
    ensures values == [] ==> r == d
  {
    if values == [] then d
    else if d == [] then [(key, values)]
    else if d[0].0 == key then [(key, d[0].1 + values)] + d[1..]
    else [d[0]] + AppendTo(d[1..], key, values)
  }

  /** The endpoint dict at any point of the search: "nextjs" first, then
      "express" and "fastapi", each present exactly when non-empty. */
  function Endpoints(nextjs: Option<seq<string>>, express: seq<string>, fastapi: seq<string>): (r: Listing)
    ensures |r| <= 3
  {
    Entry("nextjs", nextjs) + (if express == [] then [] else [("express", express)])
      + (if fastapi == [] then [] else [("fastapi", fastapi)])
  }

  /** Appending under a key skips the entries of other keys before it. */
  lemma {:induction false} AppendToAfter(front: Listing, rest: Listing, key: string, values: seq<string>)
    requires forall i :: 0 <= i < |front| ==> front[i].0 != key
    ensures AppendTo(front + rest, key, values) == front + AppendTo(rest, key, values)
    decreases |front|
  {
    if values == [] {
    } else if front == [] {
      assert front + rest == rest;
    } else {
      var tail := front[1..];
      var d := front + rest;
      assert d[0] == front[0] && d[1..] == tail + rest;
      AppendToAfter(tail, rest, key, values);
      var a := AppendTo(rest, key, values);
      assert AppendTo(d, key, values) == [front[0]] + (tail + a);
      assert front == [front[0]] + tail;
    }
  }

  /** Appending under "express" extends (or creates) the Express entry,
      which sits right after the Next.js one. */
  lemma AppendExpress(nextjs: Option<seq<string>>, express: seq<string>, fastapi: seq<string>, e: seq<string>)
    requires fastapi != [] ==> express != []
    ensures AppendTo(Endpoints(nextjs, express, fastapi), "express", e) == Endpoints(nextjs, express + e, fastapi)
  {
    var n := Entry("nextjs", nextjs);
    var x := if express == [] then [] else [("express", express)];
    var y := if fastapi == [] then [] else [("fastapi", fastapi)];
    var x1 := if express + e == [] then [] else [("express", express + e)];
    assert Endpoints(nextjs, express, fastapi) == n + (x + y);
    AppendToAfter(n, x + y, "express", e);
    if e == [] {
      assert express + e == express;
    } else if x == [] {
      assert x + y == [] && express + e == e;
    } else {
      assert (x + y)[0] == ("express", express) && (x + y)[1..] == y;
    }
    assert AppendTo(x + y, "express", e) == x1 + y;
    assert Endpoints(nextjs, express + e, fastapi) == n + (x1 + y);
  }

  /** Appending under "fastapi" extends (or creates) the last entry, when
      an Express entry is there whenever there is something to append. */
  lemma AppendFastapi(nextjs: Option<seq<string>>, express: seq<string>, fastapi: seq<string>, f: seq<string>)
    requires f != [] ==> express != []
    ensures AppendTo(Endpoints(nextjs, express, fastapi), "fastapi", f) == Endpoints(nextjs, express, fastapi + f)
  {
    var front := Entry("nextjs", nextjs) + (if express == [] then [] else [("express", express)]);
    var y := if fastapi == [] then [] else [("fastapi", fastapi)];
    var y1 := if fastapi + f == [] then [] else [("fastapi", fastapi + f)];
    AppendToAfter(front, y, "fastapi", f);
    if f == [] {
      assert fastapi + f == fastapi;
    } else if y == [] {
      assert fastapi + f == f;
    }
    assert AppendTo(y, "fastapi", f) == y1;
  }

  /** One file's matches appended to the dict keep its shape, provided no
      FastAPI list ever gets ahead of the Express one. */
  lemma AppendFileKeepsShape(nextjs: Option<seq<string>>, express: seq<string>, fastapi: seq<string>,
                             e: seq<string>, f: seq<string>)
    requires fastapi != [] ==> express != []
    requires f != [] ==> e != []
    ensures AppendTo(AppendTo(Endpoints(nextjs, express, fastapi), "express", e), "fastapi", f)
         == Endpoints(nextjs, express + e, fastapi + f)
  {
    AppendExpress(nextjs, express, fastapi, e);
    AppendFastapi(nextjs, express + e, fastapi, f);
  }

  lemma FileEndpointsOrder(f: Node)
    ensures FileEndpoints(f, "@app.") != [] ==> FileEndpoints(f, "app.") != []
  {
    if FileEndpoints(f, "@app.") != [] {
      DecoratorRoutesImplyAppRoutes(LenientText(f.body).value);
    }
  }

  lemma FilesEndpointsSnoc(base: seq<string>, files: seq<Node>, j: nat, prefix: string)
    requires j < |files|
    ensures FilesEndpoints(files[..j + 1], prefix) == FilesEndpoints(files[..j], prefix) + FileEndpoints(files[j], prefix)
    ensures base + FilesEndpoints(files[..j + 1], prefix)
         == (base + FilesEndpoints(files[..j], prefix)) + FileEndpoints(files[j], prefix)
  {
    assert files[..j + 1][..j] == files[..j] && files[..j + 1][j] == files[j];
    AppendAssoc(base, FilesEndpoints(files[..j], prefix), FileEndpoints(files[j], prefix));
  }

  lemma AppendAssoc<T>(a: seq<T>, b: seq<T>, c: seq<T>)
    ensures a + (b + c) == (a + b) + c
  {
  }

  lemma WalkEndpointsSnoc(steps: seq<WalkStep>, k: nat, prefix: string)
    requires k < |steps|
    ensures WalkEndpoints(steps[..k + 1], prefix) == WalkEndpoints(steps[..k], prefix) + FilesEndpoints(steps[k].files, prefix)
  {
    assert steps[..k + 1][..k] == steps[..k] && steps[..k + 1][k] == steps[k];
  }

  /** The inner loop over the files of one walked folder. */
  method ScanFiles(files: seq<Node>, endpoints: Listing, ghost nextjs: Option<seq<string>>,
                   ghost express: seq<string>, ghost fastapi: seq<string>) returns (r: Listing)
    requires fastapi != [] ==> express != []
    requires endpoints == Endpoints(nextjs, express, fastapi)
    ensures fastapi + FilesEndpoints(files, "@app.") != [] ==> express + FilesEndpoints(files, "app.") != []
    ensures r == Endpoints(nextjs, express + FilesEndpoints(files, "app."), fastapi + FilesEndpoints(files, "@app."))
  {
    r := endpoints;
    assert files[..0] == [] && express + [] == express && fastapi + [] == fastapi;
    for j := 0 to |files|
      invariant fastapi + FilesEndpoints(files[..j], "@app.") != [] ==> express + FilesEndpoints(files[..j], "app.") != []
      invariant r == Endpoints(nextjs, express + FilesEndpoints(files[..j], "app."), fastapi + FilesEndpoints(files[..j], "@app."))
    {
      r := ScanFile(files[j], r, nextjs, express + FilesEndpoints(files[..j], "app."), fastapi + FilesEndpoints(files[..j], "@app."));
      FilesEndpointsSnoc(express, files, j, "app.");
      FilesEndpointsSnoc(fastapi, files, j, "@app.");
    }
    assert files[..|files|] == files;
  }

  /** The body of the loop for one file: its `app.` matches are appended
      under "express" and its `@app.` matches under "fastapi", and the
      listing keeps its shape. */
  method ScanFile(f: Node, endpoints: Listing, ghost nextjs: Option<seq<string>>,
                  ghost express: seq<string>, ghost fastapi: seq<string>) returns (r: Listing)
    requires fastapi != [] ==> express != []
    requires endpoints == Endpoints(nextjs, express, fastapi)
    ensures fastapi + FileEndpoints(f, "@app.") != [] ==> express + FileEndpoints(f, "app.") != []
    ensures r == Endpoints(nextjs, express + FileEndpoints(f, "app."), fastapi + FileEndpoints(f, "@app."))
  {
    var e := FileEndpoints(f, "app.");
    var d := FileEndpoints(f, "@app.");
    FileEndpointsOrder(f);
    AppendFileKeepsShape(nextjs, express, fastapi, e, d);
    r := AppendTo(AppendTo(endpoints, "express", e), "fastapi", d);
  }

  /** `find_api_endpoints(repo_path)`: the Next.js routes, then a pruned
      walk that appends each script's matches under "express" and
      "fastapi". */
  method FindApiEndpoints(repoPath: string, root: Node) returns (endpoints: Listing)
    ensures endpoints == Endpoints(NextjsRoutes(root),
                                   WalkEndpoints(Walk(repoPath, root, RoutePruned), "app."),
                                   WalkEndpoints(Walk(repoPath, root, RoutePruned), "@app."))
  {
    var nextjs := NextjsRoutes(root);
    endpoints := Entry("nextjs", nextjs);
    var steps := Walk(repoPath, root, RoutePruned);
    assert steps[..0] == [] && endpoints == Endpoints(nextjs, [], []);
    for k := 0 to |steps|
      invariant WalkEndpoints(steps[..k], "@app.") != [] ==> WalkEndpoints(steps[..k], "app.") != []
      invariant endpoints == Endpoints(nextjs, WalkEndpoints(steps[..k], "app."), WalkEndpoints(steps[..k], "@app."))
    {
      endpoints := ScanFiles(steps[k].files, endpoints, nextjs,
                             WalkEndpoints(steps[..k], "app."), WalkEndpoints(steps[..k], "@app."));
      WalkEndpointsSnoc(steps, k, "app.");
      WalkEndpointsSnoc(steps, k, "@app.");
    }
    assert steps[..|steps|] == steps;
  }
}
