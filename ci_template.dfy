/** Choice of a GitHub Actions workflow template from a repository shape
    (api/generate_ci.js, `selectCITemplate`). The template bodies are
    constant YAML texts; here each is one distinct constructor. */
module CiTemplates {
  import opened Wrappers

  datatype Template = NextjsCi | NodeCi | PythonCi | GoCi | RustCi | JavaCi | GenericCi

  /** `new Set(field || [])`: an absent list is the empty set. */
  function TagSet(field: Option<seq<string>>): (r: set<string>)
    ensures forall t :: t in r <==> field.Some? && t in field.value
  {
    match field
    case None => {}
    case Some(s) => set t | t in s
  }

  /** Any JavaScript or Node signal. */
  predicate NodeSignal(langs: set<string>, fws: set<string>) {
    "javascript" in langs || "typescript" in langs || "nodejs" in fws || "npm" in fws
  }

  /** Any Python signal. */
  predicate PythonSignal(langs: set<string>, fws: set<string>) {
    "python" in langs || "django" in fws || "fastapi" in fws
  }

  /** The evidence each template asks for, ignoring the others. */
  predicate Signals(t: Template, langs: set<string>, fws: set<string>) {
    match t
    case NextjsCi => "typescript" in langs && "nextjs" in fws
    case NodeCi => ("typescript" in langs && "nuxt" in fws) || NodeSignal(langs, fws)
    case PythonCi => PythonSignal(langs, fws)
    case GoCi => "go" in langs
    case RustCi => "rust" in langs
    case JavaCi => "java" in langs || "maven" in fws || "gradle" in fws
    case GenericCi => true
  }

  /** The order in which the templates are tried. */
  function Priority(t: Template): nat {
    match t
    case NextjsCi => 0
    case NodeCi => 1
    case PythonCi => 2
    case GoCi => 3
    case RustCi => 4
    case JavaCi => 5
    case GenericCi => 6
  }

  /** `selectCITemplate(repoShape)`: the first template, in priority
      order, whose evidence is present. */
  function SelectCiTemplate(languages: Option<seq<string>>, frameworks: Option<seq<string>>): (r: Template)
    ensures Signals(r, TagSet(languages), TagSet(frameworks))
    ensures forall t :: Priority(t) < Priority(r) ==> !Signals(t, TagSet(languages), TagSet(frameworks))
  {
    var langs := TagSet(languages);
    var fws := TagSet(frameworks);
    if "typescript" in langs && "nextjs" in fws then NextjsCi
    else if "typescript" in langs && "nuxt" in fws then NodeCi
    else if "javascript" in langs || "typescript" in langs || "nodejs" in fws || "npm" in fws then NodeCi
    else if "python" in langs || "django" in fws || "fastapi" in fws then PythonCi
    else if "go" in langs then GoCi
    else if "rust" in langs then RustCi
    else if "java" in langs || "maven" in fws || "gradle" in fws then JavaCi
    else GenericCi
  }

  /** The first-match description picks exactly one template: any two
      templates meeting it are the same. */
  lemma FirstMatchUnique(t: Template, u: Template, langs: set<string>, fws: set<string>)
    requires Signals(t, langs, fws) && forall v :: Priority(v) < Priority(t) ==> !Signals(v, langs, fws)
    requires Signals(u, langs, fws) && forall v :: Priority(v) < Priority(u) ==> !Signals(v, langs, fws)
    ensures t == u
  {
    assert !(Priority(t) < Priority(u)) && !(Priority(u) < Priority(t));
  }

  /** TypeScript with Next.js gives the Next.js template. */
  lemma TypeScriptNextjs(languages: seq<string>, frameworks: seq<string>)
    requires "typescript" in languages && "nextjs" in frameworks
    ensures SelectCiTemplate(Some(languages), Some(frameworks)) == NextjsCi
  {
  }

  /** JavaScript with Next.js (and no TypeScript) gives the Node template,
      not the Next.js one. */
  lemma JavaScriptNextjsIsNode(languages: seq<string>, frameworks: seq<string>)
    requires "javascript" in languages && "typescript" !in languages && "nextjs" in frameworks
    ensures SelectCiTemplate(Some(languages), Some(frameworks)) == NodeCi
  {
  }

  /** The Nuxt rule never changes the outcome: without it, TypeScript
      still reaches the Node template. */
  lemma NuxtRuleRedundant(langs: set<string>, fws: set<string>)
    ensures Signals(NodeCi, langs, fws) <==> NodeSignal(langs, fws)
  {
  }

  /** Python evidence gives the Python template exactly when no JavaScript
      or Node evidence is present. */
  lemma PythonOnlyWithoutNode(languages: Option<seq<string>>, frameworks: Option<seq<string>>)
    requires PythonSignal(TagSet(languages), TagSet(frameworks))
    ensures SelectCiTemplate(languages, frameworks) == PythonCi <==> !NodeSignal(TagSet(languages), TagSet(frameworks))
  {
  }

  /** Missing fields count as empty lists; with nothing known the generic
      template is chosen. */
  lemma MissingFieldsAreEmpty(languages: Option<seq<string>>, frameworks: Option<seq<string>>)
    ensures SelectCiTemplate(None, frameworks) == SelectCiTemplate(Some([]), frameworks)
    ensures SelectCiTemplate(languages, None) == SelectCiTemplate(languages, Some([]))
    ensures SelectCiTemplate(None, None) == GenericCi
  {
    assert TagSet(None) == TagSet(Some([]));
  }
}
