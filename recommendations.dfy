/** Recommendations derived from the risk flags (api/llm/generate_ci.py):
    one constant record per raised flag, in a fixed order. */
module Recommendations {
  import opened Strings
  import opened Risks
  import opened IrBuilder

  datatype Recommendation = Recommendation(title: string, description: string, priority: string, impact: string)

  const ReadmeRecommendation := Recommendation(
    "Add a README file",
    "The repository does not contain a README. Adding one will help new contributors understand the purpose, setup steps, and usage of the project.",
    "high",
    "Improves onboarding and contributor experience")

  const CiRecommendation := Recommendation(
    "Set up Continuous Integration (CI)",
    "No CI workflow was detected. Adding a CI pipeline can automatically run tests and checks on every pull request to prevent regressions.",
    "high",
    "Improves code reliability and development velocity")

  const TestsRecommendation := Recommendation(
    "Introduce automated tests",
    "The repository does not appear to include automated tests. Adding unit or integration tests will help ensure correctness as the codebase evolves.",
    "medium",
    "Reduces bugs and increases confidence in changes")

  const EnvExampleRecommendation := Recommendation(
    "Provide an environment variable example file",
    "No example environment configuration file was found. Including a `.env.example` file helps contributors configure the project correctly.",
    "low",
    "Simplifies local setup and reduces configuration errors")

  function Bit(b: bool): nat { if b then 1 else 0 }

  /** The recommendations for a set of flags: one per raised flag, in the
      order README, CI, tests, environment example. */
  function RecommendationsFor(risks: RiskFlags): (r: seq<Recommendation>)
    ensures |r| == Bit(risks.missingReadme) + Bit(risks.missingCi) + Bit(risks.missingTests) + Bit(risks.missingEnvExample)
    ensures NoDuplicates(r)
    ensures ReadmeRecommendation in r <==> risks.missingReadme
    ensures CiRecommendation in r <==> risks.missingCi
    ensures TestsRecommendation in r <==> risks.missingTests
    ensures EnvExampleRecommendation in r <==> risks.missingEnvExample
    ensures risks.missingReadme ==> r[0] == ReadmeRecommendation
    ensures risks.missingCi ==> r[Bit(risks.missingReadme)] == CiRecommendation
    ensures risks.missingTests ==> r[Bit(risks.missingReadme) + Bit(risks.missingCi)] == TestsRecommendation
    ensures risks.missingEnvExample ==> r[|r| - 1] == EnvExampleRecommendation
  {
    RecommendationsDistinct();
    PickSpec(ReadmeRecommendation, CiRecommendation, TestsRecommendation, EnvExampleRecommendation,
      risks.missingReadme, risks.missingCi, risks.missingTests, risks.missingEnvExample);
    Pick(ReadmeRecommendation, CiRecommendation, TestsRecommendation, EnvExampleRecommendation,
      risks.missingReadme, risks.missingCi, risks.missingTests, risks.missingEnvExample)
  }

  /** The values whose flag is raised, in order. */
  function Pick<T>(a: T, b: T, c: T, d: T, fa: bool, fb: bool, fc: bool, fd: bool): seq<T> {
    (if fa then [a] else []) + (if fb then [b] else []) + (if fc then [c] else []) + (if fd then [d] else [])
  }

  /** Picking from four distinct values keeps them distinct and in order,
      each present exactly when its flag is raised. */
  lemma PickSpec<T>(a: T, b: T, c: T, d: T, fa: bool, fb: bool, fc: bool, fd: bool)
    requires a != b && a != c && a != d && b != c && b != d && c != d
    ensures var r := Pick(a, b, c, d, fa, fb, fc, fd);
      && |r| == Bit(fa) + Bit(fb) + Bit(fc) + Bit(fd)
      && NoDuplicates(r)
      && (a in r <==> fa) && (b in r <==> fb) && (c in r <==> fc) && (d in r <==> fd)
      && (fa ==> r[0] == a) && (fb ==> r[Bit(fa)] == b)
      && (fc ==> r[Bit(fa) + Bit(fb)] == c) && (fd ==> r[|r| - 1] == d)
  {
  }

  /** The four records differ: their titles start with different letters. */
  lemma RecommendationsDistinct()
    ensures ReadmeRecommendation != CiRecommendation && ReadmeRecommendation != TestsRecommendation
    ensures ReadmeRecommendation != EnvExampleRecommendation && CiRecommendation != TestsRecommendation
    ensures CiRecommendation != EnvExampleRecommendation && TestsRecommendation != EnvExampleRecommendation
  {
    assert ReadmeRecommendation.title[0] == 'A' && CiRecommendation.title[0] == 'S';
    assert TestsRecommendation.title[0] == 'I' && EnvExampleRecommendation.title[0] == 'P';
  }

  /** `generate_recommendations(ir)`. */
  function GenerateRecommendations(ir: Ir): (r: seq<Recommendation>)
    ensures r == RecommendationsFor(ir.risks)
  {
    RecommendationsFor(ir.risks)
  }

  /** No flag gives no recommendation; all four give all four, by priority
      high, high, medium, low. */
  lemma RecommendationExtremes()
    ensures RecommendationsFor(RiskFlags(false, false, false, false)) == []
    ensures var all := RecommendationsFor(RiskFlags(true, true, true, true));
      |all| == 4 && all[0].priority == "high" && all[1].priority == "high"
      && all[2].priority == "medium" && all[3].priority == "low"
  {
  }
}
