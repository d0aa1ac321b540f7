/**
 * The scoring and gap logic of `analyze_resume_with_projects` in the
 * Streamlit dashboard (`app.py`): every selected project is ranked and
 * recommended with a relevance tier, the missing keywords are an unordered
 * set difference, and the overall score blends the project average with
 * the résumé score.
 */
module Dashboard {
  import opened Wrappers
  import opened Text
  import opened Seqs
  import opened Sorting
  import opened LatexScan
  import opened LatexParser
  import Utils
  import Analyzer

  /** The relevance marks: 🏆, ⭐ and 💡. */
  datatype Tier = Trophy | Star | Idea

  /** The colours the results page shows: 🟢, 🟡 and 🔴. */
  datatype Badge = Green | Yellow | Red

  function TierOf(score: real): Tier {
    if score >= 80.0 then Trophy else if score >= 60.0 then Star else Idea
  }

  function BadgeOf(score: real): Badge {
    if score >= 80.0 then Green else if score >= 60.0 then Yellow else Red
  }

  /** The mark a recommendation gets and the colour it is shown in use the same cut-offs. */
  lemma TierMatchesBadge(score: real)
    ensures TierOf(score) == Trophy <==> BadgeOf(score) == Green
    ensures TierOf(score) == Star <==> BadgeOf(score) == Yellow
    ensures TierOf(score) == Idea <==> BadgeOf(score) == Red
    ensures TierOf(score) == Trophy <==> score >= 80.0
    ensures TierOf(score) == Idea <==> score < 60.0
  {
  }

  datatype ProjectRecommendation = ProjectRecommendation(
    projectName: string,
    relevanceScore: real,
    tier: Tier,
    keySkills: seq<string>,
    techStack: seq<string>)

  datatype DashboardResult = DashboardResult(
    overallScore: int,
    recommendations: seq<ProjectRecommendation>,
    missingKeywords: seq<Analyzer.MissingKeyword>)

  /** The default `max_keywords` of the utility keyword extractor. */
  const JobKeywordCount := 25
  /** How many missing keywords are reported. */
  const MissingCap := 10

  // ----------------------------------------------------------- recommendations

  function RecommendationOf(d: ScoreData): ProjectRecommendation {
    ProjectRecommendation(d.projectName, d.overallScore, TierOf(d.overallScore), d.matchedKeywords, d.techStack)
  }

  function Recommendations(ranked: seq<ScoreData>): seq<ProjectRecommendation> {
    Map(ranked, RecommendationOf)
  }

  /** The recommendation loop: one entry per ranked project. */
  method BuildRecommendations(ranked: seq<ScoreData>) returns (recs: seq<ProjectRecommendation>)
    ensures recs == Recommendations(ranked)
  {
    recs := [];
    for i := 0 to |ranked|
      invariant |recs| == i && forall k :: 0 <= k < i ==> recs[k] == RecommendationOf(ranked[k])
    {
      recs := recs + [RecommendationOf(ranked[i])];
    }
  }

  /**
   * Ranked with `top_k = len(parsed_projects)`, every project gets exactly
   * one recommendation, by relevance highest first.
   */
  lemma EveryProjectRecommended(projects: seq<ParsedProject>, job: string, lists: seq<seq<string>>)
    requires ListsKeywords(lists, projects)
    ensures var recs := Recommendations(PyPrefix(Sort(Scores(projects, job, lists), ByKeyDesc(OverallOf)), |projects|));
      |recs| == |projects| &&
      (forall i :: 0 <= i < |projects| ==> exists j :: 0 <= j < |recs| && recs[j].projectName == projects[i].name) &&
      (forall i, j :: 0 <= i < j < |recs| ==> recs[i].relevanceScore >= recs[j].relevanceScore)
  {
    var scored := Scores(projects, job, lists);
    var sorted := Sort(scored, ByKeyDesc(OverallOf));
    SortByKeyDesc(scored, OverallOf);
    var ranked := PyPrefix(sorted, |projects|);
    assert ranked == sorted;
    var recs := Recommendations(ranked);
    forall i | 0 <= i < |projects|
      ensures exists j :: 0 <= j < |recs| && recs[j].projectName == projects[i].name
    {
      var j := PermutationIndex(sorted, scored, i);
      assert recs[j].projectName == sorted[j].projectName;
    }
  }

  // ----------------------------------------------------------- missing keywords

  /** `set(job_keywords) - set(project_keywords)`. */
  function MissingSet(jobKeywords: seq<string>, known: set<string>): set<string> {
    (set w | w in jobKeywords) - known
  }

  /** The first ten of some listing `order` of the missing set, tagged as the analyzer tags them. */
  function MissingKeywords(order: seq<string>, jobKeywords: seq<string>): seq<Analyzer.MissingKeyword> {
    Map(PyPrefix(order, MissingCap), kw => Analyzer.MissingEntry(kw, jobKeywords))
  }

  /** `list(set(job_keywords) - set(project_keywords))[:10]`, the set listed in an unspecified order. */
  method BuildMissingKeywords(jobKeywords: seq<string>, projectKeywords: seq<string>, ghost known: set<string>)
    returns (missing: seq<Analyzer.MissingKeyword>, ghost order: seq<string>)
    requires forall w :: w in projectKeywords <==> w in known
    ensures Enumerates(order, MissingSet(jobKeywords, known))
    ensures missing == MissingKeywords(order, jobKeywords)
  {
    var jobSet := set w | w in jobKeywords;
    var projectSet := set w | w in projectKeywords;
    assert projectSet == known;
    var listed := ListOfSet(jobSet - projectSet);
    order := listed;
    var top := PyPrefix(listed, MissingCap);
    missing := [];
    for i := 0 to |top|
      invariant |missing| == i && forall k :: 0 <= k < i ==> missing[k] == Analyzer.MissingEntry(top[k], jobKeywords)
    {
      missing := missing + [Analyzer.MissingEntry(top[i], jobKeywords)];
    }
  }

  /**
   * At most ten distinct entries, each a job keyword no project lists, of
   * category "Technical" and of high importance exactly when among the
   * first five job keywords; when at most ten are missing, all are listed.
   */
  lemma MissingFacts(order: seq<string>, jobKeywords: seq<string>, known: set<string>)
    requires Enumerates(order, MissingSet(jobKeywords, known))
    ensures var m := MissingKeywords(order, jobKeywords);
      |m| <= MissingCap &&
      forall i :: 0 <= i < |m| ==>
        m[i].keyword in jobKeywords && m[i].keyword !in known && m[i].category == "Technical" &&
        (m[i].importance == Analyzer.High <==> m[i].keyword in jobKeywords[..if |jobKeywords| < 5 then |jobKeywords| else 5])
    ensures var m := MissingKeywords(order, jobKeywords);
      forall i, j :: 0 <= i < j < |m| ==> m[i].keyword != m[j].keyword
    ensures var m := MissingKeywords(order, jobKeywords);
      |order| <= MissingCap ==>
        forall w :: w in jobKeywords && w !in known ==> exists i :: 0 <= i < |m| && m[i].keyword == w
  {
    var top := PyPrefix(order, MissingCap);
    var m := MissingKeywords(order, jobKeywords);
    forall i | 0 <= i < |m|
      ensures m[i].keyword == top[i] && top[i] in MissingSet(jobKeywords, known)
    {
      assert top[i] == order[i];
    }
    if |order| <= MissingCap {
      forall w | w in jobKeywords && w !in known
        ensures exists i :: 0 <= i < |m| && m[i].keyword == w
      {
        assert w in MissingSet(jobKeywords, known);
        var i :| 0 <= i < |order| && order[i] == w;
        assert m[i].keyword == w;
      }
    }
  }

  // ----------------------------------------------------------- overall score

  /** `int(sum(top_scores) / len(top_scores))` over the first three ranked projects. */
  function ProjectAverage(ranked: seq<ScoreData>): int
    requires |ranked| > 0
  {
    Utils.TruncateToInt(Mean(PyPrefix(ranked, 3), OverallOf))
  }

  /**
   * The overall score: with ranked projects, the project average, blended
   * 60/40 with `format_score` of the résumé's `overall_score` when the
   * analysis has one; without ranked projects, that formatted score, or 70.
   */
  function OverallScore(ranked: seq<ScoreData>, resumeScore: Option<Utils.ScoreValue>): int {
    if |ranked| > 0 then
      var avg := ProjectAverage(ranked);
      match resumeScore
      case Some(v) => Utils.TruncateToInt(0.6 * (avg as real) + 0.4 * (Utils.FormatScore(v) as real))
      case None => avg
    else
      match resumeScore
      case Some(v) => Utils.FormatScore(v)
      case None => 70
  }

  lemma ProjectAverageBounds(ranked: seq<ScoreData>)
    requires |ranked| > 0
    requires forall i :: 0 <= i < |ranked| ==> 0.0 <= ranked[i].overallScore <= 100.0
    ensures 0 <= ProjectAverage(ranked) <= 100
  {
    var top := PyPrefix(ranked, 3);
    assert forall i :: 0 <= i < |top| ==> top[i] == ranked[i];
    MeanBounds(top, OverallOf, 0.0, 100.0);
  }

  /**
   * With every project score in [0, 100] the overall score lies in
   * [0, 100]; the blend lies between the project average and the résumé
   * score; without a résumé score it is the project average, or 70.
   */
  lemma OverallScoreFacts(ranked: seq<ScoreData>, resumeScore: Option<Utils.ScoreValue>)
    requires forall i :: 0 <= i < |ranked| ==> 0.0 <= ranked[i].overallScore <= 100.0
    ensures 0 <= OverallScore(ranked, resumeScore) <= 100
    ensures |ranked| > 0 && resumeScore.Some? ==>
      var a := ProjectAverage(ranked);
      var f := Utils.FormatScore(resumeScore.value);
      (a <= f ==> a <= OverallScore(ranked, resumeScore) <= f) &&
      (f <= a ==> f <= OverallScore(ranked, resumeScore) <= a)
    ensures resumeScore.None? ==>
      OverallScore(ranked, resumeScore) == if |ranked| > 0 then ProjectAverage(ranked) else 70
  {
    if |ranked| > 0 {
      ProjectAverageBounds(ranked);
    }
  }

  // ----------------------------------------------------------- analysis

  /**
   * `analyze_resume_with_projects` from the parse of the selected projects'
   * LaTeX on. `nlp` is the toolkit's outcome on the job description and
   * `resumeScore` the `overall_score` of the résumé analysis, if it has one.
   * `phrasingRaises` tells whether the phrasing step (app.py:156-187) raises:
   * its handler calls a `logger` that app.py never defines, so the
   * `NameError` reaches the outer handler and the analysis gives `None`.
   * No parsed project gives `None` too.
   */
  method AnalyzeResumeWithProjects(latex: string, job: string, nlp: Utils.NlpOutcome, resumeScore: Option<Utils.ScoreValue>,
                                   phrasingRaises: bool)
    returns (result: Option<DashboardResult>, ghost parsed: seq<ParsedProject>, ghost lists: seq<seq<string>>, ghost order: seq<string>)
    ensures parsed == ProjectsOf(Blocks(latex, 0))
    ensures result.None? <==> parsed == [] || phrasingRaises
    ensures ListsKeywords(lists, parsed)
    ensures result.Some? ==>
      var ranked := PyPrefix(Sort(Scores(parsed, job, lists), ByKeyDesc(OverallOf)), |parsed|);
      result.value.recommendations == Recommendations(ranked) &&
      result.value.overallScore == OverallScore(ranked, resumeScore) &&
      Enumerates(order, MissingSet(Utils.KeywordsFor(job, JobKeywordCount, nlp), Analyzer.ProjectKeywordSet(parsed))) &&
      result.value.missingKeywords == MissingKeywords(order, Utils.KeywordsFor(job, JobKeywordCount, nlp))
  {
    var projects := ParseProjectsFromLatex(latex);
    parsed := projects;
    lists := [];
    order := [];
    if projects == [] {
      return None, parsed, lists, order;
    }
    var ranked;
    ranked, lists := RankProjectsForJob(projects, job, |projects|);
    var recs := BuildRecommendations(ranked);
    var jobKeywords := Utils.ExtractKeywordsFromText(job, JobKeywordCount, nlp);
    var projectKeywords := Analyzer.ProjectKeywords(projects);
    var missing;
    missing, order := BuildMissingKeywords(jobKeywords, projectKeywords, Analyzer.ProjectKeywordSet(projects));
    if phrasingRaises {
      return None, parsed, lists, order;
    }
    result := Some(DashboardResult(OverallScore(ranked, resumeScore), recs, missing));
  }

  /** The fallback for an empty ranking is never reached: a successful analysis ranks at least one project. */
  lemma RankingNeverEmpty(projects: seq<ParsedProject>, job: string, lists: seq<seq<string>>)
    requires ListsKeywords(lists, projects) && projects != []
    ensures |PyPrefix(Sort(Scores(projects, job, lists), ByKeyDesc(OverallOf)), |projects|)| == |projects| > 0
  {
    assert |Scores(projects, job, lists)| == |projects|;
  }
}
