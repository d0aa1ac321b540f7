/**
 * The deterministic part of `ResumeAnalyzer.analyze_resume_latex_only` in
 * `src/analyzer.py`: which ranked projects become recommendations, which
 * job keywords are reported missing, the overall score, and how that score
 * is written back into the résumé analysis.
 */
module Analyzer {
  import opened Wrappers
  import opened Text
  import opened Seqs
  import opened Sorting
  import opened LatexScan
  import opened LatexParser
  import LlmPipeline
  import Utils

  datatype Recommendation = Recommendation(
    projectName: string,
    relevanceScore: real,
    keySkills: seq<string>,
    techStack: seq<string>)

  datatype Importance = High | Medium

  datatype MissingKeyword = MissingKeyword(keyword: string, category: string, importance: Importance)

  datatype AnalysisResult = AnalysisResult(
    overallScore: int,
    recommendations: seq<Recommendation>,
    missingKeywords: seq<MissingKeyword>,
    improvedProjects: seq<string>)

  /** How many ranked projects the analysis asks for. */
  const RankedCount := 8
  /** How many missing keywords are reported. */
  const MissingCap := 15
  /** Missing keywords among this many leading job keywords are of high importance. */
  const HighImportanceCount := 5
  /** The overall score when no project is recommended. */
  const DefaultOverallScore := 70

  // ----------------------------------------------------------- recommendations

  /** The relevance threshold: a ranked project scoring above 50 is recommended. */
  predicate IsGoodMatch(d: ScoreData) {
    d.overallScore > 50.0
  }

  function RecommendationOf(d: ScoreData): Recommendation {
    Recommendation(d.projectName, d.overallScore, d.matchedKeywords, d.techStack)
  }

  /** The recommendations built from a ranking: the good matches, in ranked order. */
  function Recommendations(ranked: seq<ScoreData>): seq<Recommendation> {
    Map(Filter(ranked, IsGoodMatch), RecommendationOf)
  }

  /** The recommendation loop: one entry appended per ranked project above the threshold. */
  method BuildRecommendations(ranked: seq<ScoreData>) returns (recs: seq<Recommendation>)
    ensures recs == Recommendations(ranked)
  {
    recs := [];
    for i := 0 to |ranked|
      invariant recs == Map(Filter(ranked[..i], IsGoodMatch), RecommendationOf)
    {
      FilterMapSnoc(ranked, i, IsGoodMatch, RecommendationOf);
      if ranked[i].overallScore > 50.0 {
        recs := recs + [RecommendationOf(ranked[i])];
      }
    }
    assert ranked[..|ranked|] == ranked;
  }

  /** Every recommendation scores above 50, and there are no more than ranked projects. */
  lemma RecommendationsAboveThreshold(ranked: seq<ScoreData>)
    ensures |Recommendations(ranked)| <= |ranked|
    ensures forall i :: 0 <= i < |Recommendations(ranked)| ==> Recommendations(ranked)[i].relevanceScore > 50.0
  {
    var good := Filter(ranked, IsGoodMatch);
    forall i | 0 <= i < |good|
      ensures good[i].overallScore > 50.0
    {
      assert good[i] in good;
    }
  }

  /**
   * A ranked project is recommended exactly when it scores above 50, and
   * each recommendation copies some ranked project's name, score, matched
   * keywords and tech stack.
   */
  lemma RecommendedIff(ranked: seq<ScoreData>)
    ensures forall d :: d in ranked ==> (IsGoodMatch(d) <==> RecommendationOf(d) in Recommendations(ranked))
    ensures forall r :: r in Recommendations(ranked) ==> exists d :: d in ranked && r == RecommendationOf(d)
  {
    var good := Filter(ranked, IsGoodMatch);
    var recs := Recommendations(ranked);
    forall r | r in recs
      ensures exists d :: d in ranked && r == RecommendationOf(d)
    {
      var i :| 0 <= i < |recs| && recs[i] == r;
      assert good[i] in good;
    }
    forall d | d in ranked
      ensures IsGoodMatch(d) <==> RecommendationOf(d) in recs
    {
      if RecommendationOf(d) in recs {
        var i :| 0 <= i < |recs| && recs[i] == RecommendationOf(d);
        assert good[i] in good;
      }
      if IsGoodMatch(d) {
        assert d in good;
        var i :| 0 <= i < |good| && good[i] == d;
        assert recs[i] == RecommendationOf(d);
      }
    }
  }

  predicate ScoresAtLeast(a: ScoreData, b: ScoreData) {
    a.overallScore >= b.overallScore
  }

  /** Recommendations keep ranked order: a ranking highest first gives recommendations highest first. */
  lemma RecommendationsOrdered(ranked: seq<ScoreData>)
    requires forall i, j :: 0 <= i < j < |ranked| ==> ranked[i].overallScore >= ranked[j].overallScore
    ensures forall i, j :: 0 <= i < j < |Recommendations(ranked)| ==>
      Recommendations(ranked)[i].relevanceScore >= Recommendations(ranked)[j].relevanceScore
  {
    assert forall i, j :: 0 <= i < j < |ranked| ==> ScoresAtLeast(ranked[i], ranked[j]);
    FilterPairwise(ranked, IsGoodMatch, ScoresAtLeast);
  }

  /**
   * Built from `rank_projects_for_job(..., top_k=8)`, there are at most
   * eight recommendations, each scoring in (50, 100], by relevance highest
   * first.
   */
  lemma RankedRecommendations(projects: seq<ParsedProject>, job: string, lists: seq<seq<string>>)
    requires ListsKeywords(lists, projects)
    ensures var recs := Recommendations(PyPrefix(Sort(Scores(projects, job, lists), ByKeyDesc(OverallOf)), RankedCount));
      |recs| <= RankedCount &&
      (forall i :: 0 <= i < |recs| ==> 50.0 < recs[i].relevanceScore <= 100.0) &&
      (forall i, j :: 0 <= i < j < |recs| ==> recs[i].relevanceScore >= recs[j].relevanceScore)
  {
    var scored := Scores(projects, job, lists);
    var ranked := PyPrefix(Sort(scored, ByKeyDesc(OverallOf)), RankedCount);
    RankingFacts(scored, RankedCount, ScoreData("", 0.0, 0.0, 0.0, [], []));
    RecommendationsAboveThreshold(ranked);
    RecommendationsOrdered(ranked);
    RankedScoresBounded(scored, ranked);
  }

  lemma RankedScoresBounded(scored: seq<ScoreData>, ranked: seq<ScoreData>)
    requires forall i :: 0 <= i < |scored| ==> scored[i].overallScore <= 100.0
    requires forall i :: 0 <= i < |ranked| ==> ranked[i] in multiset(scored)
    ensures forall i :: 0 <= i < |Recommendations(ranked)| ==> Recommendations(ranked)[i].relevanceScore <= 100.0
  {
    var good := Filter(ranked, IsGoodMatch);
    forall i | 0 <= i < |good|
      ensures good[i].overallScore <= 100.0
    {
      assert good[i] in good;
      var k :| 0 <= k < |ranked| && ranked[k] == good[i];
      assert ranked[k] in scored;
    }
  }

  // ----------------------------------------------------------- missing keywords

  /** Every keyword of any of the projects. */
  function ProjectKeywordSet(projects: seq<ParsedProject>): set<string> {
    UnionOf(projects, KeywordSet)
  }

  /**
   * `project_keywords`: the keyword lists of all projects, concatenated;
   * a word is listed exactly when it is a keyword of some project.
   */
  method ProjectKeywords(projects: seq<ParsedProject>) returns (keywords: seq<string>)
    ensures forall w :: w in keywords <==> w in ProjectKeywordSet(projects)
  {
    keywords := [];
    for i := 0 to |projects|
      invariant forall w :: w in keywords <==> w in ProjectKeywordSet(projects[..i])
    {
      var more := ExtractKeywordsFromProject(projects[i]);
      TakeSnoc(projects, i);
      assert projects[..i + 1][..i] == projects[..i];
      keywords := keywords + more;
    }
    assert projects[..|projects|] == projects;
  }

  /** A word is a keyword of some project exactly when one project's keyword set holds it. */
  lemma ProjectKeywordSetMeaning(projects: seq<ParsedProject>, w: string)
    ensures w in ProjectKeywordSet(projects) <==> exists i :: 0 <= i < |projects| && w in KeywordSet(projects[i])
  {
    UnionOfMeaning(projects, KeywordSet, w);
  }

  function NotIn(known: set<string>): string -> bool {
    w => w !in known
  }

  /** `'high' if kw in job_keywords[:5] else 'medium'`. */
  function ImportanceOf(kw: string, jobKeywords: seq<string>): Importance {
    if kw in PyPrefix(jobKeywords, HighImportanceCount) then High else Medium
  }

  function MissingEntry(kw: string, jobKeywords: seq<string>): MissingKeyword {
    MissingKeyword(kw, "Technical", ImportanceOf(kw, jobKeywords))
  }

  /** The job keywords no project lists, in job-keyword order, at most fifteen. */
  function MissingWords(jobKeywords: seq<string>, known: set<string>): seq<string> {
    PyPrefix(Filter(jobKeywords, NotIn(known)), MissingCap)
  }

  function MissingKeywords(jobKeywords: seq<string>, known: set<string>): seq<MissingKeyword> {
    Map(MissingWords(jobKeywords, known), kw => MissingEntry(kw, jobKeywords))
  }

  /** The two comprehensions of the keyword analysis, as loops. */
  method BuildMissingKeywords(jobKeywords: seq<string>, projectKeywords: seq<string>, ghost known: set<string>)
    returns (missing: seq<MissingKeyword>)
    requires forall w :: w in projectKeywords <==> w in known
    ensures missing == MissingKeywords(jobKeywords, known)
  {
    var absent: seq<string> := [];
    for i := 0 to |jobKeywords|
      invariant absent == Filter(jobKeywords[..i], NotIn(known))
    {
      TakeSnoc(jobKeywords, i);
      if jobKeywords[i] !in projectKeywords {
        absent := absent + [jobKeywords[i]];
      }
    }
    assert jobKeywords[..|jobKeywords|] == jobKeywords;
    absent := PyPrefix(absent, MissingCap);
    missing := [];
    for i := 0 to |absent|
      invariant |missing| == i && forall k :: 0 <= k < i ==> missing[k] == MissingEntry(absent[k], jobKeywords)
    {
      missing := missing + [MissingEntry(absent[i], jobKeywords)];
    }
  }

  /**
   * At most fifteen entries, each a job keyword no project lists, in
   * job-keyword order, of category "Technical", of high importance exactly
   * when it is among the first five job keywords; and while fewer than
   * fifteen are listed, no absent job keyword is left out.
   */
  lemma MissingFacts(jobKeywords: seq<string>, known: set<string>)
    ensures var m := MissingKeywords(jobKeywords, known);
      |m| <= MissingCap &&
      forall i :: 0 <= i < |m| ==>
        m[i].keyword in jobKeywords && m[i].keyword !in known && m[i].category == "Technical" &&
        (m[i].importance == High <==> m[i].keyword in jobKeywords[..if |jobKeywords| < 5 then |jobKeywords| else 5])
    ensures var m := MissingKeywords(jobKeywords, known);
      |m| < MissingCap ==> forall w :: w in jobKeywords && w !in known ==> exists i :: 0 <= i < |m| && m[i].keyword == w
    ensures var m := MissingKeywords(jobKeywords, known);
      forall i, j :: 0 <= i < j < |m| ==> m[i].keyword == Filter(jobKeywords, NotIn(known))[i] && m[j].keyword == Filter(jobKeywords, NotIn(known))[j]
    ensures NoDup(jobKeywords) ==> NoDup(MissingWords(jobKeywords, known))
  {
    var f := Filter(jobKeywords, NotIn(known));
    var words := MissingWords(jobKeywords, known);
    var m := MissingKeywords(jobKeywords, known);
    forall i | 0 <= i < |m|
      ensures m[i].keyword == words[i] && words[i] in f
    {
      assert words[i] == f[i];
    }
    if |m| < MissingCap {
      assert words == f;
      forall w | w in jobKeywords && w !in known
        ensures exists i :: 0 <= i < |m| && m[i].keyword == w
      {
        assert NotIn(known)(w);
        assert w in f;
        var i :| 0 <= i < |f| && f[i] == w;
        assert m[i].keyword == w;
      }
    }
    if NoDup(jobKeywords) {
      FilterPairwise(jobKeywords, NotIn(known), (a: string, b: string) => a != b);
    }
  }

  // ----------------------------------------------------------- overall score

  function Relevance(r: Recommendation): real {
    r.relevanceScore
  }

  /**
   * 70 without recommendations, otherwise the mean relevance of the first
   * `min(3, n)` recommendations, truncated by `int()`.
   */
  function OverallScore(recs: seq<Recommendation>): int {
    if |recs| == 0 then DefaultOverallScore
    else Utils.TruncateToInt(Mean(PyPrefix(recs, 3), Relevance))
  }

  /** When every recommendation scores in (50, 100], the overall score lies in [50, 100]. */
  lemma OverallScoreBounds(recs: seq<Recommendation>)
    requires forall i :: 0 <= i < |recs| ==> 50.0 < recs[i].relevanceScore <= 100.0
    ensures |recs| == 0 ==> OverallScore(recs) == DefaultOverallScore
    ensures 50 <= OverallScore(recs) <= 100
  {
    if |recs| > 0 {
      var top := PyPrefix(recs, 3);
      assert forall i :: 0 <= i < |top| ==> top[i] == recs[i];
      MeanBounds(top, Relevance, 50.0, 100.0);
    }
  }

  // ----------------------------------------------------------- analysis

  /** The part of the résumé analysis the scoring writes to: its `overall_score` key. */
  class ResumeAnalysis {
    var overallScore: Option<int>

    constructor (overallScore: Option<int>)
      ensures this.overallScore == overallScore
    {
      this.overallScore := overallScore;
    }

    /** `if 'overall_score' not in resume_analysis: resume_analysis['overall_score'] = score`. */
    method FillOverallScore(score: int)
      modifies this
      ensures overallScore == if old(overallScore).Some? then old(overallScore) else Some(score)
    {
      if overallScore.None? {
        overallScore := Some(score);
      }
    }
  }

  /**
   * `analyze_resume_latex_only` from step 3 on. `resume` is the résumé
   * analysis as it stands after step 2; `phrasing` is the
   * `improved_projects` of the phrasing request, `None` when it raised.
   */
  method AnalyzeResumeLatexOnly(job: string, projectsLatex: string, resume: ResumeAnalysis, phrasing: Option<seq<string>>)
    returns (result: AnalysisResult, ghost parsed: seq<ParsedProject>, ghost ranked: seq<ScoreData>, ghost lists: seq<seq<string>>)
    modifies resume
    ensures parsed == if projectsLatex == "" then [] else ProjectsOf(Blocks(projectsLatex, 0))
    ensures ListsKeywords(lists, parsed)
    ensures ranked == PyPrefix(Sort(Scores(parsed, job, lists), ByKeyDesc(OverallOf)), RankedCount)
    ensures result.recommendations == Recommendations(ranked)
    ensures result.missingKeywords == MissingKeywords(LlmPipeline.ExtractKeywordsFromText(job), ProjectKeywordSet(parsed))
    ensures result.overallScore == OverallScore(result.recommendations)
    ensures result.improvedProjects ==
      if ranked != [] && result.missingKeywords != [] && phrasing.Some? then phrasing.value else []
    ensures resume.overallScore ==
      if old(resume.overallScore).Some? then old(resume.overallScore) else Some(result.overallScore)
  {
    var projects: seq<ParsedProject> := [];
    var rankedProjects: seq<ScoreData> := [];
    lists := [];
    var recs: seq<Recommendation> := [];
    if projectsLatex != "" {
      projects := ParseProjectsFromLatex(projectsLatex);
      if projects != [] {
        rankedProjects, lists := RankProjectsForJob(projects, job, RankedCount);
        recs := BuildRecommendations(rankedProjects);
      }
    }
    parsed, ranked := projects, rankedProjects;
    if recs == [] {
      assert Recommendations(ranked) == [] by {
        if ranked != [] {
          assert recs == Recommendations(ranked);
        }
      }
    }
    var jobKeywords := LlmPipeline.ExtractKeywordsFromText(job);
    var projectKeywords := ProjectKeywords(projects);
    var missing := BuildMissingKeywords(jobKeywords, projectKeywords, ProjectKeywordSet(projects));
    var improved: seq<string> := [];
    if rankedProjects != [] && missing != [] && phrasing.Some? {
      improved := phrasing.value;
    }
    var overall := OverallScore(recs);
    resume.FillOverallScore(overall);
    result := AnalysisResult(overall, recs, missing, improved);
  }

  /** Whatever the inputs, the overall score of an analysis lies in [50, 100]. */
  lemma AnalysisScoreInRange(projects: seq<ParsedProject>, job: string, lists: seq<seq<string>>)
    requires ListsKeywords(lists, projects)
    ensures 50 <= OverallScore(Recommendations(PyPrefix(Sort(Scores(projects, job, lists), ByKeyDesc(OverallOf)), RankedCount))) <= 100
  {
    RankedRecommendations(projects, job, lists);
    OverallScoreBounds(Recommendations(PyPrefix(Sort(Scores(projects, job, lists), ByKeyDesc(OverallOf)), RankedCount)));
  }
}
