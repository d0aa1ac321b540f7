/**
 * `ResumeAnalyzer.analyze` (`backend/app/services/analyzer.py`): assembling
 * the response from the LLM's analysis and ranking and the retrieval
 * results. The LLM and retrieval calls are not part of this model; what
 * they returned is an input.
 */
module BackendAnalyzer {
  import opened Wrappers
  import opened Text
  import opened Seqs
  import opened Sorting
  import LatexParser

  /** A project without a ranking entry gets this relevance. */
  const DefaultRelevance: real := 50.0

  /** How many of the LLM's and of the retrieval's recommendations are merged, and how many are kept. */
  const LlmRecommendationsUsed: nat := 3
  const RagRecommendationsUsed: nat := 2
  const MaxRecommended: nat := 5

  /** At most this many selected projects have their descriptions enhanced. */
  const MaxEnhanced: nat := 3

  /** `overall_score` when the analysis has none. */
  const DefaultOverallScore: real := 72.0

  /** `Project` of `app/models.py`. */
  datatype Project = Project(title: string, description: string, technologies: seq<string>, relevanceScore: Option<real>)

  /** An entry of the LLM ranking's `rankings`. */
  datatype Ranking = Ranking(title: string, relevanceScore: real)

  /** `MissingKeyword` of `app/models.py`. */
  datatype MissingKeyword = MissingKeyword(keyword: string, priority: string, context: string)

  /** What `enhance_description` returned: the new text and the list of improvements. */
  datatype Enhancement = Enhancement(enhanced: string, improvements: seq<string>)

  /** `EnhancedDescription` of `app/models.py`. */
  datatype EnhancedDescription = EnhancedDescription(original: string, enhanced: string, improvements: seq<string>)

  /** The fields of the LLM analysis that are read, `None`/`[]` when absent. */
  datatype LlmAnalysis = LlmAnalysis(overallScore: Option<real>, matchedKeywords: Option<seq<string>>, missingKeywords: seq<MissingKeyword>)

  /** `ats_keywords`. */
  datatype AtsKeywords = AtsKeywords(matched: seq<string>, missing: seq<string>)

  /** The part of `AnalysisResponse` this model builds. */
  datatype AnalysisResponse = AnalysisResponse(
    overallScore: real,
    atsKeywords: AtsKeywords,
    missingKeywords: seq<MissingKeyword>,
    projects: seq<Project>,
    recommendedProjects: seq<string>,
    enhancedDescriptions: Option<seq<EnhancedDescription>>)

  // ------------------------------------------------------- relevance and sort

  /** `next((r["relevance_score"] for r in rankings if r["title"] == title), 50.0)`. */
  function RelevanceOf(rankings: seq<Ranking>, title: string): (r: real)
    ensures (forall i :: 0 <= i < |rankings| ==> rankings[i].title != title) ==> r == DefaultRelevance
    ensures (exists i :: 0 <= i < |rankings| && rankings[i].title == title) ==>
      exists i :: 0 <= i < |rankings| && rankings[i].title == title && r == rankings[i].relevanceScore &&
        forall k :: 0 <= k < i ==> rankings[k].title != title
  {
    if |rankings| == 0 then DefaultRelevance
    else if rankings[0].title == title then rankings[0].relevanceScore
    else
      var r := RelevanceOf(rankings[1..], title);
      assert forall i :: 1 <= i < |rankings| ==> rankings[i] == rankings[1..][i - 1];
      r
  }

  function Scored(rankings: seq<Ranking>, p: Project): Project {
    p.(relevanceScore := Some(RelevanceOf(rankings, p.title)))
  }

  /** A project with its relevance cleared, to compare projects apart from their score. */
  function Unscored(p: Project): Project {
    p.(relevanceScore := None)
  }

  /** `p.relevance_score or 0`. */
  function SortKey(p: Project): real {
    match p.relevanceScore
    case Some(x) => x
    case None => 0.0
  }

  /** `ranked_projects` after `sort(key=..., reverse=True)`. */
  function RankedProjects(projects: seq<Project>, rankings: seq<Ranking>): seq<Project> {
    Sort(Map(projects, p => Scored(rankings, p)), ByKeyDesc(SortKey))
  }

  /**
   * The ranked projects are the input projects, each with its relevance,
   * reordered so that relevance never increases, with projects of equal
   * relevance in input order.
   */
  lemma RankedFacts(projects: seq<Project>, rankings: seq<Ranking>, v: Project)
    ensures var scored := Map(projects, p => Scored(rankings, p));
      var ranked := RankedProjects(projects, rankings);
      multiset(ranked) == multiset(scored) &&
      (forall i, j :: 0 <= i < j < |ranked| ==> SortKey(ranked[i]) >= SortKey(ranked[j])) &&
      Filter(ranked, TiedWith(ByKeyDesc(SortKey), v)) == Filter(scored, TiedWith(ByKeyDesc(SortKey), v))
  {
    var scored := Map(projects, p => Scored(rankings, p));
    SortByKeyDesc(scored, SortKey);
    ByKeyDescTotal(SortKey);
    SortStable(scored, ByKeyDesc(SortKey), v);
  }

  /** Every ranked project is an input project carrying the relevance its title is ranked with. */
  lemma RankedScores(projects: seq<Project>, rankings: seq<Ranking>)
    ensures forall p :: p in RankedProjects(projects, rankings) ==>
      p.relevanceScore == Some(RelevanceOf(rankings, p.title)) && Unscored(p) in Map(projects, Unscored)
  {
    var scored := Map(projects, p => Scored(rankings, p));
    var ranked := RankedProjects(projects, rankings);
    SortByKeyDesc(scored, SortKey);
    forall p | p in ranked
      ensures p.relevanceScore == Some(RelevanceOf(rankings, p.title)) && Unscored(p) in Map(projects, Unscored)
    {
      assert p in multiset(scored);
      var i :| 0 <= i < |scored| && scored[i] == p;
      assert Map(projects, Unscored)[i] == Unscored(p);
    }
  }

  /** The generator expression `next(...)` as a loop. */
  method FirstRelevance(rankings: seq<Ranking>, title: string) returns (r: real)
    ensures r == RelevanceOf(rankings, title)
  {
    var i := 0;
    while i < |rankings|
      invariant i <= |rankings|
      invariant RelevanceOf(rankings, title) == RelevanceOf(rankings[i..], title)
    {
      if rankings[i].title == title {
        return rankings[i].relevanceScore;
      }
      assert rankings[i..][1..] == rankings[i + 1..];
      i := i + 1;
    }
    r := DefaultRelevance;
  }

  /** The scoring loop and the sort. */
  method RankProjects(projects: seq<Project>, rankings: seq<Ranking>) returns (ranked: seq<Project>)
    ensures ranked == RankedProjects(projects, rankings)
  {
    var scored := [];
    for i := 0 to |projects|
      invariant scored == Map(projects[..i], p => Scored(rankings, p))
    {
      var relevance := FirstRelevance(rankings, projects[i].title);
      assert projects[..i + 1] == projects[..i] + [projects[i]];
      MapAppend(projects[..i], [projects[i]], p => Scored(rankings, p));
      scored := scored + [projects[i].(relevanceScore := Some(relevance))];
    }
    assert projects[..|projects|] == projects;
    ranked := Sort(scored, ByKeyDesc(SortKey));
  }

  // ---------------------------------------------------------- recommendations

  /** `recommended_projects[:3] + rag_recommendations[:2]`. */
  function RecommendationPool(llm: seq<string>, rag: seq<string>): (r: seq<string>)
    ensures |r| <= LlmRecommendationsUsed + RagRecommendationsUsed
  {
    PyPrefix(llm, LlmRecommendationsUsed) + PyPrefix(rag, RagRecommendationsUsed)
  }

  /**
   * `list(set(pool))[:5]`: each title of the pool once, in an order the set
   * decides; the cut at 5 never drops one, since the pool holds at most 5.
   */
  method MergeRecommendations(llm: seq<string>, rag: seq<string>) returns (recommended: seq<string>)
    ensures NoDup(recommended) && |recommended| <= MaxRecommended
    ensures forall t :: t in recommended <==> t in RecommendationPool(llm, rag)
  {
    var pool := PyPrefix(llm, LlmRecommendationsUsed) + PyPrefix(rag, RagRecommendationsUsed);
    var order := LatexParser.ListOfSet(set t | t in pool);
    DistinctBound(order, pool);
    recommended := PyPrefix(order, MaxRecommended);
    assert recommended == order;
  }

  // -------------------------------------------------------------- enhancement

  /** `next((p for p in projects if p.title == title), None)`. */
  function FindProject(projects: seq<Project>, title: string): (r: Option<Project>)
    ensures r.Some? ==> r.value in projects && r.value.title == title
    ensures r.None? <==> forall p :: p in projects ==> p.title != title
  {
    if |projects| == 0 then None
    else if projects[0].title == title then Some(projects[0])
    else FindProject(projects[1..], title)
  }

  /** What one selected title contributes: nothing when no project has it or the enhancement fails. */
  function Attempt(projects: seq<Project>, title: string, enhance: string -> Option<Enhancement>): seq<EnhancedDescription> {
    match FindProject(projects, title)
    case None => []
    case Some(p) =>
      match enhance(p.description)
      case None => []
      case Some(e) => [EnhancedDescription(p.description, e.enhanced, e.improvements)]
  }

  function Attempts(projects: seq<Project>, titles: seq<string>, enhance: string -> Option<Enhancement>): seq<EnhancedDescription> {
    if |titles| == 0 then []
    else Attempts(projects, titles[..|titles| - 1], enhance) + Attempt(projects, titles[|titles| - 1], enhance)
  }

  /** `enhanced_descriptions if enhanced_descriptions else None`. */
  function EnhancedFor(projects: seq<Project>, selected: Option<seq<string>>, enhance: string -> Option<Enhancement>): Option<seq<EnhancedDescription>> {
    var list := match selected
      case Some(titles) => Attempts(projects, PyPrefix(titles, MaxEnhanced), enhance)
      case None => [];
    if list == [] then None else Some(list)
  }

  /** A selected title that names a project and whose enhancement succeeds. */
  ghost predicate Succeeds(projects: seq<Project>, title: string, enhance: string -> Option<Enhancement>) {
    FindProject(projects, title).Some? && enhance(FindProject(projects, title).value.description).Some?
  }

  /** `e` is the entry title `t` produces: its project's description, enhanced. */
  ghost predicate EntryFor(projects: seq<Project>, t: string, enhance: string -> Option<Enhancement>, e: EnhancedDescription) {
    Succeeds(projects, t, enhance) && e.original == FindProject(projects, t).value.description &&
    enhance(e.original) == Some(Enhancement(e.enhanced, e.improvements))
  }

  /** One title contributes at most one entry, and one exactly when it succeeds. */
  lemma AttemptFacts(projects: seq<Project>, title: string, enhance: string -> Option<Enhancement>)
    ensures |Attempt(projects, title, enhance)| <= 1
    ensures Attempt(projects, title, enhance) == [] <==> !Succeeds(projects, title, enhance)
    ensures forall e :: e in Attempt(projects, title, enhance) ==> EntryFor(projects, title, enhance, e)
  {
  }

  /**
   * One entry per title that names a known project and enhances
   * successfully, in title order; each keeps the project's description as
   * `original`.
   */
  lemma {:induction false} AttemptsFacts(projects: seq<Project>, titles: seq<string>, enhance: string -> Option<Enhancement>)
    ensures |Attempts(projects, titles, enhance)| <= |titles|
    ensures Attempts(projects, titles, enhance) == [] <==> forall t :: t in titles ==> !Succeeds(projects, t, enhance)
    ensures forall e :: e in Attempts(projects, titles, enhance) ==> exists t :: t in titles && EntryFor(projects, t, enhance, e)
  {
    if |titles| > 0 {
      var init := titles[..|titles| - 1];
      var last := titles[|titles| - 1];
      var before := Attempts(projects, init, enhance);
      var now := Attempt(projects, last, enhance);
      assert Attempts(projects, titles, enhance) == before + now;
      AttemptsFacts(projects, init, enhance);
      AttemptFacts(projects, last, enhance);
      assert titles == init + [last];
      assert forall t :: t in titles <==> t in init || t == last;
      forall e | e in before + now
        ensures exists t :: t in titles && EntryFor(projects, t, enhance, e)
      {
        if e in now {
          assert last in titles;
        }
      }
    }
  }

  /**
   * At most 3 descriptions are enhanced, all for titles among the first 3
   * selected; the field is `None` exactly when none of them succeeded.
   */
  lemma EnhancedFacts(projects: seq<Project>, selected: Option<seq<string>>, enhance: string -> Option<Enhancement>)
    ensures var r := EnhancedFor(projects, selected, enhance);
      r.None? <==> (selected.None? || forall t :: t in PyPrefix(selected.value, MaxEnhanced) ==> !Succeeds(projects, t, enhance))
    ensures var r := EnhancedFor(projects, selected, enhance);
      r.Some? ==> (selected.Some? && 1 <= |r.value| <= MaxEnhanced &&
        forall e :: e in r.value ==> exists t :: t in PyPrefix(selected.value, MaxEnhanced) && EntryFor(projects, t, enhance, e))
  {
    if selected.Some? {
      AttemptsFacts(projects, PyPrefix(selected.value, MaxEnhanced), enhance);
    }
  }

  /** The enhancement loop over the first 3 selected titles; a failed call is skipped. */
  method EnhanceSelected(projects: seq<Project>, selected: Option<seq<string>>, enhance: string -> Option<Enhancement>)
    returns (enhanced: Option<seq<EnhancedDescription>>)
    ensures enhanced == EnhancedFor(projects, selected, enhance)
  {
    var list := [];
    if selected.Some? && selected.value != [] {
      var titles := PyPrefix(selected.value, MaxEnhanced);
      for i := 0 to |titles|
        invariant list == Attempts(projects, titles[..i], enhance)
      {
        assert titles[..i + 1][..i] == titles[..i];
        var project := FindProject(projects, titles[i]);
        if project.Some? {
          var result := enhance(project.value.description);
          if result.Some? {
            list := list + [EnhancedDescription(project.value.description, result.value.enhanced, result.value.improvements)];
          }
        }
      }
      assert titles[..|titles|] == titles;
    }
    enhanced := if list != [] then Some(list) else None;
  }

  // ----------------------------------------------------------------- keywords

  function KeywordOf(k: MissingKeyword): string {
    k.keyword
  }

  /** `ats_keywords`: the matched keywords (or `[]`) and the keyword of each missing keyword, in order. */
  function AtsKeywordsOf(analysis: LlmAnalysis): (r: AtsKeywords)
    ensures |r.missing| == |analysis.missingKeywords|
    ensures forall i :: 0 <= i < |r.missing| ==> r.missing[i] == analysis.missingKeywords[i].keyword
    ensures analysis.matchedKeywords.None? ==> r.matched == []
  {
    AtsKeywords(analysis.matchedKeywords.GetOr([]), Map(analysis.missingKeywords, KeywordOf))
  }

  // ------------------------------------------------------------------ analyze

  /**
   * `analyze` once the LLM's analysis and ranking and the retrieval's
   * titles are known: `rankings` and `llmRecommended` are the ranking's
   * fields (`[]` when absent), `ragTitles` what `find_relevant_projects`
   * returned, `enhance` the outcome of `enhance_description` on a
   * description (`None` when it raised).
   */
  method Analyze(projects: seq<Project>, analysis: LlmAnalysis, rankings: seq<Ranking>, llmRecommended: seq<string>,
                 ragTitles: seq<string>, selected: Option<seq<string>>, enhance: string -> Option<Enhancement>)
    returns (response: AnalysisResponse)
    ensures response.projects == RankedProjects(projects, rankings)
    ensures NoDup(response.recommendedProjects) && |response.recommendedProjects| <= MaxRecommended
    ensures forall t :: t in response.recommendedProjects <==> t in RecommendationPool(llmRecommended, ragTitles)
    ensures response.enhancedDescriptions == EnhancedFor(projects, selected, enhance)
    ensures response.atsKeywords == AtsKeywordsOf(analysis) && response.missingKeywords == analysis.missingKeywords
    ensures response.overallScore == analysis.overallScore.GetOr(DefaultOverallScore)
  {
    var recommended := MergeRecommendations(llmRecommended, ragTitles);
    var ranked := RankProjects(projects, rankings);
    var enhanced := EnhanceSelected(projects, selected, enhance);
    response := AnalysisResponse(analysis.overallScore.GetOr(DefaultOverallScore), AtsKeywordsOf(analysis),
      analysis.missingKeywords, ranked, recommended, enhanced);
  }
}
