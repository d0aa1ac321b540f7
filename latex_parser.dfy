/**
 * The LaTeX résumé project parser (`LaTeXProjectParser`): it reads
 * `\resumeProjectHeading` blocks into project records, extracts each
 * project's technical keywords, scores a project against a job description
 * and ranks projects by that score.
 */
module LatexParser {
  import opened Wrappers
  import opened Text
  import opened Seqs
  import opened Sorting
  import opened LatexScan

  datatype ParsedProject = ParsedProject(
    name: string,
    techStack: seq<string>,
    dateRange: string,
    githubLink: Option<string>,
    descriptionPoints: seq<string>,
    rawLatex: string)

  /** `get_full_description`: the description points joined by single spaces. */
  function FullDescription(p: ParsedProject): string {
    Join(p.descriptionPoints, " ")
  }

  /** The full description is the points in order, one space between neighbours. */
  lemma FullDescriptionConcat(p: ParsedProject, k: nat)
    requires 0 < k < |p.descriptionPoints|
    ensures FullDescription(p) ==
      Join(p.descriptionPoints[..k], " ") + " " + Join(p.descriptionPoints[k..], " ")
  {
    JoinAppend(p.descriptionPoints[..k], p.descriptionPoints[k..], " ");
    assert p.descriptionPoints[..k] + p.descriptionPoints[k..] == p.descriptionPoints;
  }

  // ------------------------------------------------------------------ cleaning

  predicate Normalized(s: string) {
    SingleSpaced(s) && (s == [] || (!IsSpace(s[0]) && !IsSpace(s[|s| - 1])))
  }

  /** The substitutions of `_clean_latex_text`, in the order they are applied. */
  const CleanRules: seq<Rule> := [Textbf, Emph, HrefDisplay, Underline, AnyCommand, Math]

  function ApplyRules(rules: seq<Rule>, s: string): string {
    if |rules| == 0 then s else ApplyRules(rules[1..], Sub(rules[0], s))
  }

  /** `_clean_latex_text`: the six substitutions in order, then whitespace collapsed and stripped. */
  function CleanLatexText(text: string): (r: string)
    ensures text == "" ==> r == ""
    ensures Normalized(r)
  {
    if text == "" then "" else NormalizeSpaces(ApplyRules(CleanRules, text))
  }

  lemma {:induction false} ApplyRulesPlain(rules: seq<Rule>, s: string)
    requires '\\' !in s && '$' !in s
    ensures ApplyRules(rules, s) == s
  {
    if |rules| > 0 {
      SubUntriggered(rules[0], s, 0);
      assert s[0..] == s;
      ApplyRulesPlain(rules[1..], s);
    }
  }

  /** Text without commands or math is only re-spaced; normalised plain text is a fixed point. */
  lemma CleanPlainText(text: string)
    requires '\\' !in text && '$' !in text
    ensures CleanLatexText(text) == NormalizeSpaces(text)
    ensures Normalized(text) ==> CleanLatexText(text) == text
  {
    ApplyRulesPlain(CleanRules, text);
    if Normalized(text) {
      NormalizeSpacesFixed(text);
    }
  }

  // -------------------------------------------------------------------- header

  datatype Header = Header(name: string, techStack: seq<string>, githubLink: Option<string>)

  /** `[clean(t.strip()) for t in parts if t.strip()]`. */
  function TechItems(parts: seq<string>): (r: seq<string>)
    ensures |r| <= |parts|
    ensures forall t :: t in r ==> Normalized(t)
  {
    if |parts| == 0 then []
    else
      var init := TechItems(parts[..|parts| - 1]);
      var t := Strip(parts[|parts| - 1]);
      if t == "" then init
      else
        init + [CleanLatexText(t)]
  }

  /** The comma-separated tech list of a header. */
  function TechList(raw: string): (r: seq<string>)
    ensures forall k :: 0 <= k < |r| ==> Normalized(r[k])
  {
    TechItems(Split(raw, ','))
  }

  /**
   * `_parse_header`: the first link's url; then, with every link removed, the
   * `\textbf{..} $|$ \emph{..}` groups as name and tech list, or failing that
   * the first `\textbf{..}` as the name and no tech list.
   */
  function ParseHeader(header: string): (r: Header)
    ensures r.githubLink == LinkSearch(header, 0)
    ensures r.name == [] || (!IsSpace(r.name[0]) && !IsSpace(r.name[|r.name| - 1]))
    ensures forall k :: 0 <= k < |r.techStack| ==> Normalized(r.techStack[k])
  {
    var link := LinkSearch(header, 0);
    var h := if link.Some? then Sub(HrefRemove, header) else header;
    match HeaderSearch(h, 0)
    case Some(g) => Header(Strip(g.0), TechList(Strip(g.1)), link)
    case None =>
      var name := match TextbfSearch(h) case Some(n) => Strip(n) case None => "";
      Header(name, [], link)
  }

  // --------------------------------------------------------------------- items

  /** The cleaned, non-empty item texts of a list of item groups, in order. */
  function CleanedPoints(groups: seq<string>): (r: seq<string>)
    ensures |r| <= |groups|
    ensures forall t :: t in r ==> t != "" && Normalized(t)
  {
    if |groups| == 0 then []
    else
      var init := CleanedPoints(groups[..|groups| - 1]);
      var c := CleanPoint(groups[|groups| - 1]);
      if c == "" then init else init + [c]
  }

  /** The cleaned text of one item group. */
  function CleanPoint(g: string): string {
    CleanLatexText(Strip(g))
  }

  lemma CleanedPointsSnoc(groups: seq<string>, g: string)
    ensures CleanedPoints(groups + [g]) ==
      CleanedPoints(groups) + (if CleanPoint(g) != "" then [CleanPoint(g)] else [])
  {
    assert (groups + [g])[..|groups|] == groups;
  }

  /** `_parse_items`: a point per `\resumeItem{..}` whose cleaned text is non-empty. */
  method ParseItems(items: string) returns (points: seq<string>)
    ensures points == CleanedPoints(ItemGroups(items, 0))
  {
    var groups := ItemGroups(items, 0);
    points := [];
    if |groups| == 0 {
      if Contains(items, ItemCmd) {
        // the fallback pattern finds a subset of what the first one found: nothing
        var simple := FallbackItemGroups(items, 0);
        FallbackFindsNothing(items, 0);
        assert simple == [];
      }
    } else {
      for i := 0 to |groups|
        invariant points == CleanedPoints(groups[..i])
      {
        var cleaned := CleanPoint(groups[i]);
        CleanedPointsSnoc(groups[..i], groups[i]);
        TakeSnoc(groups, i);
        if cleaned != "" {
          points := points + [cleaned];
        }
      }
      assert groups[..|groups|] == groups;
    }
  }

  // ------------------------------------------------------------------ projects

  /** The project a block yields: only when both its name and its point list are non-empty. */
  function ProjectOf(b: Block): (r: Option<ParsedProject>)
    ensures r.Some? ==> r.value.name != "" && r.value.descriptionPoints != [] && r.value.rawLatex == b.raw
    ensures r.Some? ==> r.value.dateRange == Strip(b.date)
  {
    var h := ParseHeader(Strip(b.header));
    var points := CleanedPoints(ItemGroups(Strip(b.items), 0));
    if h.name != "" && points != [] then
      Some(ParsedProject(h.name, h.techStack, Strip(b.date), h.githubLink, points, b.raw))
    else None
  }

  /** The projects of a list of blocks, in block order. */
  function ProjectsOf(blocks: seq<Block>): (r: seq<ParsedProject>)
    ensures |r| <= |blocks|
    ensures forall q :: q in r ==> q.name != "" && q.descriptionPoints != []
  {
    Somes(Map(blocks, ProjectOf))
  }

  /** Every parsed project is the project of one of the blocks, and comes from its text. */
  lemma ProjectsOfFromBlocks(blocks: seq<Block>, q: ParsedProject)
    requires q in ProjectsOf(blocks)
    ensures exists j :: 0 <= j < |blocks| && ProjectOf(blocks[j]) == Some(q) && q.rawLatex == blocks[j].raw
  {
    var j := SomesIndex(Map(blocks, ProjectOf), q);
    assert ProjectOf(blocks[j]) == Some(q);
  }

  /** `parse_projects_from_latex`: every block match, in order, that yields a project. */
  method ParseProjectsFromLatex(latex: string) returns (projects: seq<ParsedProject>)
    ensures projects == ProjectsOf(Blocks(latex, 0))
  {
    var blocks := Blocks(latex, 0);
    ghost var results := Map(blocks, ProjectOf);
    projects := [];
    if |blocks| == 0 && !Contains(latex, HeadingCmd) {
      return;
    }
    for i := 0 to |blocks|
      invariant projects == Somes(results[..i])
    {
      var p := ParseBlock(blocks[i]);
      SomesSnoc(results, i);
      if p.Some? {
        projects := projects + [p.value];
      }
    }
    assert results[..|results|] == results;
  }

  /** The body of the loop over block matches: the stripped groups parsed into a project, if it has a name and points. */
  method ParseBlock(b: Block) returns (p: Option<ParsedProject>)
    ensures p == ProjectOf(b)
  {
    var h := ParseHeader(Strip(b.header));
    var points := ParseItems(Strip(b.items));
    if h.name != "" && |points| > 0 {
      p := Some(ParsedProject(h.name, h.techStack, Strip(b.date), h.githubLink, points, b.raw));
    } else {
      p := None;
    }
  }

  // ------------------------------------------------------------------ keywords

  /** The nine `\b(?:...)\b` alternations searched for in the lowercased description, in pattern order. */
  const TechPatterns: seq<seq<string>> := [
    ["python", "java", "javascript", "typescript", "c++", "c#", "go", "rust", "swift", "kotlin"],
    ["react", "angular", "vue", "django", "flask", "spring", "express", "fastapi", "streamlit"],
    ["aws", "azure", "gcp", "docker", "kubernetes", "jenkins", "git", "github"],
    ["mysql", "postgresql", "mongodb", "redis", "elasticsearch", "pinecone"],
    ["tensorflow", "pytorch", "scikit-learn", "pandas", "numpy", "langchain", "ollama"],
    ["html", "css", "sass", "less", "bootstrap", "tailwind"],
    ["node.js", "npm", "yarn", "webpack", "babel"],
    ["linux", "ubuntu", "macos", "windows", "bash", "shell"],
    ["api", "rest", "graphql", "microservices", "rag", "llm", "ai", "ml"]
  ]

  /** The first alternative, in order, that occurs at `i` and is followed by a word boundary. */
  function FirstAlt(s: string, alts: seq<string>, i: nat): (r: Option<string>)
    requires i <= |s|
    ensures r.Some? ==> r.value in alts && OccursAt(s, r.value, i) && WordBoundary(s, i + |r.value|)
  {
    if |alts| == 0 then None
    else if OccursAt(s, alts[0], i) && WordBoundary(s, i + |alts[0]|) then Some(alts[0])
    else FirstAlt(s, alts[1..], i)
  }

  /** `re.findall(r'\b(?:a|b|...)\b', s)` from `i`: non-overlapping matches, left to right. */
  function FindAllAlts(s: string, alts: seq<string>, i: nat): (r: seq<string>)
    requires forall k :: 0 <= k < |alts| ==> |alts[k]| > 0
    ensures forall k :: 0 <= k < |r| ==> r[k] in alts
    decreases |s| - i
  {
    if i >= |s| then []
    else match (if WordBoundary(s, i) then FirstAlt(s, alts, i) else None)
      case Some(a) => [a] + FindAllAlts(s, alts, i + |a|)
      case None => FindAllAlts(s, alts, i + 1)
  }

  predicate NonEmptyAlts(pats: seq<seq<string>>) {
    forall j, k :: 0 <= j < |pats| && 0 <= k < |pats[j]| ==> |pats[j][k]| > 0
  }

  lemma TechPatternsNonEmpty()
    ensures NonEmptyAlts(TechPatterns)
  {
  }

  /** The lowercased matches of the first patterns of `pats` in `d`. */
  function PatternKeywords(d: string, pats: seq<seq<string>>): set<string>
    requires NonEmptyAlts(pats)
  {
    if |pats| == 0 then {}
    else PatternKeywords(d, pats[..|pats| - 1]) + set m | m in FindAllAlts(d, pats[|pats| - 1], 0) :: Lower(m)
  }

  function TechKeywords(techStack: seq<string>): set<string> {
    set k | 0 <= k < |techStack| :: Lower(techStack[k])
  }

  /** The set `extract_keywords_from_project` builds before listing it. */
  function KeywordSet(p: ParsedProject): set<string> {
    TechKeywords(p.techStack) + PatternKeywords(Lower(FullDescription(p)), TechPatterns)
  }

  /**
   * `extract_keywords_from_project`: the lowercased tech-stack entries and
   * the technical terms found in the lowercased description, each once, in
   * no particular order (`list(set)`).
   */
  method ExtractKeywordsFromProject(p: ParsedProject) returns (keywords: seq<string>)
    ensures Enumerates(keywords, KeywordSet(p))
  {
    TechPatternsNonEmpty();
    var matched := FindPatternKeywords(Lower(FullDescription(p)), TechPatterns);
    var found := TechKeywords(p.techStack) + matched;
    keywords := ListOfSet(found);
  }

  /**
   * Any listing of a project's keyword set holds each keyword once, all in
   * lower case, and includes every tech-stack entry lowercased.
   */
  lemma KeywordsFacts(p: ParsedProject, keywords: seq<string>)
    requires Enumerates(keywords, KeywordSet(p))
    ensures NoDup(keywords)
    ensures forall k :: 0 <= k < |keywords| ==> IsLowerCase(keywords[k])
    ensures forall k :: 0 <= k < |p.techStack| ==> Lower(p.techStack[k]) in keywords
  {
    KeywordSetLower(p);
    forall k | 0 <= k < |keywords| ensures IsLowerCase(keywords[k]) {
      assert keywords[k] in KeywordSet(p);
    }
    forall k | 0 <= k < |p.techStack| ensures Lower(p.techStack[k]) in keywords {
      assert Lower(p.techStack[k]) in TechKeywords(p.techStack);
    }
  }

  /** The loop over the patterns: each one's matches in `d`, lowercased, added to the set. */
  method FindPatternKeywords(d: string, pats: seq<seq<string>>) returns (found: set<string>)
    requires NonEmptyAlts(pats)
    ensures found == PatternKeywords(d, pats)
  {
    found := {};
    for j := 0 to |pats|
      invariant found == PatternKeywords(d, pats[..j])
    {
      var matches := FindAllAlts(d, pats[j], 0);
      found := found + set m | m in matches :: Lower(m);
      assert pats[..j + 1][..j] == pats[..j];
    }
    assert pats[..|pats|] == pats;
  }

  /** `list(s)`: every element once, in an unspecified order. */
  method ListOfSet(s: set<string>) returns (r: seq<string>)
    ensures Enumerates(r, s)
  {
    var rest := s;
    r := [];
    while rest != {}
      invariant rest <= s
      invariant NoDup(r)
      invariant forall k :: 0 <= k < |r| ==> r[k] in s && r[k] !in rest
      invariant forall x | x in s :: x in rest || x in r
      decreases |rest|
    {
      var x :| x in rest;
      r := r + [x];
      rest := rest - {x};
    }
  }

  lemma KeywordSetLower(p: ParsedProject)
    ensures forall w | w in KeywordSet(p) :: IsLowerCase(w)
  {
    PatternKeywordsLower(Lower(FullDescription(p)), TechPatterns);
  }

  lemma {:induction false} PatternKeywordsLower(d: string, pats: seq<seq<string>>)
    requires NonEmptyAlts(pats)
    ensures forall w | w in PatternKeywords(d, pats) :: IsLowerCase(w)
  {
    if |pats| > 0 {
      PatternKeywordsLower(d, pats[..|pats| - 1]);
    }
  }

  // ------------------------------------------------------------------- scoring

  datatype ScoreData = ScoreData(
    projectName: string,
    overallScore: real,
    keywordScore: real,
    similarityScore: real,
    matchedKeywords: seq<string>,
    techStack: seq<string>)

  /**
   * `min(100, (part / max(whole, 1)) * 100)`: the share of `whole` that `part`
   * makes up, as a percentage capped at 100.
   */
  function Percent(part: nat, whole: nat): real {
    var r := part as real / (if whole < 1 then 1.0 else whole as real) * 100.0;
    if r < 100.0 then r else 100.0
  }

  /** A part of a whole is between 0 and 100 percent of it: 100 exactly when it is all of it, 0 when it is nothing. */
  lemma PercentFacts(part: nat, whole: nat)
    requires part <= whole
    ensures 0.0 <= Percent(part, whole) <= 100.0
    ensures Percent(part, whole) == 100.0 <==> whole > 0 && part == whole
    ensures Percent(part, whole) == 0.0 <==> part == 0
  {
    if whole > 0 {
      var w := whole as real;
      var q := part as real / w;
      assert q * w == part as real;
      if part < whole {
        assert q < 1.0;
      }
    }
  }

  /** The distinct `\b\w+\b` words of a text. */
  function WordSet(s: string): set<string> {
    set w | w in WordRuns(s)
  }

  /** The lowercased text whose words the job's words are compared with. */
  function ProjectText(p: ParsedProject): string {
    Lower(p.name + " " + FullDescription(p))
  }

  /**
   * `score_project_for_job` (before rounding to one decimal): the share of
   * project keywords found in the lowercased job text, the share of job words
   * that also occur in the project's text, blended 0.7/0.3.
   */
  function ScoreProjectForJob(p: ParsedProject, job: string, keywords: seq<string>): (r: ScoreData)
    requires Enumerates(keywords, KeywordSet(p))
    ensures 0.0 <= r.keywordScore <= 100.0
    ensures 0.0 <= r.similarityScore <= 100.0
    ensures 0.0 <= r.overallScore <= 100.0
    ensures r.projectName == p.name && r.techStack == p.techStack
  {
    var jobLower := Lower(job);
    // `sum(1 for keyword in project_keywords if keyword in job_desc_lower)` counts the same list
    var matched := Filter(keywords, kw => Contains(jobLower, kw));
    var jobWords := WordSet(jobLower);
    var common := jobWords * WordSet(ProjectText(p));
    SubsetSize(common, jobWords);
    PercentFacts(|matched|, |keywords|);
    PercentFacts(|common|, |jobWords|);
    var keywordScore := Percent(|matched|, |keywords|);
    var similarityScore := Percent(|common|, |jobWords|);
    ScoreData(p.name, keywordScore * 0.7 + similarityScore * 0.3, keywordScore, similarityScore, matched, p.techStack)
  }

  /**
   * The keyword score is 100 exactly when there are keywords and every one of
   * them occurs in the lowercased job text, and 0 exactly when none does;
   * `matched_keywords` are the keywords found there, in keyword order.
   */
  lemma KeywordScoreMeaning(p: ParsedProject, job: string, keywords: seq<string>)
    requires Enumerates(keywords, KeywordSet(p))
    ensures ScoreProjectForJob(p, job, keywords).keywordScore == 100.0 <==>
      |keywords| > 0 && forall k :: 0 <= k < |keywords| ==> Contains(Lower(job), keywords[k])
    ensures ScoreProjectForJob(p, job, keywords).keywordScore == 0.0 <==>
      forall k :: 0 <= k < |keywords| ==> !Contains(Lower(job), keywords[k])
    ensures ScoreProjectForJob(p, job, keywords).matchedKeywords ==
      Filter(keywords, kw => Contains(Lower(job), kw))
  {
    var jobLower := Lower(job);
    var f := kw => Contains(jobLower, kw);
    var matched := Filter(keywords, f);
    FilterAllIff(keywords, f);
    PercentFacts(|matched|, |keywords|);
    assert ScoreProjectForJob(p, job, keywords).keywordScore == Percent(|matched|, |keywords|);
  }

  /**
   * The similarity score is 100 exactly when the job text has words and all of
   * them occur in the project's text, and 0 exactly when they share no word.
   */
  lemma SimilarityMeaning(p: ParsedProject, job: string, keywords: seq<string>)
    requires Enumerates(keywords, KeywordSet(p))
    ensures var jobWords := WordSet(Lower(job));
            var projectWords := WordSet(ProjectText(p));
            (ScoreProjectForJob(p, job, keywords).similarityScore == 100.0 <==> jobWords != {} && jobWords <= projectWords) &&
            (ScoreProjectForJob(p, job, keywords).similarityScore == 0.0 <==> jobWords * projectWords == {})
  {
    var jobWords := WordSet(Lower(job));
    var common := jobWords * WordSet(ProjectText(p));
    SubsetSize(common, jobWords);
    PercentFacts(|common|, |jobWords|);
    assert ScoreProjectForJob(p, job, keywords).similarityScore == Percent(|common|, |jobWords|);
    if common != jobWords {
      var w :| w in jobWords && w !in common;
      SubsetSize(common, jobWords - {w});
    }
  }

  /** An empty job description scores 0 on every count when no keyword is empty. */
  lemma EmptyJobScoresZero(p: ParsedProject, keywords: seq<string>)
    requires Enumerates(keywords, KeywordSet(p))
    requires "" !in keywords
    ensures ScoreProjectForJob(p, "", keywords).overallScore == 0.0
  {
    KeywordScoreMeaning(p, "", keywords);
    forall k | 0 <= k < |keywords| ensures !Contains(Lower(""), keywords[k]) {
      assert |keywords[k]| > 0;
    }
    assert WordRuns(Lower("")) == [];
  }

  // ------------------------------------------------------------------- ranking

  function OverallOf(d: ScoreData): real {
    d.overallScore
  }

  /** Keyword listings for each project, each some listing of that project's keyword set. */
  ghost predicate ListsKeywords(lists: seq<seq<string>>, projects: seq<ParsedProject>) {
    |lists| == |projects| && forall i :: 0 <= i < |projects| ==> Enumerates(lists[i], KeywordSet(projects[i]))
  }

  /** Every project's score, in project order, under the given keyword listings. */
  function Scores(projects: seq<ParsedProject>, job: string, lists: seq<seq<string>>): (r: seq<ScoreData>)
    requires ListsKeywords(lists, projects)
    ensures |r| == |projects|
    ensures forall i :: 0 <= i < |r| ==> r[i].projectName == projects[i].name && 0.0 <= r[i].overallScore <= 100.0
  {
    seq(|projects|, i requires 0 <= i < |projects| => ScoreProjectForJob(projects[i], job, lists[i]))
  }

  lemma ScoresSnoc(projects: seq<ParsedProject>, job: string, lists: seq<seq<string>>, p: ParsedProject, keywords: seq<string>)
    requires ListsKeywords(lists, projects) && Enumerates(keywords, KeywordSet(p))
    ensures ListsKeywords(lists + [keywords], projects + [p])
    ensures Scores(projects + [p], job, lists + [keywords]) == Scores(projects, job, lists) + [ScoreProjectForJob(p, job, keywords)]
  {
    assert forall i :: 0 <= i < |projects| ==> (projects + [p])[i] == projects[i] && (lists + [keywords])[i] == lists[i];
  }

  /**
   * `rank_projects_for_job`: every project is scored, the scores are stably
   * sorted by overall score, highest first, and the first `top_k` are kept.
   */
  method RankProjectsForJob(projects: seq<ParsedProject>, job: string, topK: int)
    returns (ranked: seq<ScoreData>, ghost lists: seq<seq<string>>)
    ensures ListsKeywords(lists, projects)
    ensures ranked == PyPrefix(Sort(Scores(projects, job, lists), ByKeyDesc(OverallOf)), topK)
  {
    var all: seq<ScoreData> := [];
    lists := [];
    for i := 0 to |projects|
      invariant ListsKeywords(lists, projects[..i]) && all == Scores(projects[..i], job, lists)
    {
      var keywords := ExtractKeywordsFromProject(projects[i]);
      ScoresSnoc(projects[..i], job, lists, projects[i], keywords);
      TakeSnoc(projects, i);
      all := all + [ScoreProjectForJob(projects[i], job, keywords)];
      lists := lists + [keywords];
    }
    assert projects[..|projects|] == projects;
    ranked := PyPrefix(Sort(all, ByKeyDesc(OverallOf)), topK);
  }

  /**
   * The ranking holds `min(top_k, n)` of the scored projects, by overall score
   * highest first, and projects with equal scores stay in input order.
   */
  lemma RankingFacts(scored: seq<ScoreData>, topK: int, v: ScoreData)
    ensures var ranked := PyPrefix(Sort(scored, ByKeyDesc(OverallOf)), topK);
      (topK >= 0 ==> |ranked| == if topK < |scored| then topK else |scored|) &&
      (forall i, j :: 0 <= i < j < |ranked| ==> ranked[i].overallScore >= ranked[j].overallScore) &&
      (forall i :: 0 <= i < |ranked| ==> ranked[i] in multiset(scored)) &&
      Filter(Sort(scored, ByKeyDesc(OverallOf)), TiedWith(ByKeyDesc(OverallOf), v)) ==
        Filter(scored, TiedWith(ByKeyDesc(OverallOf), v))
  {
    var sorted := Sort(scored, ByKeyDesc(OverallOf));
    SortByKeyDesc(scored, OverallOf);
    ByKeyDescTotal(OverallOf);
    SortStable(scored, ByKeyDesc(OverallOf), v);
    var ranked := PyPrefix(sorted, topK);
    forall i | 0 <= i < |ranked| ensures ranked[i] in multiset(scored) {
      assert ranked[i] == sorted[i];
      assert sorted[i] in multiset(sorted);
    }
  }
}
