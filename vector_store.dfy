/**
 * `VectorStore` (`src/vector_store.py`): what is done with the matches an
 * index query returns (the similarity threshold, dropping the résumé's own
 * projects, de-duplication by name keeping the best score, ranking), and how
 * project chunks are prepared and upserted. The embedding model and the
 * index are not part of this model: a query's matches and the outcome of
 * each upsert call are inputs.
 */
module VectorStore {
  import opened Wrappers
  import opened Text
  import opened Seqs
  import opened Sorting
  import opened Batching

  /** `SIMILARITY_THRESHOLD` in `config/settings.py`. */
  const SimilarityThreshold: real := 0.75

  /** `TOP_K_PROJECTS` in `config/settings.py`. */
  const TopKProjects: nat := 5

  /** Content stored in a vector's metadata is cut to this many characters. */
  const MetadataContentLimit: nat := 1000

  /**
   * One match of a query: its score and the metadata fields read from it
   * (`content` and `project_name` default to "", `project_index` to None).
   */
  datatype Match = Match(score: real, content: string, projectName: string, projectIndex: Option<int>)

  /** An entry of `search_resume_content`'s result. */
  datatype ResumeHit = ResumeHit(content: string, score: real)

  /** An entry of `search_project_alternatives`' result. */
  datatype Alternative = Alternative(projectName: string, description: string, relevance: real, projectIndex: Option<int>)

  predicate Relevant(m: Match) {
    m.score >= SimilarityThreshold
  }

  // ---------------------------------------------------- search_resume_content

  function HitOf(m: Match): ResumeHit {
    ResumeHit(m.content, m.score)
  }

  /** The matches at or above the threshold, in the order the index returned them. */
  function ResumeHits(matches: seq<Match>): seq<ResumeHit> {
    Map(Filter(matches, Relevant), HitOf)
  }

  /**
   * Every hit scores at least the threshold, every match that does is kept,
   * and the index's descending score order is kept.
   */
  lemma ResumeHitsFacts(matches: seq<Match>)
    ensures forall h :: h in ResumeHits(matches) ==> h.score >= SimilarityThreshold
    ensures forall m :: m in matches && m.score >= SimilarityThreshold ==> HitOf(m) in ResumeHits(matches)
    ensures (forall i, j :: 0 <= i < j < |matches| ==> matches[i].score >= matches[j].score) ==>
      forall i, j :: 0 <= i < j < |ResumeHits(matches)| ==> ResumeHits(matches)[i].score >= ResumeHits(matches)[j].score
  {
    var kept := Filter(matches, Relevant);
    forall h | h in ResumeHits(matches)
      ensures h.score >= SimilarityThreshold
    {
      var i :| 0 <= i < |kept| && ResumeHits(matches)[i] == h;
      assert kept[i] in kept;
    }
    forall m | m in matches && m.score >= SimilarityThreshold
      ensures HitOf(m) in ResumeHits(matches)
    {
      assert m in kept;
      var i :| 0 <= i < |kept| && kept[i] == m;
      assert ResumeHits(matches)[i] == HitOf(m);
    }
    if forall i, j :: 0 <= i < j < |matches| ==> matches[i].score >= matches[j].score {
      FilterPairwise(matches, Relevant, (a: Match, b: Match) => a.score >= b.score);
    }
  }

  /** The result-building loop of `search_resume_content`. */
  method SearchResumeContent(matches: seq<Match>) returns (results: seq<ResumeHit>)
    ensures results == ResumeHits(matches)
  {
    results := [];
    for i := 0 to |matches|
      invariant results == ResumeHits(matches[..i])
    {
      ResumeHitsSnoc(matches, i);
      if matches[i].score >= SimilarityThreshold {
        results := results + [HitOf(matches[i])];
      }
    }
    assert matches[..|matches|] == matches;
  }

  lemma ResumeHitsSnoc(matches: seq<Match>, i: nat)
    requires i < |matches|
    ensures ResumeHits(matches[..i + 1]) == ResumeHits(matches[..i]) + (if Relevant(matches[i]) then [HitOf(matches[i])] else [])
  {
    assert matches[..i + 1][..i] == matches[..i];
    if Relevant(matches[i]) {
      MapAppend(Filter(matches[..i], Relevant), [matches[i]], HitOf);
    }
  }

  // ---------------------------------------------- search_project_alternatives

  /** A match is a candidate when it is not one of the résumé's projects (ignoring case) and is relevant. */
  predicate IsCandidate(currentLower: seq<string>, m: Match) {
    Lower(m.projectName) !in currentLower && Relevant(m)
  }

  function AlternativeOf(m: Match): Alternative {
    Alternative(m.projectName, m.content, m.score, m.projectIndex)
  }

  /** The first loop: the candidates, in match order. */
  function Candidates(matches: seq<Match>, current: seq<string>): seq<Alternative> {
    var currentLower := Map(current, Lower);
    Map(Filter(matches, m => IsCandidate(currentLower, m)), AlternativeOf)
  }

  /** A dictionary as its items in insertion order. */
  type Table<T> = seq<(string, T)>

  function KeyIndex<T>(table: Table<T>, k: string): (r: Option<nat>)
    ensures r.Some? ==> r.value < |table| && table[r.value].0 == k
    ensures r.None? ==> forall i :: 0 <= i < |table| ==> table[i].0 != k
  {
    if |table| == 0 then None
    else if table[|table| - 1].0 == k then Some(|table| - 1)
    else KeyIndex(table[..|table| - 1], k)
  }

  /**
   * One step of the de-duplication loop: an item of a new key is added, an
   * item of a known key replaces the kept one only when it scores strictly
   * higher (and then takes its place).
   */
  function Keep<T>(table: Table<T>, a: T, key: T -> string, score: T -> real): Table<T> {
    match KeyIndex(table, key(a))
    case None => table + [(key(a), a)]
    case Some(i) => if score(a) > score(table[i].1) then table[i := (key(a), a)] else table
  }

  function Unique<T>(items: seq<T>, key: T -> string, score: T -> real): Table<T> {
    if |items| == 0 then [] else Keep(Unique(items[..|items| - 1], key, score), items[|items| - 1], key, score)
  }

  /** `items[j]` is the first item of its key with the highest score of that key. */
  ghost predicate BestOf<T>(items: seq<T>, j: nat, key: T -> string, score: T -> real) {
    j < |items| &&
    (forall k :: 0 <= k < |items| && key(items[k]) == key(items[j]) ==> score(items[k]) <= score(items[j])) &&
    (forall k :: 0 <= k < j && key(items[k]) == key(items[j]) ==> score(items[k]) < score(items[j]))
  }

  /** `x` is an input item that is the best of its key. */
  ghost predicate IsBest<T>(items: seq<T>, x: T, key: T -> string, score: T -> real) {
    exists j: nat :: BestOf(items, j, key, score) && items[j] == x
  }

  ghost predicate HasEntry<T>(table: Table<T>, k: string) {
    exists i :: 0 <= i < |table| && table[i].0 == k
  }

  /** Entry `i` is keyed by the key of the best item it holds. */
  ghost predicate HoldsBest<T>(table: Table<T>, i: nat, items: seq<T>, key: T -> string, score: T -> real) {
    i < |table| &&
    exists j: nat :: BestOf(items, j, key, score) && items[j] == table[i].1 && table[i].0 == key(items[j])
  }

  /** Each key met has one entry, keyed by it, holding the best item of that key. */
  ghost predicate TableOf<T>(table: Table<T>, items: seq<T>, key: T -> string, score: T -> real) {
    (forall i, j :: 0 <= i < j < |table| ==> table[i].0 != table[j].0) &&
    (forall j :: 0 <= j < |items| ==> HasEntry(table, key(items[j]))) &&
    (forall i :: 0 <= i < |table| ==> HoldsBest(table, i, items, key, score))
  }

  /** The de-duplication keeps, for each key, the first item with the highest score. */
  lemma {:induction false} UniqueFacts<T>(items: seq<T>, key: T -> string, score: T -> real)
    ensures TableOf(Unique(items, key, score), items, key, score)
  {
    if |items| > 0 {
      var init := items[..|items| - 1];
      UniqueFacts(init, key, score);
      KeepFacts(Unique(init, key, score), init, items[|items| - 1], key, score);
      assert init + [items[|items| - 1]] == items;
    }
  }

  /** An earlier best item stays best when a later item of another key, or of its key and no higher score, comes. */
  lemma BestOfExtend<T>(init: seq<T>, a: T, j: nat, key: T -> string, score: T -> real)
    requires BestOf(init, j, key, score)
    requires key(a) == key(init[j]) ==> score(a) <= score(init[j])
    ensures BestOf(init + [a], j, key, score)
  {
    assert forall k :: 0 <= k < |init| ==> (init + [a])[k] == init[k];
  }

  /** A new item is best when every earlier item of its key scores strictly less. */
  lemma BestOfLast<T>(init: seq<T>, a: T, key: T -> string, score: T -> real)
    requires forall k :: 0 <= k < |init| && key(init[k]) == key(a) ==> score(init[k]) < score(a)
    ensures BestOf(init + [a], |init|, key, score)
  {
    assert forall k :: 0 <= k < |init| ==> (init + [a])[k] == init[k];
  }

  lemma KeepFacts<T>(t: Table<T>, init: seq<T>, a: T, key: T -> string, score: T -> real)
    requires TableOf(t, init, key, score)
    ensures TableOf(Keep(t, a, key, score), init + [a], key, score)
  {
    var r := Keep(t, a, key, score);
    forall j | 0 <= j < |init + [a]|
      ensures HasEntry(r, key((init + [a])[j]))
    {
      KeepCovers(t, init, a, key, score, j);
    }
    forall i | 0 <= i < |r|
      ensures HoldsBest(r, i, init + [a], key, score)
    {
      KeepBest(t, init, a, key, score, i);
    }
  }

  lemma KeepCovers<T>(t: Table<T>, init: seq<T>, a: T, key: T -> string, score: T -> real, j: nat)
    requires TableOf(t, init, key, score) && j <= |init|
    ensures HasEntry(Keep(t, a, key, score), key((init + [a])[j]))
  {
    var r := Keep(t, a, key, score);
    var found := KeyIndex(t, key(a));
    if j < |init| {
      assert (init + [a])[j] == init[j];
      assert HasEntry(t, key(init[j]));
      var i :| 0 <= i < |t| && t[i].0 == key(init[j]);
      assert r[i].0 == t[i].0;
    } else if found.None? {
      assert r[|t|].0 == key(a);
    } else {
      assert r[found.value].0 == key(a);
    }
  }

  lemma KeepBest<T>(t: Table<T>, init: seq<T>, a: T, key: T -> string, score: T -> real, i: nat)
    requires TableOf(t, init, key, score) && i < |Keep(t, a, key, score)|
    ensures HoldsBest(Keep(t, a, key, score), i, init + [a], key, score)
  {
    var items := init + [a];
    var r := Keep(t, a, key, score);
    var found := KeyIndex(t, key(a));
    if i < |t| && (found.None? || i != found.value) {
      assert HoldsBest(t, i, init, key, score);
      var j: nat :| BestOf(init, j, key, score) && init[j] == t[i].1 && t[i].0 == key(init[j]);
      BestOfExtend(init, a, j, key, score);
      assert r[i] == t[i] && items[j] == init[j];
    } else if found.None? {
      forall k | 0 <= k < |init|
        ensures key(init[k]) != key(a)
      {
        assert HasEntry(t, key(init[k]));
      }
      BestOfLast(init, a, key, score);
      assert items[|init|] == a;
    } else {
      assert HoldsBest(t, i, init, key, score);
      var j: nat :| BestOf(init, j, key, score) && init[j] == t[i].1 && t[i].0 == key(init[j]);
      if score(a) > score(t[i].1) {
        forall k | 0 <= k < |init| && key(init[k]) == key(a)
          ensures score(init[k]) < score(a)
        {
        }
        BestOfLast(init, a, key, score);
        assert items[|init|] == a;
      } else {
        BestOfExtend(init, a, j, key, score);
        assert items[j] == init[j];
      }
    }
  }

  function NameKey(a: Alternative): string {
    Lower(a.projectName)
  }

  function Relevance(a: Alternative): real {
    a.relevance
  }

  function Values<T>(table: Table<T>): (r: seq<T>)
    ensures |r| == |table| && forall i :: 0 <= i < |table| ==> r[i] == table[i].1
  {
    Map(table, (item: (string, T)) => item.1)
  }

  /** `sorted(unique.values(), key=relevance, reverse=True)[:TOP_K_PROJECTS]`. */
  function TopAlternatives(alts: seq<Alternative>): seq<Alternative> {
    PyPrefix(Sort(Values(Unique(alts, NameKey, Relevance)), ByKeyDesc(Relevance)), TopKProjects)
  }

  /** `search_project_alternatives` on the matches of its query. */
  function ProjectAlternatives(matches: seq<Match>, current: seq<string>): seq<Alternative> {
    TopAlternatives(Candidates(matches, current))
  }

  /**
   * The ranking keeps at most `TOP_K_PROJECTS` items, sorted by score
   * (highest first), with distinct keys.
   */
  lemma RankOrder<T(!new)>(items: seq<T>, key: T -> string, score: T -> real, top: nat)
    ensures var r := PyPrefix(Sort(Values(Unique(items, key, score)), ByKeyDesc(score)), top);
      |r| <= top &&
      (forall i, j :: 0 <= i < j < |r| ==> score(r[i]) >= score(r[j])) &&
      (forall i, j :: 0 <= i < j < |r| ==> key(r[i]) != key(r[j]))
  {
    var t := Unique(items, key, score);
    var values := Values(t);
    var sorted := Sort(values, ByKeyDesc(score));
    var r := PyPrefix(sorted, top);
    UniqueFacts(items, key, score);
    SortByKeyDesc(values, score);
    assert r == sorted[..|r|];
    DistinctValues(t, items, key, score);
    PermutationNoDup(values, sorted);
    forall i, j | 0 <= i < j < |r|
      ensures key(r[i]) != key(r[j])
    {
      var a := PermutationIndex(values, sorted, i);
      var b := PermutationIndex(values, sorted, j);
      KeyOfValue(t, items, key, score, a);
      KeyOfValue(t, items, key, score, b);
    }
  }

  /** Each ranked item is the best input of its key. */
  lemma RankBest<T(!new)>(items: seq<T>, key: T -> string, score: T -> real, top: nat)
    ensures forall x :: x in PyPrefix(Sort(Values(Unique(items, key, score)), ByKeyDesc(score)), top) ==>
      IsBest(items, x, key, score)
  {
    var t := Unique(items, key, score);
    var values := Values(t);
    var sorted := Sort(values, ByKeyDesc(score));
    var r := PyPrefix(sorted, top);
    UniqueFacts(items, key, score);
    SortByKeyDesc(values, score);
    assert r == sorted[..|r|];
    forall x | x in r
      ensures IsBest(items, x, key, score)
    {
      var i :| 0 <= i < |r| && r[i] == x;
      var v := PermutationIndex(values, sorted, i);
      assert x == values[v] == t[v].1;
      assert HoldsBest(t, v, items, key, score);
      var j: nat :| BestOf(items, j, key, score) && items[j] == t[v].1 && t[v].0 == key(items[j]);
    }
  }

  /** An input whose key did not make the cut scores no higher than any item that did. */
  lemma RankCutoff<T(!new)>(items: seq<T>, key: T -> string, score: T -> real, top: nat)
    ensures var r := PyPrefix(Sort(Values(Unique(items, key, score)), ByKeyDesc(score)), top);
      forall a :: a in items && (forall b :: b in r ==> key(b) != key(a)) ==>
        forall b :: b in r ==> score(a) <= score(b)
  {
    var t := Unique(items, key, score);
    var values := Values(t);
    var sorted := Sort(values, ByKeyDesc(score));
    var r := PyPrefix(sorted, top);
    UniqueFacts(items, key, score);
    SortByKeyDesc(values, score);
    assert r == sorted[..|r|];
    forall a | a in items && (forall b :: b in r ==> key(b) != key(a))
      ensures forall b :: b in r ==> score(a) <= score(b)
    {
      var ja :| 0 <= ja < |items| && items[ja] == a;
      assert HasEntry(t, key(items[ja]));
      var i :| 0 <= i < |t| && t[i].0 == key(items[ja]);
      assert HoldsBest(t, i, items, key, score);
      var j: nat :| BestOf(items, j, key, score) && items[j] == t[i].1 && t[i].0 == key(items[j]);
      var k := PermutationIndex(sorted, values, i);
      assert k >= |r|;
      assert score(a) <= score(sorted[k]);
      forall b | b in r
        ensures score(a) <= score(b)
      {
        var ib :| 0 <= ib < |r| && r[ib] == b;
        assert score(sorted[ib]) >= score(sorted[k]);
      }
    }
  }

  lemma KeyOfValue<T>(t: Table<T>, items: seq<T>, key: T -> string, score: T -> real, i: nat)
    requires TableOf(t, items, key, score) && i < |t|
    ensures key(t[i].1) == t[i].0
  {
    assert HoldsBest(t, i, items, key, score);
    var j: nat :| BestOf(items, j, key, score) && items[j] == t[i].1 && t[i].0 == key(items[j]);
  }

  /** Distinct keys make distinct values. */
  lemma DistinctValues<T>(t: Table<T>, items: seq<T>, key: T -> string, score: T -> real)
    requires TableOf(t, items, key, score)
    ensures NoDup(Values(t))
  {
    var v := Values(t);
    forall i, j | 0 <= i < j < |v|
      ensures v[i] != v[j]
    {
      KeyOfValue(t, items, key, score, i);
      KeyOfValue(t, items, key, score, j);
    }
  }

  /** Every candidate meets the threshold and is not one of the résumé's projects. */
  lemma CandidateFacts(matches: seq<Match>, current: seq<string>)
    ensures forall a :: a in Candidates(matches, current) ==>
      a.relevance >= SimilarityThreshold && Lower(a.projectName) !in Map(current, Lower)
  {
    var currentLower := Map(current, Lower);
    var kept := Filter(matches, m => IsCandidate(currentLower, m));
    forall a | a in Candidates(matches, current)
      ensures a.relevance >= SimilarityThreshold && Lower(a.projectName) !in currentLower
    {
      var i :| 0 <= i < |kept| && Candidates(matches, current)[i] == a;
      assert kept[i] in kept;
    }
  }

  /**
   * The alternatives are at most `TOP_K_PROJECTS`, sorted by relevance
   * (highest first), with distinct lowercased names, each the first
   * candidate of its name with that name's highest relevance; a candidate
   * of a name that did not make the cut scores no higher than any
   * alternative.
   */
  lemma ProjectAlternativesRanked(matches: seq<Match>, current: seq<string>)
    ensures var alts := Candidates(matches, current);
      var r := ProjectAlternatives(matches, current);
      |r| <= TopKProjects &&
      (forall i, j :: 0 <= i < j < |r| ==> r[i].relevance >= r[j].relevance) &&
      (forall i, j :: 0 <= i < j < |r| ==> NameKey(r[i]) != NameKey(r[j])) &&
      (forall a :: a in r ==> IsBest(alts, a, NameKey, Relevance))
    ensures var r := ProjectAlternatives(matches, current);
      forall a :: a in Candidates(matches, current) && (forall b :: b in r ==> NameKey(b) != NameKey(a)) ==>
        forall b :: b in r ==> a.relevance <= b.relevance
  {
    RankOrder(Candidates(matches, current), NameKey, Relevance, TopKProjects);
    RankBest(Candidates(matches, current), NameKey, Relevance, TopKProjects);
    RankCutoff(Candidates(matches, current), NameKey, Relevance, TopKProjects);
  }

  /** No alternative is one of the résumé's projects (ignoring case), and each meets the threshold. */
  lemma ProjectAlternativesFiltered(matches: seq<Match>, current: seq<string>)
    ensures forall a :: a in ProjectAlternatives(matches, current) ==>
      a.relevance >= SimilarityThreshold && Lower(a.projectName) !in Map(current, Lower)
  {
    var alts := Candidates(matches, current);
    var r := ProjectAlternatives(matches, current);
    ProjectAlternativesRanked(matches, current);
    CandidateFacts(matches, current);
    forall a | a in r
      ensures a.relevance >= SimilarityThreshold && Lower(a.projectName) !in Map(current, Lower)
    {
      assert IsBest(alts, a, NameKey, Relevance);
      var j: nat :| BestOf(alts, j, NameKey, Relevance) && alts[j] == a;
      assert alts[j] in alts;
    }
  }

  /** `search_project_alternatives` after the query: filter, de-duplicate, rank. */
  method SearchProjectAlternatives(matches: seq<Match>, current: seq<string>) returns (results: seq<Alternative>)
    ensures results == ProjectAlternatives(matches, current)
  {
    var currentLower := [];
    for i := 0 to |current|
      invariant currentLower == Map(current[..i], Lower)
    {
      assert current[..i + 1] == current[..i] + [current[i]];
      MapAppend(current[..i], [current[i]], Lower);
      currentLower := currentLower + [Lower(current[i])];
    }
    assert current[..|current|] == current;
    var alts := CollectCandidates(matches, currentLower);
    var table := DedupByName(alts);
    results := PyPrefix(Sort(Values(table), ByKeyDesc(Relevance)), TopKProjects);
  }

  /** The first loop of `search_project_alternatives`: skip current projects and matches below the threshold. */
  method CollectCandidates(matches: seq<Match>, currentLower: seq<string>) returns (alts: seq<Alternative>)
    ensures alts == Map(Filter(matches, m => IsCandidate(currentLower, m)), AlternativeOf)
  {
    ghost var keep := m => IsCandidate(currentLower, m);
    alts := [];
    for i := 0 to |matches|
      invariant alts == Map(Filter(matches[..i], keep), AlternativeOf)
    {
      FilterMapSnoc(matches, i, keep, AlternativeOf);
      var name := Lower(matches[i].projectName);
      if name in currentLower {
        continue;
      }
      if matches[i].score >= SimilarityThreshold {
        alts := alts + [AlternativeOf(matches[i])];
      }
    }
    assert matches[..|matches|] == matches;
  }

  /** The `unique_projects` loop: one entry per lowercased name, replaced only by a strictly higher relevance. */
  method DedupByName(alts: seq<Alternative>) returns (table: Table<Alternative>)
    ensures table == Unique(alts, NameKey, Relevance)
  {
    table := [];
    for i := 0 to |alts|
      invariant table == Unique(alts[..i], NameKey, Relevance)
    {
      assert alts[..i + 1][..i] == alts[..i];
      var key := Lower(alts[i].projectName);
      var at := KeyIndex(table, key);
      if at.None? {
        table := table + [(key, alts[i])];
      } else if alts[i].relevance > table[at.value].1.relevance {
        table := table[at.value := (key, alts[i])];
      }
    }
    assert alts[..|alts|] == alts;
  }

  // ---------------------------------------------------- store_project_chunks

  /** A JSON metadata value; `Null` is Python's `None`. */
  datatype MetaValue = Null | Str(s: string) | Num(n: int) | Flag(b: bool)

  /** A project chunk: its text and its metadata. */
  datatype ProjectChunk = ProjectChunk(content: string, metadata: map<string, MetaValue>)

  /** `{**metadata, 'content': content[:1000]}` without its `None` values. */
  function CleanMetadata(metadata: map<string, MetaValue>, content: string): (r: map<string, MetaValue>)
    ensures "content" in r && r["content"] == Str(PyPrefix(content, MetadataContentLimit))
    ensures |r["content"].s| <= MetadataContentLimit && r["content"].s == content[..|r["content"].s|]
    ensures forall k :: k in r ==> r[k] != Null
    ensures forall k :: k != "content" ==> (k in r <==> k in metadata && metadata[k] != Null)
    ensures forall k :: k in r && k != "content" ==> r[k] == metadata[k]
  {
    var merged := metadata["content" := Str(PyPrefix(content, MetadataContentLimit))];
    map k | k in merged && merged[k] != Null :: merged[k]
  }

  /** Preparing the metadata again changes nothing. */
  lemma CleanMetadataIdempotent(metadata: map<string, MetaValue>, content: string)
    ensures CleanMetadata(CleanMetadata(metadata, content), content) == CleanMetadata(metadata, content)
  {
    var once := CleanMetadata(metadata, content);
    var twice := CleanMetadata(once, content);
    assert twice.Keys == once.Keys;
  }

  function VectorMetadata(c: ProjectChunk): map<string, MetaValue> {
    CleanMetadata(c.metadata, c.content)
  }

  /** Every chunk's metadata has the `project_index` its vector id is built from. */
  predicate Indexed(chunks: seq<ProjectChunk>) {
    forall i :: 0 <= i < |chunks| ==> "project_index" in chunks[i].metadata
  }

  /**
   * `store_project_chunks`: one vector per chunk, in order, upserted in
   * batches of 100; `succeeds(k)` tells whether the k-th call goes through.
   * The outer handler returns before any upsert when the embedder raises
   * (`embedded` false) or a chunk's metadata has no `project_index`.
   */
  method StoreProjectChunks(chunks: seq<ProjectChunk>, embedded: bool, succeeds: nat -> bool)
    returns (stored: seq<map<string, MetaValue>>)
    ensures !embedded || !Indexed(chunks) ==> stored == []
    ensures embedded && Indexed(chunks) ==>
      stored == StoredBy(Batches(Map(chunks, VectorMetadata), BatchSize), succeeds)
  {
    if !embedded {
      return [];
    }
    var vectors := [];
    for i := 0 to |chunks|
      invariant vectors == Map(chunks[..i], VectorMetadata)
      invariant forall j :: 0 <= j < i ==> "project_index" in chunks[j].metadata
    {
      if "project_index" !in chunks[i].metadata {
        return [];
      }
      assert chunks[..i + 1] == chunks[..i] + [chunks[i]];
      MapAppend(chunks[..i], [chunks[i]], VectorMetadata);
      vectors := vectors + [CleanMetadata(chunks[i].metadata, chunks[i].content)];
    }
    assert chunks[..|chunks|] == chunks;
    var calls;
    stored, calls := UpsertInBatches(vectors, succeeds);
  }

  /** When every call succeeds the index holds every chunk's metadata, in chunk order. */
  lemma StoreProjectChunksAll(chunks: seq<ProjectChunk>, succeeds: nat -> bool)
    requires forall k :: 0 <= k < |Batches(Map(chunks, VectorMetadata), BatchSize)| ==> succeeds(k)
    ensures StoredBy(Batches(Map(chunks, VectorMetadata), BatchSize), succeeds) == Map(chunks, VectorMetadata)
  {
    StoredByAll(Batches(Map(chunks, VectorMetadata), BatchSize), succeeds);
    BatchesCover(Map(chunks, VectorMetadata), BatchSize);
  }
}
