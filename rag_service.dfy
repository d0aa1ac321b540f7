/**
 * `RAGService` (`backend/app/services/rag_service.py`): how a résumé is cut
 * into chunks, how its vectors are named and batched into a namespace, the
 * filter a search sends, and how relevant project titles are drawn from the
 * matches. Embedding and the index itself are not part of this model: the
 * matches a query returns are an input.
 */
module RagService {
  import opened Wrappers
  import opened Text
  import opened Seqs
  import opened Batching

  /** Used when no namespace (or an empty one) is given. */
  const DefaultNamespace: string := "default"

  /** A project as the caller passes it: `title`, `description`, `technologies`. */
  datatype ProjectInfo = ProjectInfo(title: string, description: string, technologies: seq<string>)

  /** `chunk["type"]`: "full_resume" or "project". */
  datatype ChunkKind = FullResume | ProjectKind

  /** A chunk; `projectTitle` is absent from the full-résumé chunk. */
  datatype Chunk = Chunk(kind: ChunkKind, text: string, projectTitle: Option<string>)

  // ------------------------------------------------------------ _chunk_resume

  /** `f"{title}\n{description}\nTechnologies: {', '.join(technologies)}"`. */
  function ProjectText(p: ProjectInfo): string {
    Join([p.title, p.description, "Technologies: " + Join(p.technologies, ", ")], "\n")
  }

  function ProjectChunk(p: ProjectInfo): Chunk {
    Chunk(ProjectKind, ProjectText(p), Some(p.title))
  }

  /** The project chunk's text gives its title, description and technology line back, line by line. */
  lemma ProjectTextLines(p: ProjectInfo)
    requires '\n' !in p.title && '\n' !in p.description
    requires forall t :: t in p.technologies ==> '\n' !in t
    ensures Split(ProjectText(p), '\n') == [p.title, p.description, "Technologies: " + Join(p.technologies, ", ")]
  {
    JoinNoChar(p.technologies, ", ", '\n');
    var techLine := "Technologies: " + Join(p.technologies, ", ");
    assert techLine[..14] == "Technologies: " && techLine[14..] == Join(p.technologies, ", ");
    assert '\n' !in techLine by {
      forall k | 0 <= k < |techLine|
        ensures techLine[k] != '\n'
      {
        if k >= 14 {
          assert techLine[k] == techLine[14..][k - 14];
        }
      }
    }
    SplitJoin([p.title, p.description, techLine], '\n');
  }

  /** Joining parts that avoid a character, with a separator that avoids it, avoids it. */
  lemma {:induction false} JoinNoChar(parts: seq<string>, sep: string, c: char)
    requires c !in sep && forall t :: t in parts ==> c !in t
    ensures c !in Join(parts, sep)
  {
    if |parts| > 1 {
      assert parts[0] in parts;
      forall t | t in parts[1..]
        ensures c !in t
      {
        assert t in parts;
      }
      JoinNoChar(parts[1..], sep, c);
    } else if |parts| == 1 {
      assert parts[0] in parts;
    }
  }

  /** `_chunk_resume`: the whole text first, then one chunk per project, in order. */
  method ChunkResume(resumeText: string, projects: seq<ProjectInfo>) returns (chunks: seq<Chunk>)
    ensures |chunks| == 1 + |projects|
    ensures chunks[0] == Chunk(FullResume, resumeText, None)
    ensures chunks[1..] == Map(projects, ProjectChunk)
  {
    chunks := [Chunk(FullResume, resumeText, None)];
    for i := 0 to |projects|
      invariant |chunks| == 1 + i
      invariant chunks[0] == Chunk(FullResume, resumeText, None)
      invariant chunks[1..] == Map(projects[..i], ProjectChunk)
    {
      assert projects[..i + 1] == projects[..i] + [projects[i]];
      MapAppend(projects[..i], [projects[i]], ProjectChunk);
      chunks := chunks + [ProjectChunk(projects[i])];
    }
    assert projects[..|projects|] == projects;
  }

  // ------------------------------------------------------------- store_resume

  /** The metadata stored with a vector. */
  datatype VectorMetadata = VectorMetadata(resumeId: string, chunkType: ChunkKind, text: string, projectTitle: string)

  /** A vector as upserted; its embedding is not part of this model. */
  datatype Vector = Vector(id: string, metadata: VectorMetadata)

  /** `f"{user_id}_chunk_{i}"`. */
  function VectorId(userId: string, i: nat): string {
    userId + "_chunk_" + DecimalString(i)
  }

  /** Different chunks of a résumé get different ids. */
  lemma VectorIdInjective(userId: string, i: nat, j: nat)
    requires i != j
    ensures VectorId(userId, i) != VectorId(userId, j)
  {
    var n := |userId| + 7;
    if VectorId(userId, i) == VectorId(userId, j) {
      assert VectorId(userId, i)[n..] == DecimalString(i);
      assert VectorId(userId, j)[n..] == DecimalString(j);
      DigitsValueOfDecimal(i);
      DigitsValueOfDecimal(j);
    }
  }

  /** `namespace or "default"`. */
  function NamespaceOr(namespace: Option<string>): (r: string)
    ensures r != ""
    ensures namespace.Some? && namespace.value != "" ==> r == namespace.value
  {
    match namespace
    case Some(ns) => if ns != "" then ns else DefaultNamespace
    case None => DefaultNamespace
  }

  function VectorOf(userId: string, chunks: seq<Chunk>, i: nat): Vector
    requires i < |chunks|
  {
    var c := chunks[i];
    Vector(VectorId(userId, i), VectorMetadata(userId, c.kind, c.text, c.projectTitle.GetOr("")))
  }

  /** The vectors of a résumé's chunks, in chunk order. */
  function Vectors(userId: string, chunks: seq<Chunk>): (r: seq<Vector>)
    ensures |r| == |chunks| && forall i :: 0 <= i < |chunks| ==> r[i] == VectorOf(userId, chunks, i)
  {
    seq(|chunks|, i requires 0 <= i < |chunks| => VectorOf(userId, chunks, i))
  }

  /** The vectors have pairwise distinct ids, all carrying the résumé id. */
  lemma VectorsFacts(userId: string, chunks: seq<Chunk>)
    ensures forall i, j :: 0 <= i < j < |chunks| ==> Vectors(userId, chunks)[i].id != Vectors(userId, chunks)[j].id
    ensures forall v :: v in Vectors(userId, chunks) ==> v.metadata.resumeId == userId
  {
    forall i, j | 0 <= i < j < |chunks|
      ensures Vectors(userId, chunks)[i].id != Vectors(userId, chunks)[j].id
    {
      VectorIdInjective(userId, i, j);
    }
  }

  /**
   * `store_resume`: the chunks' vectors, upserted in batches of 100 into one
   * namespace; a failing call raises, so when it returns every vector was
   * sent, in order.
   */
  method StoreResume(userId: string, resumeText: string, projects: seq<ProjectInfo>, namespace: Option<string>)
    returns (sent: seq<Vector>, calls: nat, into: string, ghost chunks: seq<Chunk>)
    ensures |chunks| == 1 + |projects| && chunks[0].kind == FullResume && chunks[1..] == Map(projects, ProjectChunk)
    ensures sent == Vectors(userId, chunks)
    ensures calls == |Batches(Vectors(userId, chunks), BatchSize)|
    ensures into == NamespaceOr(namespace)
  {
    var cs := ChunkResume(resumeText, projects);
    var vectors := [];
    for i := 0 to |cs|
      invariant vectors == Vectors(userId, cs[..i])
    {
      assert forall k :: 0 <= k < i ==> VectorOf(userId, cs[..i + 1], k) == VectorOf(userId, cs[..i], k);
      var c := cs[i];
      vectors := vectors + [Vector(VectorId(userId, i), VectorMetadata(userId, c.kind, c.text, c.projectTitle.GetOr("")))];
    }
    assert cs[..|cs|] == cs;
    sent, calls := UpsertInBatches(vectors, _ => true);
    StoredByAll(Batches(vectors, BatchSize), _ => true);
    BatchesCover(vectors, BatchSize);
    into := NamespaceOr(namespace);
    chunks := cs;
  }

  // ---------------------------------------------------------- semantic_search

  /** A query as sent to the index. */
  datatype Query = Query(topK: int, filter: Option<string>, namespace: string)

  /** A search hit: `text`, `score`, `chunk_type` and `project_title` (default ""). */
  datatype Hit = Hit(text: string, score: real, chunkType: ChunkKind, projectTitle: string)

  /**
   * `semantic_search`'s query: it filters on `resume_id` exactly when a
   * non-empty user id is given.
   */
  function SearchQuery(userId: Option<string>, topK: int, namespace: Option<string>): (q: Query)
    ensures q.filter.Some? <==> userId.Some? && userId.value != ""
    ensures q.filter.Some? ==> q.filter.value == userId.value
    ensures q.topK == topK && q.namespace == NamespaceOr(namespace)
  {
    var filter := match userId
      case Some(u) => if u != "" then Some(u) else None
      case None => None;
    Query(topK, filter, NamespaceOr(namespace))
  }

  // --------------------------------------------------- find_relevant_projects

  predicate IsProjectHit(h: Hit) {
    h.chunkType == ProjectKind
  }

  function TitleOf(h: Hit): string {
    h.projectTitle
  }

  /** The titles of the project hits, in hit order. */
  function Titles(hits: seq<Hit>): seq<string> {
    Map(Filter(hits, IsProjectHit), TitleOf)
  }

  /** The distinct project titles among the hits, in first-seen order, at most `topK`. */
  function RelevantProjects(hits: seq<Hit>, topK: nat): seq<string> {
    PyPrefix(DedupFirst(Titles(hits)), topK)
  }

  /**
   * At most `topK` titles, pairwise distinct, each the title of a project
   * hit; when fewer than `topK` are returned, every project hit's title is
   * among them.
   */
  lemma RelevantProjectsFacts(hits: seq<Hit>, topK: nat)
    ensures var r := RelevantProjects(hits, topK);
      |r| <= topK && NoDup(r) &&
      (forall t :: t in r ==> exists h :: h in hits && IsProjectHit(h) && h.projectTitle == t)
    ensures var r := RelevantProjects(hits, topK);
      |r| < topK ==> forall h :: h in hits && IsProjectHit(h) ==> h.projectTitle in r
  {
    var projectHits := Filter(hits, IsProjectHit);
    var titles := Map(projectHits, TitleOf);
    var d := DedupFirst(titles);
    var r := RelevantProjects(hits, topK);
    assert r == d[..|r|];
    forall i, j | 0 <= i < j < |r|
      ensures r[i] != r[j]
    {
      assert r[i] == d[i] && r[j] == d[j];
    }
    forall t | t in r
      ensures exists h :: h in hits && IsProjectHit(h) && h.projectTitle == t
    {
      assert t in d;
      var k :| 0 <= k < |titles| && titles[k] == t;
      assert projectHits[k] in projectHits;
    }
    if |r| < topK {
      assert r == d;
      forall h | h in hits && IsProjectHit(h)
        ensures h.projectTitle in r
      {
        assert h in projectHits;
        var k :| 0 <= k < |projectHits| && projectHits[k] == h;
        assert titles[k] == h.projectTitle;
      }
    }
  }

  /**
   * `find_relevant_projects`: it asks for twice `top_k` hits, then keeps
   * the distinct project titles in order, at most `top_k`.
   */
  method FindRelevantProjects(userId: string, topK: nat, namespace: Option<string>, hits: seq<Hit>)
    returns (query: Query, projects: seq<string>)
    ensures query == SearchQuery(Some(userId), 2 * topK, namespace)
    ensures projects == RelevantProjects(hits, topK)
  {
    query := SearchQuery(Some(userId), topK * 2, namespace);
    var seen: set<string> := {};
    var found := [];
    for i := 0 to |hits|
      invariant found == DedupFirst(Titles(hits[..i]))
      invariant forall t :: t in seen <==> t in found
    {
      FoundSnoc(hits, i);
      if hits[i].chunkType == ProjectKind {
        if hits[i].projectTitle !in seen {
          seen := seen + {hits[i].projectTitle};
          found := found + [hits[i].projectTitle];
        }
      }
    }
    assert hits[..|hits|] == hits;
    projects := PyPrefix(found, topK);
  }

  /** One more hit adds its title to the distinct titles when it is a project hit whose title is new. */
  lemma FoundSnoc(hits: seq<Hit>, i: nat)
    requires i < |hits|
    ensures var d := DedupFirst(Titles(hits[..i]));
      DedupFirst(Titles(hits[..i + 1])) ==
        if IsProjectHit(hits[i]) && hits[i].projectTitle !in d then d + [hits[i].projectTitle] else d
  {
    TitlesSnoc(hits, i);
    var before := Titles(hits[..i]);
    if IsProjectHit(hits[i]) {
      assert Titles(hits[..i + 1]) == before + [hits[i].projectTitle];
      DedupFirstAppend(before, hits[i].projectTitle);
    } else {
      assert Titles(hits[..i + 1]) == before;
    }
  }

  lemma TitlesSnoc(hits: seq<Hit>, i: nat)
    requires i < |hits|
    ensures Titles(hits[..i + 1]) == Titles(hits[..i]) + (if IsProjectHit(hits[i]) then [hits[i].projectTitle] else [])
  {
    assert hits[..i + 1][..i] == hits[..i];
    if IsProjectHit(hits[i]) {
      MapAppend(Filter(hits[..i], IsProjectHit), [hits[i]], TitleOf);
    }
  }
}
