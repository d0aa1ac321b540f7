/**
 * `DataManager` (`src/data_manager.py`): the résumé and project caches keyed
 * by file stem, refreshed by hash comparison, with per-scan counters, the
 * sorted listings, the selection of projects by key, and the totals.
 */
module DataManager {
  import opened Wrappers
  import opened Text
  import opened Seqs
  import opened Sorting
  import LatexParser

  // ------------------------------------------------------------ cache refresh

  /** A cache entry: the hash of the file it was made from, and what was stored. */
  datatype Entry<V> = Entry(fileHash: string, data: V)

  /** What a résumé entry keeps: the file name, the extracted text and its sections. */
  datatype ResumeData = ResumeData(filename: string, fullText: string, sections: map<string, string>)

  /** What a project-file entry keeps: the file name, its LaTeX text and the projects parsed from it. */
  datatype ProjectFileData = ProjectFileData(filename: string, latexContent: string, projects: seq<LatexParser.ParsedProject>)

  /**
   * A file met by a scan: its stem, its hash (`_get_file_hash` catches its
   * own errors and gives `""` for a file it cannot read), and the data
   * processing would store for it, or `None` when processing raises or
   * finds nothing.
   */
  datatype Candidate<V> = Candidate(key: string, fileHash: string, outcome: Option<V>)

  /** The cache and the `processed`, `cached` and `errors` counters during a scan. */
  datatype ScanState<V> = ScanState(cache: map<string, Entry<V>>, processed: nat, cached: nat, errors: nat)

  /** The summary a scan returns. */
  datatype ScanResults = ScanResults(processed: nat, cached: nat, errors: nat, total: nat)

  /** The file is unchanged: its key is cached with the same hash. */
  predicate IsCached<V>(cache: map<string, Entry<V>>, key: string, fileHash: string) {
    key in cache && cache[key].fileHash == fileHash
  }

  /** The file is unchanged: its key is cached with the hash it has now. */
  predicate Unchanged<V>(cache: map<string, Entry<V>>, c: Candidate<V>) {
    IsCached(cache, c.key, c.fileHash)
  }

  /** One iteration of the scan loop. */
  function Step<V>(st: ScanState<V>, c: Candidate<V>): ScanState<V> {
    if IsCached(st.cache, c.key, c.fileHash) then st.(cached := st.cached + 1)
    else match c.outcome
      case Some(v) => ScanState(st.cache[c.key := Entry(c.fileHash, v)], st.processed + 1, st.cached, st.errors)
      case None => st.(errors := st.errors + 1)
  }

  /** The scan loop over the files found, from the loaded cache. */
  function Scan<V>(cache: map<string, Entry<V>>, files: seq<Candidate<V>>): ScanState<V> {
    if |files| == 0 then ScanState(cache, 0, 0, 0)
    else Step(Scan(cache, files[..|files| - 1]), files[|files| - 1])
  }

  /**
   * Each file moves exactly one counter: a cached file leaves the cache as it
   * was; a processed file stores its data under its key with its new hash;
   * a failed file leaves the cache as it was.
   */
  lemma StepFacts<V>(st: ScanState<V>, c: Candidate<V>)
    ensures var next := Step(st, c);
      next.processed + next.cached + next.errors == st.processed + st.cached + st.errors + 1
    ensures var next := Step(st, c);
      (next.cached == st.cached + 1 <==> Unchanged(st.cache, c)) &&
      (Unchanged(st.cache, c) ==> next.cache == st.cache)
    ensures var next := Step(st, c);
      next.processed == st.processed + 1 <==> !Unchanged(st.cache, c) && c.outcome.Some?
    ensures var next := Step(st, c);
      next.processed == st.processed + 1 ==> next.cache == st.cache[c.key := Entry(c.fileHash, c.outcome.value)]
    ensures var next := Step(st, c);
      next.errors == st.errors + 1 ==> next.cache == st.cache
  {
  }

  /**
   * A file that cannot be read hashes to `""`: when its stem is cached with
   * that hash it counts as cached, like any unchanged file.
   */
  lemma UnreadableFileMatchesEmptyHash<V>(st: ScanState<V>, c: Candidate<V>)
    requires c.fileHash == "" && c.key in st.cache && st.cache[c.key].fileHash == ""
    ensures Step(st, c) == st.(cached := st.cached + 1)
  {
  }

  /** `processed + cached + errors == total`. */
  lemma {:induction false} ScanConserves<V>(cache: map<string, Entry<V>>, files: seq<Candidate<V>>)
    ensures var st := Scan(cache, files); st.processed + st.cached + st.errors == |files|
  {
    if |files| > 0 {
      ScanConserves(cache, files[..|files| - 1]);
      StepFacts(Scan(cache, files[..|files| - 1]), files[|files| - 1]);
    }
  }

  /** Entries are only added or replaced, never dropped, and files the scan did not meet keep their entries. */
  lemma {:induction false} ScanKeepsEntries<V>(cache: map<string, Entry<V>>, files: seq<Candidate<V>>, key: string)
    requires key in cache
    ensures key in Scan(cache, files).cache
    ensures (forall c :: c in files ==> c.key != key) ==> Scan(cache, files).cache[key] == cache[key]
  {
    if |files| > 0 {
      ScanKeepsEntries(cache, files[..|files| - 1], key);
    }
  }

  /** Every key in the cache after a scan was cached before or belongs to a file the scan met. */
  lemma {:induction false} ScanKeys<V>(cache: map<string, Entry<V>>, files: seq<Candidate<V>>, key: string)
    requires key in Scan(cache, files).cache
    ensures key in cache || exists c :: c in files && c.key == key
  {
    if |files| > 0 {
      var init := files[..|files| - 1];
      if key in Scan(cache, init).cache {
        ScanKeys(cache, init, key);
        if key !in cache {
          var c :| c in init && c.key == key;
          assert c in files;
        }
      } else {
        assert files[|files| - 1].key == key;
      }
    }
  }

  /** After a scan, each file processed or found cached is cached under its key with its hash. */
  lemma {:induction false} ScanRecords<V>(cache: map<string, Entry<V>>, files: seq<Candidate<V>>, i: nat)
    requires i < |files|
    requires forall a, b :: 0 <= a < b < |files| ==> files[a].key != files[b].key
    requires Unchanged(Scan(cache, files[..i]).cache, files[i]) || files[i].outcome.Some?
    ensures Unchanged(Scan(cache, files).cache, files[i])
  {
    var n := |files|;
    var init := files[..n - 1];
    if i == n - 1 {
      assert init == files[..i];
    } else {
      assert init[..i] == files[..i];
      ScanRecords(cache, init, i);
      assert files[n - 1].key != files[i].key;
    }
  }

  /**
   * Scanning the same files again, with distinct keys and the same outcomes,
   * finds every file processed or cached the first time cached, and
   * processes nothing more than the files that failed before.
   */
  lemma RescanCached<V>(cache: map<string, Entry<V>>, files: seq<Candidate<V>>, i: nat)
    requires i < |files|
    requires forall a, b :: 0 <= a < b < |files| ==> files[a].key != files[b].key
    requires Unchanged(Scan(cache, files[..i]).cache, files[i]) || files[i].outcome.Some?
    ensures Unchanged(Scan(Scan(cache, files).cache, files[..i]).cache, files[i])
  {
    var after := Scan(cache, files).cache;
    ScanRecords(cache, files, i);
    ScanKeepsEntries(after, files[..i], files[i].key);
    forall c | c in files[..i]
      ensures c.key != files[i].key
    {
      var a :| 0 <= a < i && files[..i][a] == c;
    }
  }

  /** The candidate a résumé file gives: its processed text and sections, or `None` when processing raised. */
  function ResumeCandidate(f: ResumeFile): Candidate<ResumeData> {
    Candidate(f.key, f.fileHash, match f.processed
      case Some(p) => Some(ResumeData(f.filename, p.fullText, p.sections))
      case None => None)
  }

  /** The candidate a project file gives: its parsed projects, or `None` when reading raised or nothing parsed. */
  function ProjectCandidate(f: ProjectFile): Candidate<ProjectFileData> {
    Candidate(f.key, f.fileHash, match f.content
      case Some(read) => if |read.1| > 0 then Some(ProjectFileData(f.filename, read.0, read.1)) else None
      case None => None)
  }

  /**
   * A résumé file found by the scan; `fileHash` is `""` when the file could
   * not be read, `processed` is `process_resume`'s text and sections, `None`
   * when it raised.
   */
  datatype ResumeFile = ResumeFile(key: string, filename: string, fileHash: string, processed: Option<ProcessedResume>)

  datatype ProcessedResume = ProcessedResume(fullText: string, sections: map<string, string>)

  /**
   * A project file found by the scan; `fileHash` is `""` when the file could
   * not be read, `content` its text and the projects parsed from it, `None` when
   * reading raised.
   */
  datatype ProjectFile = ProjectFile(key: string, filename: string, fileHash: string,
                                     content: Option<(string, seq<LatexParser.ParsedProject>)>)

  /** A parsed project file that yields no project is an error and stores nothing. */
  lemma EmptyProjectFileIsError(cache: map<string, Entry<ProjectFileData>>, f: ProjectFile)
    requires f.content.Some? && f.content.value.1 == []
    requires !IsCached(cache, f.key, f.fileHash)
    ensures var st := ScanState(cache, 0, 0, 0);
      Step(st, ProjectCandidate(f)) == ScanState(cache, 0, 0, 1)
  {
  }

  // ----------------------------------------------------------------- listings

  /** A listing entry of `get_available_resumes`. */
  datatype ResumeSummary = ResumeSummary(key: string, filename: string, characterCount: nat, sectionsFound: set<string>)

  /** A listing entry of `get_available_projects`. */
  datatype ProjectSummary = ProjectSummary(
    fileKey: string,
    filename: string,
    name: string,
    techStack: seq<string>,
    dateRange: string,
    githubLink: Option<string>)

  /** `items` lists the entries of `cache`, each key once, in some order (the dict's iteration order). */
  ghost predicate ItemsOf<V>(items: seq<(string, V)>, cache: map<string, V>) {
    (forall i, j :: 0 <= i < j < |items| ==> items[i].0 != items[j].0) &&
    (forall i :: 0 <= i < |items| ==> items[i].0 in cache && cache[items[i].0] == items[i].1) &&
    (forall k :: k in cache ==> exists i :: 0 <= i < |items| && items[i].0 == k)
  }

  function ResumeSummaryOf(item: (string, Entry<ResumeData>)): ResumeSummary {
    var d := item.1.data;
    ResumeSummary(item.0, d.filename, |d.fullText|, d.sections.Keys)
  }

  function SummaryFilename(r: ResumeSummary): string {
    r.filename
  }

  /** `get_available_resumes`: one summary per cached résumé, sorted by file name. */
  function ResumeListing(items: seq<(string, Entry<ResumeData>)>): seq<ResumeSummary> {
    Sort(Map(items, ResumeSummaryOf), ByStrKey(SummaryFilename))
  }

  /** The summaries of one cached project file, in the file's project order. */
  function FileProjects(item: (string, Entry<ProjectFileData>)): (r: seq<ProjectSummary>)
    ensures |r| == |item.1.data.projects|
  {
    var d := item.1.data;
    seq(|d.projects|, j requires 0 <= j < |d.projects| =>
      ProjectSummary(item.0, d.filename, d.projects[j].name, d.projects[j].techStack, d.projects[j].dateRange, d.projects[j].githubLink))
  }

  function SummaryName(p: ProjectSummary): string {
    p.name
  }

  /** `get_available_projects`: the projects of every cached file, flattened, sorted by name. */
  function ProjectListing(items: seq<(string, Entry<ProjectFileData>)>): seq<ProjectSummary> {
    Sort(Flatten(Map(items, FileProjects)), ByStrKey(SummaryName))
  }

  /** `sum(len(data['projects']) for data in cached_projects.values())`. */
  function TotalProjects(items: seq<(string, Entry<ProjectFileData>)>): nat {
    if |items| == 0 then 0 else |items[0].1.data.projects| + TotalProjects(items[1..])
  }

  /** The résumé listing is sorted by file name and is a reordering of one summary per entry. */
  lemma ResumeListingFacts(items: seq<(string, Entry<ResumeData>)>)
    ensures var r := ResumeListing(items);
      (forall i, j :: 0 <= i < j < |r| ==> StrLe(r[i].filename, r[j].filename)) &&
      multiset(r) == multiset(Map(items, ResumeSummaryOf))
  {
    SortByStrKey(Map(items, ResumeSummaryOf), SummaryFilename);
  }

  /** Each cached résumé appears in the listing under its key, and only cached résumés appear. */
  lemma ResumeListingKeys(items: seq<(string, Entry<ResumeData>)>, cache: map<string, Entry<ResumeData>>, k: string)
    requires ItemsOf(items, cache)
    ensures k in cache <==> exists i :: 0 <= i < |ResumeListing(items)| && ResumeListing(items)[i].key == k
  {
    var summaries := Map(items, ResumeSummaryOf);
    var r := ResumeListing(items);
    ResumeListingFacts(items);
    if k in cache {
      var i :| 0 <= i < |items| && items[i].0 == k;
      var j := PermutationIndex(r, summaries, i);
      assert r[j].key == k;
    }
    if exists i :: 0 <= i < |r| && r[i].key == k {
      var i :| 0 <= i < |r| && r[i].key == k;
      var j := PermutationIndex(summaries, r, i);
      assert items[j].0 == k;
    }
  }

  /** The flattened listing has one entry per project of every file. */
  lemma {:induction false} FlattenedCount(items: seq<(string, Entry<ProjectFileData>)>)
    ensures |Flatten(Map(items, FileProjects))| == TotalProjects(items)
  {
    if |items| > 0 {
      FlattenedCount(items[1..]);
      assert Map(items, FileProjects) == [FileProjects(items[0])] + Map(items[1..], FileProjects);
    }
  }

  /**
   * The project listing is sorted by name, is a reordering of the flattened
   * per-file listings, and has `total_projects` entries.
   */
  lemma ProjectListingFacts(items: seq<(string, Entry<ProjectFileData>)>)
    ensures var r := ProjectListing(items);
      (forall i, j :: 0 <= i < j < |r| ==> StrLe(r[i].name, r[j].name)) &&
      multiset(r) == multiset(Flatten(Map(items, FileProjects))) &&
      |r| == TotalProjects(items)
  {
    var flat := Flatten(Map(items, FileProjects));
    var r := ProjectListing(items);
    SortByStrKey(flat, SummaryName);
    FlattenedCount(items);
    assert |multiset(r)| == |multiset(flat)|;
  }

  // ---------------------------------------------------------------- selection

  /** `key.split('_', 1)`: the file key, and the project name (`""` when there is none). */
  function SplitKey(key: string): (r: (string, string))
    ensures '_' !in r.0
    ensures '_' in key ==> key == r.0 + "_" + r.1
    ensures '_' !in key ==> r == (key, "")
  {
    match IndexOfChar(key, '_')
    case Some(i) => (key[..i], key[i + 1..])
    case None => (key, "")
  }

  /** The inner loop: the first project, or the first one with this name when a name is given. */
  function FirstMatch(projects: seq<LatexParser.ParsedProject>, name: string): (r: Option<LatexParser.ParsedProject>)
    ensures r.Some? ==> r.value in projects && (name == "" || r.value.name == name)
    ensures r.None? <==> (name == "" && projects == []) || (name != "" && forall p :: p in projects ==> p.name != name)
  {
    if |projects| == 0 then None
    else if name == "" || projects[0].name == name then Some(projects[0])
    else FirstMatch(projects[1..], name)
  }

  /** The project one selection resolves to, if any. */
  function Resolve(cache: map<string, Entry<ProjectFileData>>, fileKey: string, name: string): Option<LatexParser.ParsedProject> {
    if fileKey in cache then FirstMatch(cache[fileKey].data.projects, name) else None
  }

  /** One key of `get_selected_projects`: split at its first '_', resolved in the cache. */
  function ResolveKey(cache: map<string, Entry<ProjectFileData>>, key: string): Option<LatexParser.ParsedProject> {
    Resolve(cache, SplitKey(key).0, SplitKey(key).1)
  }

  function AsSeq<T>(o: Option<T>): seq<T> {
    match o
    case Some(x) => [x]
    case None => []
  }

  /** `get_selected_projects`: the project each key resolves to, in key order, keys that resolve to nothing skipped. */
  function SelectedProjects(cache: map<string, Entry<ProjectFileData>>, keys: seq<string>): seq<LatexParser.ParsedProject> {
    if |keys| == 0 then []
    else SelectedProjects(cache, keys[..|keys| - 1]) + AsSeq(ResolveKey(cache, keys[|keys| - 1]))
  }

  /** At most one project per key, each a project of a cached file. */
  lemma {:induction false} SelectedFacts(cache: map<string, Entry<ProjectFileData>>, keys: seq<string>)
    ensures |SelectedProjects(cache, keys)| <= |keys|
    ensures forall p :: p in SelectedProjects(cache, keys) ==>
      exists k :: k in cache && p in cache[k].data.projects
  {
    if |keys| > 0 {
      SelectedFacts(cache, keys[..|keys| - 1]);
      var last := ResolveKey(cache, keys[|keys| - 1]);
      if last.Some? {
        var fileKey := SplitKey(keys[|keys| - 1]).0;
        assert fileKey in cache && last.value in cache[fileKey].data.projects;
      }
    }
  }

  /**
   * A key that names no project (no '_', or nothing after the first '_')
   * selects the first project of its file.
   */
  lemma NamelessKeySelectsFirst(cache: map<string, Entry<ProjectFileData>>, key: string)
    requires SplitKey(key).1 == ""
    requires SplitKey(key).0 in cache && cache[SplitKey(key).0].data.projects != []
    ensures SelectedProjects(cache, [key]) == [cache[SplitKey(key).0].data.projects[0]]
  {
    var keys: seq<string> := [key];
    assert keys[..0] == [];
  }

  /** The body of the loop over the keys: split, look up, take the first match (`break`). */
  method SelectOne(cache: map<string, Entry<ProjectFileData>>, key: string) returns (r: Option<LatexParser.ParsedProject>)
    ensures r == ResolveKey(cache, key)
  {
    var fileKey, projectName;
    var underscore := IndexOfChar(key, '_');
    if underscore.Some? {
      fileKey, projectName := key[..underscore.value], key[underscore.value + 1..];
    } else {
      fileKey, projectName := key, "";
    }
    r := None;
    if fileKey in cache {
      var projects := cache[fileKey].data.projects;
      var j := 0;
      while j < |projects|
        invariant j <= |projects|
        invariant FirstMatch(projects, projectName) == FirstMatch(projects[j..], projectName)
      {
        assert projects[j..][1..] == projects[j + 1..];
        if projectName == "" || projects[j].name == projectName {
          r := Some(projects[j]);
          return;
        }
        j := j + 1;
      }
    }
  }

  /** The key `app.py` builds for a project: the file key, '_', the project name. */
  function ComposeKey(fileKey: string, name: string): string {
    fileKey + "_" + name
  }

  /**
   * A file stem containing '_' cannot be selected: `ml_projects.tex` holding
   * a project `Chatbot` is listed under key `ml_projects_Chatbot`, which
   * splits into file key `ml` and selects nothing.
   */
  lemma UnderscoredFileKeyNotSelected()
    ensures var p := LatexParser.ParsedProject("Chatbot", [], "", None, ["Built a bot"], "");
      var cache := map["ml_projects" := Entry("h", ProjectFileData("ml_projects.tex", "", [p]))];
      SelectedProjects(cache, [ComposeKey("ml_projects", "Chatbot")]) == []
  {
    var p := LatexParser.ParsedProject("Chatbot", [], "", None, ["Built a bot"], "");
    var cache := map["ml_projects" := Entry("h", ProjectFileData("ml_projects.tex", "", [p]))];
    var key := ComposeKey("ml_projects", "Chatbot");
    assert key[..2] == "ml" && key[2] == '_' && '_' !in key[..2];
    assert SplitKey(key).0 == "ml";
    assert ResolveKey(cache, key) == None;
    var keys: seq<string> := [key];
    assert keys[..0] == [];
  }

  /** The selection with the file key and the project name kept apart. */
  function SelectedByPair(cache: map<string, Entry<ProjectFileData>>, picks: seq<(string, string)>): seq<LatexParser.ParsedProject> {
    if |picks| == 0 then []
    else SelectedByPair(cache, picks[..|picks| - 1]) + AsSeq(Resolve(cache, picks[|picks| - 1].0, picks[|picks| - 1].1))
  }

  /** Any listed project can be selected back: the pick yields the file's first project with that name. */
  lemma PairSelectionRoundTrip(cache: map<string, Entry<ProjectFileData>>, fileKey: string, j: nat)
    requires fileKey in cache && j < |cache[fileKey].data.projects|
    requires cache[fileKey].data.projects[j].name != ""
    ensures var name := cache[fileKey].data.projects[j].name;
      |SelectedByPair(cache, [(fileKey, name)])| == 1 &&
      SelectedByPair(cache, [(fileKey, name)])[0].name == name &&
      SelectedByPair(cache, [(fileKey, name)])[0] in cache[fileKey].data.projects
  {
    var projects := cache[fileKey].data.projects;
    var name := projects[j].name;
    assert projects[j] in projects;
    assert [(fileKey, name)][..0] == [];
    assert FirstMatch(projects, name).Some?;
  }

  // ---------------------------------------------------------------- the class

  /** The two caches `DataManager` keeps, as loaded at start-up. */
  class Manager {
    var cachedResumes: map<string, Entry<ResumeData>>
    var cachedProjects: map<string, Entry<ProjectFileData>>

    /** `__init__` with the caches `_load_cached_*` read (`{}` when absent or unreadable). */
    constructor(resumes: map<string, Entry<ResumeData>>, projects: map<string, Entry<ProjectFileData>>)
      ensures cachedResumes == resumes && cachedProjects == projects
    {
      cachedResumes := resumes;
      cachedProjects := projects;
    }

    /**
     * `scan_and_process_resumes`: nothing when the directory is missing;
     * otherwise the scan over the files found, saving the cache only when
     * something was processed.
     */
    method ScanAndProcessResumes(dirExists: bool, files: seq<ResumeFile>) returns (results: ScanResults, saved: bool)
      modifies this
      ensures cachedProjects == old(cachedProjects)
      ensures !dirExists ==> results == ScanResults(0, 0, 0, 0) && !saved && cachedResumes == old(cachedResumes)
      ensures dirExists ==>
        var st := Scan(old(cachedResumes), Map(files, ResumeCandidate));
        cachedResumes == st.cache && results == ScanResults(st.processed, st.cached, st.errors, |files|) &&
        (saved <==> st.processed > 0)
    {
      if !dirExists {
        return ScanResults(0, 0, 0, 0), false;
      }
      ghost var candidates := Map(files, ResumeCandidate);
      var processed, cached, errors := 0, 0, 0;
      for i := 0 to |files|
        invariant Scan(old(cachedResumes), candidates[..i]) == ScanState(cachedResumes, processed, cached, errors)
        invariant cachedProjects == old(cachedProjects)
      {
        assert candidates[..i + 1][..i] == candidates[..i];
        var f := files[i];
        if f.key in cachedResumes && cachedResumes[f.key].fileHash == f.fileHash {
          cached := cached + 1;
          continue;
        }
        match f.processed {
          case Some(p) =>
            cachedResumes := cachedResumes[f.key := Entry(f.fileHash, ResumeData(f.filename, p.fullText, p.sections))];
            processed := processed + 1;
          case None =>
            errors := errors + 1;
        }
      }
      assert candidates[..|files|] == candidates;
      results := ScanResults(processed, cached, errors, |files|);
      saved := processed > 0;
    }

    /**
     * `scan_and_process_projects`: as for résumés, except that a file that
     * parses to no project counts as an error.
     */
    method ScanAndProcessProjects(dirExists: bool, files: seq<ProjectFile>) returns (results: ScanResults, saved: bool)
      modifies this
      ensures cachedResumes == old(cachedResumes)
      ensures !dirExists ==> results == ScanResults(0, 0, 0, 0) && !saved && cachedProjects == old(cachedProjects)
      ensures dirExists ==>
        var st := Scan(old(cachedProjects), Map(files, ProjectCandidate));
        cachedProjects == st.cache && results == ScanResults(st.processed, st.cached, st.errors, |files|) &&
        (saved <==> st.processed > 0)
    {
      if !dirExists {
        return ScanResults(0, 0, 0, 0), false;
      }
      ghost var candidates := Map(files, ProjectCandidate);
      var processed, cached, errors := 0, 0, 0;
      for i := 0 to |files|
        invariant Scan(old(cachedProjects), candidates[..i]) == ScanState(cachedProjects, processed, cached, errors)
        invariant cachedResumes == old(cachedResumes)
      {
        assert candidates[..i + 1][..i] == candidates[..i];
        var f := files[i];
        if f.key in cachedProjects && cachedProjects[f.key].fileHash == f.fileHash {
          cached := cached + 1;
          continue;
        }
        match f.content {
          case Some(read) =>
            if |read.1| > 0 {
              cachedProjects := cachedProjects[f.key := Entry(f.fileHash, ProjectFileData(f.filename, read.0, read.1))];
              processed := processed + 1;
            } else {
              errors := errors + 1;
            }
          case None =>
            errors := errors + 1;
        }
      }
      assert candidates[..|files|] == candidates;
      results := ScanResults(processed, cached, errors, |files|);
      saved := processed > 0;
    }

    /** `get_available_resumes`, over the cache's entries in its iteration order. */
    method GetAvailableResumes() returns (resumes: seq<ResumeSummary>, ghost items: seq<(string, Entry<ResumeData>)>)
      ensures ItemsOf(items, cachedResumes)
      ensures resumes == ResumeListing(items)
    {
      var order := LatexParser.ListOfSet(cachedResumes.Keys);
      var entries := seq(|order|, i requires 0 <= i < |order| && order[i] in cachedResumes reads this =>
        (order[i], cachedResumes[order[i]]));
      ItemsOfEnumeration(order, cachedResumes, entries);
      var summaries := [];
      for i := 0 to |entries|
        invariant summaries == Map(entries[..i], ResumeSummaryOf)
      {
        assert entries[..i + 1] == entries[..i] + [entries[i]];
        MapAppend(entries[..i], [entries[i]], ResumeSummaryOf);
        summaries := summaries + [ResumeSummaryOf(entries[i])];
      }
      assert entries[..|entries|] == entries;
      resumes := Sort(summaries, ByStrKey(SummaryFilename));
      items := entries;
    }

    /** `get_available_projects`, over the cache's entries in its iteration order. */
    method GetAvailableProjects() returns (projects: seq<ProjectSummary>, ghost items: seq<(string, Entry<ProjectFileData>)>)
      ensures ItemsOf(items, cachedProjects)
      ensures projects == ProjectListing(items)
    {
      var order := LatexParser.ListOfSet(cachedProjects.Keys);
      var entries := seq(|order|, i requires 0 <= i < |order| && order[i] in cachedProjects reads this =>
        (order[i], cachedProjects[order[i]]));
      ItemsOfEnumeration(order, cachedProjects, entries);
      var flat := [];
      for i := 0 to |entries|
        invariant flat == Flatten(Map(entries[..i], FileProjects))
      {
        FlattenSnoc(entries, i);
        flat := flat + FileProjects(entries[i]);
      }
      assert entries[..|entries|] == entries;
      projects := Sort(flat, ByStrKey(SummaryName));
      items := entries;
    }

    /** `refresh_all_data`: both scans, then the number of cached résumés and of projects. */
    method RefreshAllData(resumesDirExists: bool, resumeFiles: seq<ResumeFile>,
                          projectsDirExists: bool, projectFiles: seq<ProjectFile>)
      returns (resumeResults: ScanResults, projectResults: ScanResults, totalResumes: nat, totalProjects: nat,
               ghost items: seq<(string, Entry<ProjectFileData>)>)
      modifies this
      ensures resumesDirExists ==> cachedResumes == Scan(old(cachedResumes), Map(resumeFiles, ResumeCandidate)).cache
      ensures !resumesDirExists ==> cachedResumes == old(cachedResumes)
      ensures projectsDirExists ==> cachedProjects == Scan(old(cachedProjects), Map(projectFiles, ProjectCandidate)).cache
      ensures !projectsDirExists ==> cachedProjects == old(cachedProjects)
      ensures resumeResults.processed + resumeResults.cached + resumeResults.errors == resumeResults.total
      ensures projectResults.processed + projectResults.cached + projectResults.errors == projectResults.total
      ensures totalResumes == |cachedResumes|
      ensures ItemsOf(items, cachedProjects) && totalProjects == TotalProjects(items)
    {
      var saved;
      resumeResults, saved := ScanAndProcessResumes(resumesDirExists, resumeFiles);
      ScanConserves(old(cachedResumes), Map(resumeFiles, ResumeCandidate));
      projectResults, saved := ScanAndProcessProjects(projectsDirExists, projectFiles);
      ScanConserves(old(cachedProjects), Map(projectFiles, ProjectCandidate));
      var resumesCached, projectFilesCached;
      resumesCached, projectFilesCached, totalProjects, items := GetSystemStats();
      totalResumes := resumesCached;
    }

    /** The loop over the keys of `get_selected_projects`. */
    method GetSelectedProjects(keys: seq<string>) returns (selected: seq<LatexParser.ParsedProject>)
      ensures selected == SelectedProjects(cachedProjects, keys)
    {
      selected := [];
      for i := 0 to |keys|
        invariant selected == SelectedProjects(cachedProjects, keys[..i])
      {
        var r := SelectOne(cachedProjects, keys[i]);
        assert keys[..i + 1][..i] == keys[..i];
        if r.Some? {
          selected := selected + [r.value];
        }
      }
      assert keys[..|keys|] == keys;
    }

    /**
     * The selection with each pick given as its file key and project name,
     * so that a file stem containing '_' resolves to its own file.
     */
    method GetSelectedProjectsByPair(picks: seq<(string, string)>) returns (selected: seq<LatexParser.ParsedProject>)
      ensures selected == SelectedByPair(cachedProjects, picks)
    {
      selected := [];
      for i := 0 to |picks|
        invariant selected == SelectedByPair(cachedProjects, picks[..i])
      {
        assert picks[..i + 1][..i] == picks[..i];
        var r := Resolve(cachedProjects, picks[i].0, picks[i].1);
        if r.Some? {
          selected := selected + [r.value];
        }
      }
      assert picks[..|picks|] == picks;
    }

    /** `get_system_stats` without the cache file sizes. */
    method GetSystemStats() returns (resumesCached: nat, projectFilesCached: nat, totalProjects: nat,
                                     ghost items: seq<(string, Entry<ProjectFileData>)>)
      ensures resumesCached == |cachedResumes| && projectFilesCached == |cachedProjects|
      ensures ItemsOf(items, cachedProjects) && totalProjects == TotalProjects(items)
    {
      var order := LatexParser.ListOfSet(cachedProjects.Keys);
      var entries := seq(|order|, i requires 0 <= i < |order| && order[i] in cachedProjects reads this =>
        (order[i], cachedProjects[order[i]]));
      ItemsOfEnumeration(order, cachedProjects, entries);
      totalProjects := 0;
      var i := |entries|;
      while i > 0
        invariant 0 <= i <= |entries|
        invariant totalProjects == TotalProjects(entries[i..])
      {
        i := i - 1;
        assert entries[i..][1..] == entries[i + 1..];
        totalProjects := |entries[i].1.data.projects| + totalProjects;
      }
      resumesCached := |cachedResumes|;
      projectFilesCached := |cachedProjects|;
      items := entries;
    }
  }

  /** Pairing an enumeration of the keys with their values lists the map's entries. */
  lemma ItemsOfEnumeration<V>(order: seq<string>, m: map<string, V>, entries: seq<(string, V)>)
    requires Enumerates(order, m.Keys)
    requires |entries| == |order| && forall i :: 0 <= i < |order| ==> order[i] in m && entries[i] == (order[i], m[order[i]])
    ensures ItemsOf(entries, m)
  {
    forall k | k in m
      ensures exists i :: 0 <= i < |entries| && entries[i].0 == k
    {
      var i :| 0 <= i < |order| && order[i] == k;
      assert entries[i].0 == k;
    }
  }

  lemma FlattenSnoc(entries: seq<(string, Entry<ProjectFileData>)>, i: nat)
    requires i < |entries|
    ensures Flatten(Map(entries[..i + 1], FileProjects)) == Flatten(Map(entries[..i], FileProjects)) + FileProjects(entries[i])
  {
    assert Map(entries[..i + 1], FileProjects) == Map(entries[..i], FileProjects) + [FileProjects(entries[i])];
    FlattenAppend(Map(entries[..i], FileProjects), [FileProjects(entries[i])]);
    assert Flatten([FileProjects(entries[i])]) == FileProjects(entries[i]) + Flatten([]);
  }
}
