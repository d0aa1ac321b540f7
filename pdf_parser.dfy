/**
 * `PDFParser._extract_projects_from_text` of the backend: a line-driven
 * parser for the project layout
 *
 *     Project Title | Tech1, Tech2
 *     • Bullet point 1
 *     • Bullet point 2
 *
 * A title line opens a project, bullet lines add to its description, and a
 * project is emitted when the next title line or the end of the text
 * arrives, provided its title is not empty.
 */
module PdfParser {
  import opened Wrappers
  import opened Text
  import opened Seqs

  datatype PdfProject = PdfProject(title: string, description: string, technologies: seq<string>)

  const Bullet: char := '•'

  /** What one line of the text is to the parser. */
  datatype LineKind =
    | Skipped
    | TitleLine(title: string, technologies: seq<string>)
    | BulletLine(text: string)
    | Ignored

  lemma SplitAtSeparator(s: string, sep: char)
    requires sep in s
    ensures |Split(s, sep)| >= 2
  {
    match IndexOfChar(s, sep)
    case None =>
      assert false;
    case Some(i) =>
  }

  predicate NonEmpty(s: string) {
    s != []
  }

  /** `[t.strip() for t in tech_string.split(',') if t.strip()]`. */
  function Technologies(techString: string): (r: seq<string>)
    ensures forall t :: t in r ==> t != [] && ',' !in t && !IsSpace(t[0]) && !IsSpace(t[|t| - 1])
  {
    Filter(Map(Split(techString, ','), Strip), NonEmpty)
  }

  /**
   * A stripped line that is blank or reads "projects" in any case is
   * skipped; one holding '|' and not opening with a bullet is a title line,
   * titled by the text before the first '|' and listing the technologies
   * between the first and second '|'; one opening with a bullet is a
   * bullet line; any other is ignored.
   */
  function Classify(raw: string): LineKind {
    var line := Strip(raw);
    if line == [] || Lower(line) == "projects" then Skipped
    else if '|' in line && line[0] != Bullet then
      SplitAtSeparator(line, '|');
      var parts := Split(line, '|');
      TitleLine(Strip(parts[0]), Technologies(Strip(parts[1])))
    else if line[0] == Bullet then BulletLine(Strip(line[1..]))
    else Ignored
  }

  /** The parser's state: the projects emitted so far and the open project (an empty title when none). */
  datatype Scan = Scan(projects: seq<PdfProject>, title: string, bullets: seq<string>, technologies: seq<string>)

  const Start := Scan([], "", [], [])

  /** The projects with the open one emitted, when it has a title. */
  function Flush(st: Scan): seq<PdfProject> {
    if st.title != "" then st.projects + [PdfProject(st.title, Join(st.bullets, "\n"), st.technologies)]
    else st.projects
  }

  function Step(st: Scan, kind: LineKind): Scan {
    match kind
    case Skipped => st
    case Ignored => st
    case TitleLine(t, techs) => Scan(Flush(st), t, [], techs)
    case BulletLine(b) => if st.title != "" then st.(bullets := st.bullets + [b]) else st
  }

  /** The state after a run of classified lines. */
  function ScanKinds(kinds: seq<LineKind>): Scan {
    if |kinds| == 0 then Start else Step(ScanKinds(kinds[..|kinds| - 1]), kinds[|kinds| - 1])
  }

  function Kinds(lines: seq<string>): seq<LineKind> {
    Map(lines, Classify)
  }

  /** The projects of a text: its lines classified and scanned, then the last project emitted. */
  function ExtractProjects(text: string): seq<PdfProject> {
    Flush(ScanKinds(Kinds(Split(text, '\n'))))
  }

  /** The loop of `_extract_projects_from_text`. */
  method ExtractProjectsFromText(text: string) returns (projects: seq<PdfProject>)
    ensures projects == ExtractProjects(text)
  {
    var lines := Split(text, '\n');
    projects := [];
    var currentProject := "";
    var currentDescription: seq<string> := [];
    var currentTechnologies: seq<string> := [];
    for i := 0 to |lines|
      invariant Scan(projects, currentProject, currentDescription, currentTechnologies) == ScanKinds(Kinds(lines[..i]))
    {
      KindsSnoc(lines, i);
      projects, currentProject, currentDescription, currentTechnologies :=
        ProcessLine(lines[i], projects, currentProject, currentDescription, currentTechnologies);
    }
    assert lines[..|lines|] == lines;
    if currentProject != "" {
      projects := projects + [PdfProject(currentProject, Join(currentDescription, "\n"), currentTechnologies)];
    }
  }

  /** One pass of the loop body: the state after one raw line. */
  method ProcessLine(raw: string, projects: seq<PdfProject>, currentProject: string,
                     currentDescription: seq<string>, currentTechnologies: seq<string>)
    returns (projects': seq<PdfProject>, currentProject': string,
             currentDescription': seq<string>, currentTechnologies': seq<string>)
    ensures Scan(projects', currentProject', currentDescription', currentTechnologies') ==
      Step(Scan(projects, currentProject, currentDescription, currentTechnologies), Classify(raw))
  {
    projects', currentProject', currentDescription', currentTechnologies' :=
      projects, currentProject, currentDescription, currentTechnologies;
    var line := Strip(raw);
    if line == [] || Lower(line) == "projects" {
      return;
    }
    if '|' in line && line[0] != Bullet {
      if currentProject != "" {
        projects' := projects + [PdfProject(currentProject, Join(currentDescription, "\n"), currentTechnologies)];
      }
      SplitAtSeparator(line, '|');
      var parts := Split(line, '|');
      currentProject' := Strip(parts[0]);
      currentTechnologies' := Technologies(Strip(parts[1]));
      currentDescription' := [];
    } else if line[0] == Bullet && currentProject != "" {
      currentDescription' := currentDescription + [Strip(line[1..])];
    }
  }

  lemma KindsSnoc(lines: seq<string>, i: nat)
    requires i < |lines|
    ensures Kinds(lines[..i + 1]) == Kinds(lines[..i]) + [Classify(lines[i])]
    ensures ScanKinds(Kinds(lines[..i + 1])) == Step(ScanKinds(Kinds(lines[..i])), Classify(lines[i]))
  {
    TakeSnoc(lines, i);
    MapAppend(lines[..i], [lines[i]], Classify);
    var ks := Kinds(lines[..i + 1]);
    assert ks[..|ks| - 1] == Kinds(lines[..i]);
  }

  // ----------------------------------------------------------------- properties

  /** A title line whose title part is not empty: the lines that yield a project. */
  predicate IsNamedTitle(k: LineKind) {
    k.TitleLine? && k.title != ""
  }

  function KindTitle(k: LineKind): string {
    if k.TitleLine? then k.title else ""
  }

  function ProjectTitle(p: PdfProject): string {
    p.title
  }

  /** The titles emitted so far, then the open one. */
  function Titles(st: Scan): seq<string> {
    Map(st.projects, ProjectTitle) + (if st.title != "" then [st.title] else [])
  }

  lemma FlushTitles(st: Scan)
    ensures Map(Flush(st), ProjectTitle) == Titles(st)
  {
    if st.title != "" {
      MapAppend(st.projects, [PdfProject(st.title, Join(st.bullets, "\n"), st.technologies)], ProjectTitle);
    }
  }

  lemma StepTitles(st: Scan, k: LineKind)
    ensures Titles(Step(st, k)) == Titles(st) + (if IsNamedTitle(k) then [k.title] else [])
  {
    if k.TitleLine? {
      FlushTitles(st);
    }
  }

  /** The titles seen so far are the named title lines' titles, in order. */
  lemma {:induction false} ScanTitles(kinds: seq<LineKind>)
    ensures Titles(ScanKinds(kinds)) == Map(Filter(kinds, IsNamedTitle), KindTitle)
  {
    if |kinds| > 0 {
      var init := kinds[..|kinds| - 1];
      var last := kinds[|kinds| - 1];
      var tail := if IsNamedTitle(last) then [last] else [];
      ScanTitles(init);
      StepTitles(ScanKinds(init), last);
      assert ScanKinds(kinds) == Step(ScanKinds(init), last);
      assert Filter(kinds, IsNamedTitle) == Filter(init, IsNamedTitle) + tail;
      MapAppend(Filter(init, IsNamedTitle), tail, KindTitle);
      assert Map(tail, KindTitle) == if IsNamedTitle(last) then [last.title] else [];
    }
  }

  /**
   * One project per title line with a non-empty title, in text order, with
   * that title; so a title line such as "|Python" yields no project, and
   * its bullets are dropped.
   */
  lemma ProjectTitles(text: string)
    ensures var titled := Filter(Kinds(Split(text, '\n')), IsNamedTitle);
      Map(ExtractProjects(text), ProjectTitle) == Map(titled, KindTitle) &&
      |ExtractProjects(text)| == |titled|
  {
    ScanTitles(Kinds(Split(text, '\n')));
    FlushTitles(ScanKinds(Kinds(Split(text, '\n'))));
  }

  predicate WellFormed(p: PdfProject) {
    p.title != "" && '|' !in p.title && !IsSpace(p.title[0]) && !IsSpace(p.title[|p.title| - 1]) &&
    forall t :: t in p.technologies ==> t != [] && ',' !in t
  }

  predicate WellFormedKind(k: LineKind) {
    k.TitleLine? ==>
      '|' !in k.title && (k.title == [] || (!IsSpace(k.title[0]) && !IsSpace(k.title[|k.title| - 1]))) &&
      forall t :: t in k.technologies ==> t != [] && ',' !in t
  }

  /** A title is stripped and free of '|'. */
  lemma ClassifyWellFormed(raw: string)
    ensures WellFormedKind(Classify(raw))
  {
    var line := Strip(raw);
    if Classify(raw).TitleLine? {
      SplitAtSeparator(line, '|');
      var parts := Split(line, '|');
      assert '|' !in parts[0];
      assert Classify(raw).title == Strip(parts[0]);
    }
  }

  predicate AllWellFormed(ps: seq<PdfProject>) {
    forall p :: p in ps ==> WellFormed(p)
  }

  lemma StepShapes(st: Scan, k: LineKind)
    requires AllWellFormed(Flush(st)) && WellFormedKind(k)
    ensures AllWellFormed(Flush(Step(st, k)))
  {
    match k
    case TitleLine(t, techs) =>
      if t != "" {
        assert Flush(Step(st, k)) == Flush(st) + [PdfProject(t, Join([], "\n"), techs)];
      }
    case BulletLine(b) =>
      if st.title != "" {
        var p := PdfProject(st.title, Join(st.bullets, "\n"), st.technologies);
        assert p in Flush(st);
      }
    case Skipped =>
    case Ignored =>
  }

  lemma {:induction false} ScanShapes(kinds: seq<LineKind>)
    requires forall k :: k in kinds ==> WellFormedKind(k)
    ensures AllWellFormed(Flush(ScanKinds(kinds)))
  {
    if |kinds| > 0 {
      var init := kinds[..|kinds| - 1];
      assert forall k :: k in init ==> k in kinds;
      ScanShapes(init);
      StepShapes(ScanKinds(init), kinds[|kinds| - 1]);
    }
  }

  /**
   * Every project has a non-empty title free of '|' and of edge whitespace,
   * and non-empty, comma-free technologies.
   */
  lemma ProjectShapes(text: string)
    ensures forall p :: p in ExtractProjects(text) ==> WellFormed(p)
  {
    var lines := Split(text, '\n');
    forall k | k in Kinds(lines)
      ensures WellFormedKind(k)
    {
      var i :| 0 <= i < |lines| && Kinds(lines)[i] == k;
      ClassifyWellFormed(lines[i]);
    }
    ScanShapes(Kinds(lines));
  }

  function BulletText(k: LineKind): string {
    if k.BulletLine? then k.text else ""
  }

  function BulletTexts(kinds: seq<LineKind>): seq<string> {
    Map(kinds, BulletText)
  }

  /**
   * Bullet lines after an open project add their texts to it in order, so
   * its description becomes those texts joined by newlines.
   */
  lemma {:induction false} BulletsExtendOpenProject(pre: seq<LineKind>, bullets: seq<LineKind>)
    requires ScanKinds(pre).title != ""
    requires forall k :: k in bullets ==> k.BulletLine?
    ensures ScanKinds(pre + bullets) == ScanKinds(pre).(bullets := ScanKinds(pre).bullets + BulletTexts(bullets))
  {
    if |bullets| == 0 {
      assert pre + bullets == pre;
      assert ScanKinds(pre).bullets + BulletTexts(bullets) == ScanKinds(pre).bullets;
    } else {
      var init := bullets[..|bullets| - 1];
      assert forall k :: k in init ==> k in bullets;
      BulletsExtendOpenProject(pre, init);
      BulletsSnoc(pre, init, bullets[|bullets| - 1]);
      assert bullets == init + [bullets[|bullets| - 1]];
    }
  }

  /** The inductive step: one more bullet line after bullets already added. */
  lemma BulletsSnoc(pre: seq<LineKind>, init: seq<LineKind>, last: LineKind)
    requires ScanKinds(pre).title != "" && last.BulletLine?
    requires ScanKinds(pre + init) == ScanKinds(pre).(bullets := ScanKinds(pre).bullets + BulletTexts(init))
    ensures ScanKinds(pre + (init + [last])) ==
      ScanKinds(pre).(bullets := ScanKinds(pre).bullets + BulletTexts(init + [last]))
  {
    BulletStep(pre + init, last);
    assert pre + (init + [last]) == (pre + init) + [last];
    MapAppend(init, [last], BulletText);
  }

  /** One bullet line after an open project adds its text. */
  lemma BulletStep(kinds: seq<LineKind>, k: LineKind)
    requires ScanKinds(kinds).title != "" && k.BulletLine?
    ensures ScanKinds(kinds + [k]) == ScanKinds(kinds).(bullets := ScanKinds(kinds).bullets + [k.text])
  {
    assert (kinds + [k])[..|kinds|] == kinds;
  }
}
