/**
 * The text handling of `DocumentProcessor` (`src/document_processor.py`):
 * splitting a résumé into its sections by header phrases, cutting a
 * portfolio into projects, and tagging embedding chunks with metadata.
 */
module DocumentProcessor {
  import opened Wrappers
  import opened Text
  import opened Seqs
  import opened Sorting

  // ------------------------------------------------------ parse_resume_sections

  /** `RESUME_SECTIONS`: each section key with its header phrases, in configuration order. */
  const ResumeSections: seq<(string, seq<string>)> := [
    ("experience", ["experience", "work experience", "professional experience", "employment", "work history"]),
    ("education", ["education", "academic background", "qualifications"]),
    ("skills", ["skills", "technical skills", "core competencies", "expertise"]),
    ("projects", ["projects", "key projects", "notable projects", "project experience"]),
    ("certifications", ["certifications", "certificates", "licenses"]),
    ("summary", ["summary", "profile", "objective", "about"])
  ]

  function KeyOf<V>(entry: (string, V)): string {
    entry.0
  }

  /** A section configuration is a dict: its keys are distinct. */
  predicate DistinctKeys<V>(entries: seq<(string, V)>) {
    forall i, j :: 0 <= i < j < |entries| ==> entries[i].0 != entries[j].0
  }

  /** `w` occurs at `i` delimited by `\b` on both sides. */
  predicate WholeWordAt(s: string, w: string, i: nat) {
    OccursAt(s, w, i) && WordBoundary(s, i) && WordBoundary(s, i + |w|)
  }

  /** `re.search(r'\b' + re.escape(w) + r'\b', s)` from `i`: the start of the first whole-word match. */
  function SearchWord(s: string, w: string, i: nat): (r: Option<nat>)
    ensures r.Some? ==> i <= r.value && WholeWordAt(s, w, r.value)
    ensures r.Some? ==> forall j :: i <= j < r.value ==> !WholeWordAt(s, w, j)
    ensures r.None? ==> forall j :: i <= j ==> !WholeWordAt(s, w, j)
    decreases |s| - i
  {
    if i + |w| > |s| then None
    else if WholeWordAt(s, w, i) then Some(i)
    else SearchWord(s, w, i + 1)
  }

  /** The position of the first header, in list order, that occurs as a whole word. */
  function HeaderPosition(textLower: string, headers: seq<string>): (r: Option<nat>)
    ensures r.Some? ==> r.value <= |textLower|
  {
    if |headers| == 0 then None
    else match SearchWord(textLower, headers[0], 0)
      case Some(p) => Some(p)
      case None => HeaderPosition(textLower, headers[1..])
  }

  /**
   * The position found is the first whole-word occurrence of some header,
   * and no header listed before it occurs as a whole word anywhere.
   */
  lemma {:induction false} HeaderPositionMeaning(textLower: string, headers: seq<string>)
    ensures HeaderPosition(textLower, headers).None? <==>
      forall k :: 0 <= k < |headers| ==> SearchWord(textLower, headers[k], 0).None?
    ensures HeaderPosition(textLower, headers).Some? ==>
      exists k :: 0 <= k < |headers| &&
        SearchWord(textLower, headers[k], 0) == HeaderPosition(textLower, headers) &&
        forall m :: 0 <= m < k ==> SearchWord(textLower, headers[m], 0).None?
  {
    if |headers| > 0 {
      var rest := headers[1..];
      HeaderPositionMeaning(textLower, rest);
      assert forall k :: 0 <= k < |rest| ==> rest[k] == headers[k + 1];
      if SearchWord(textLower, headers[0], 0).None? && HeaderPosition(textLower, rest).Some? {
        var k :| 0 <= k < |rest| && SearchWord(textLower, rest[k], 0) == HeaderPosition(textLower, rest) &&
          forall m :: 0 <= m < k ==> SearchWord(textLower, rest[m], 0).None?;
        assert SearchWord(textLower, headers[k + 1], 0) == HeaderPosition(textLower, headers);
      }
    }
  }

  /** The header search over the lower-cased text. */
  function HeadersIn(textLower: string): seq<string> -> Option<nat> {
    headers => HeaderPosition(textLower, headers)
  }

  /** `section_positions`: the keys with a header found by `find`, in configuration order, with their positions. */
  function Positions(config: seq<(string, seq<string>)>, find: seq<string> -> Option<nat>): (r: seq<(string, nat)>)
    ensures forall e :: e in r ==> exists k :: 0 <= k < |config| && config[k].0 == e.0
  {
    if |config| == 0 then []
    else
      var init := Positions(config[..|config| - 1], find);
      var last := config[|config| - 1];
      match find(last.1)
      case Some(p) => init + [(last.0, p)]
      case None => init
  }

  function PositionOf(e: (string, nat)): int {
    e.1
  }

  /** `sorted(section_positions.items(), key=lambda x: x[1])`: a stable sort by position. */
  function ByPosition(positions: seq<(string, nat)>): seq<(string, nat)> {
    Sort(positions, ByIntKey(PositionOf))
  }

  /** `s[a:b]` for non-negative bounds. */
  function Slice(s: string, a: nat, b: nat): (r: string)
    ensures |r| <= |s|
  {
    var a' := if a < |s| then a else |s|;
    var b' := if b < |s| then b else |s|;
    if a' >= b' then "" else s[a'..b']
  }

  /** A section's text: the slice stripped, its first (header) line dropped when it has more, stripped again. */
  function SectionBody(text: string, start: nat, end: nat): (r: string)
    ensures r == [] || (!IsSpace(r[0]) && !IsSpace(r[|r| - 1]))
  {
    Strip(DropHeaderLine(Strip(Slice(text, start, end))))
  }

  /** `'\n'.join(lines[1:] if len(lines) > 1 else lines)` over the lines of `content`. */
  function DropHeaderLine(content: string): string {
    var lines := Split(content, '\n');
    Join(if |lines| > 1 then lines[1..] else lines, "\n")
  }

  /** A single line is kept; otherwise everything after the first newline remains. */
  lemma DropHeaderLineMeaning(content: string)
    ensures '\n' !in content ==> DropHeaderLine(content) == content
    ensures '\n' in content ==> DropHeaderLine(content) == content[IndexOfChar(content, '\n').value + 1..]
  {
    if '\n' in content {
      var nl := IndexOfChar(content, '\n').value;
      var rest := content[nl + 1..];
      assert Split(content, '\n') == [content[..nl]] + Split(rest, '\n');
      assert Split(content, '\n')[1..] == Split(rest, '\n');
      JoinSplit(rest, '\n');
    }
  }

  /** Where section `i` of the sorted list ends: the next section's start, or the end of the text. */
  function SectionEnd(sorted: seq<(string, nat)>, i: nat, textLength: nat): nat {
    if i + 1 < |sorted| then sorted[i + 1].1 else textLength
  }

  /** `dict` built by assigning `f` of each pair's payload in order: a later pair overrides an earlier one with its key. */
  function MapOfPairs<A, V>(pairs: seq<(string, A)>, f: A -> V): (m: map<string, V>)
    ensures forall k :: k in m <==> exists i :: 0 <= i < |pairs| && pairs[i].0 == k
  {
    if |pairs| == 0 then map[]
    else
      var init := pairs[..|pairs| - 1];
      var last := pairs[|pairs| - 1];
      assert forall i :: 0 <= i < |init| ==> init[i] == pairs[i];
      MapOfPairs(init, f)[last.0 := f(last.1)]
  }

  /** With distinct keys, each key maps to `f` of its own pair's payload. */
  lemma {:induction false} MapOfPairsValue<A, V>(pairs: seq<(string, A)>, f: A -> V, i: nat)
    requires DistinctKeys(pairs) && i < |pairs|
    ensures MapOfPairs(pairs, f)[pairs[i].0] == f(pairs[i].1)
  {
    if i < |pairs| - 1 {
      var init := pairs[..|pairs| - 1];
      assert forall j :: 0 <= j < |init| ==> init[j] == pairs[j];
      MapOfPairsValue(init, f, i);
    }
  }

  /** Each sorted section's key with the span of text it covers, in document order. */
  function SectionSpans(sorted: seq<(string, nat)>, textLength: nat): (r: seq<(string, (nat, nat))>)
    ensures |r| == |sorted|
    ensures forall i :: 0 <= i < |r| ==> r[i] == (sorted[i].0, (sorted[i].1, SectionEnd(sorted, i, textLength)))
  {
    seq(|sorted|, i requires 0 <= i < |sorted| => (sorted[i].0, (sorted[i].1, SectionEnd(sorted, i, textLength))))
  }

  function BodyOf(text: string): ((nat, nat)) -> string {
    (span: (nat, nat)) => SectionBody(text, span.0, span.1)
  }

  /** The sections cut at the positions found, or the whole text as `summary` when none was. */
  function SectionsFrom(text: string, positions: seq<(string, nat)>): map<string, string> {
    var m := MapOfPairs(SectionSpans(ByPosition(positions), |text|), BodyOf(text));
    if m == map[] then map["summary" := text] else m
  }

  /** `parse_resume_sections`. */
  function ResumeSectionsOf(config: seq<(string, seq<string>)>, text: string): map<string, string> {
    SectionsFrom(text, Positions(config, HeadersIn(Lower(text))))
  }

  /** The nested loops of `parse_resume_sections`, then the loop over the sorted sections. */
  method ParseResumeSections(config: seq<(string, seq<string>)>, text: string) returns (sections: map<string, string>)
    ensures sections == ResumeSectionsOf(config, text)
  {
    var positions := CollectPositions(config, Lower(text));
    var sorted := Sort(positions, ByIntKey(PositionOf));
    sections := AssignSections(text, sorted);
    if sections == map[] {
      sections := map["summary" := text];
    }
  }

  /** The outer loop over the configured sections, recording where a header was found. */
  method CollectPositions(config: seq<(string, seq<string>)>, textLower: string) returns (positions: seq<(string, nat)>)
    ensures positions == Positions(config, HeadersIn(textLower))
  {
    positions := [];
    for c := 0 to |config|
      invariant positions == Positions(config[..c], HeadersIn(textLower))
    {
      var pos := FirstHeader(textLower, config[c].1);
      assert config[..c + 1][..c] == config[..c];
      if pos.Some? {
        positions := positions + [(config[c].0, pos.value)];
      }
    }
    assert config[..|config|] == config;
  }

  /** The loop that slices each sorted section out of the text. */
  method AssignSections(text: string, sorted: seq<(string, nat)>) returns (sections: map<string, string>)
    ensures sections == MapOfPairs(SectionSpans(sorted, |text|), BodyOf(text))
  {
    ghost var spans := SectionSpans(sorted, |text|);
    sections := map[];
    for i := 0 to |sorted|
      invariant sections == MapOfPairs(spans[..i], BodyOf(text))
    {
      var end := if i + 1 < |sorted| then sorted[i + 1].1 else |text|;
      assert spans[..i + 1][..i] == spans[..i];
      assert BodyOf(text)(spans[i].1) == SectionBody(text, sorted[i].1, end);
      sections := sections[sorted[i].0 := SectionBody(text, sorted[i].1, end)];
    }
    assert spans[..|sorted|] == spans;
  }

  /** The inner loop: the first header that matches, then `break`. */
  method FirstHeader(textLower: string, headers: seq<string>) returns (pos: Option<nat>)
    ensures pos == HeaderPosition(textLower, headers)
  {
    pos := None;
    var j := 0;
    while j < |headers|
      invariant j <= |headers|
      invariant HeaderPosition(textLower, headers) == HeaderPosition(textLower, headers[j..])
    {
      assert headers[j..][1..] == headers[j + 1..];
      var m := SearchWord(textLower, headers[j], 0);
      if m.Some? {
        pos := m;
        return;
      }
      j := j + 1;
    }
  }

  lemma {:induction false} PositionsDistinct(config: seq<(string, seq<string>)>, find: seq<string> -> Option<nat>)
    requires DistinctKeys(config)
    ensures DistinctKeys(Positions(config, find))
  {
    if |config| > 0 {
      var init := config[..|config| - 1];
      assert forall i, j :: 0 <= i < j < |init| ==> init[i] == config[i] && init[j] == config[j];
      PositionsDistinct(init, find);
      var last := config[|config| - 1];
      forall e | e in Positions(init, find)
        ensures e.0 != last.0
      {
        var k :| 0 <= k < |init| && init[k].0 == e.0;
        assert init[k] == config[k];
      }
    }
  }

  /** Some entry carries `key`. */
  predicate HasKey<V>(entries: seq<(string, V)>, key: string) {
    exists i :: 0 <= i < |entries| && entries[i].0 == key
  }

  /** A configured section with key `key` has a header that `find` finds. */
  predicate HeaderFound(config: seq<(string, seq<string>)>, find: seq<string> -> Option<nat>, key: string) {
    exists k :: 0 <= k < |config| && config[k].0 == key && find(config[k].1).Some?
  }

  /** Keys whose header was found are exactly the keys of `Positions`. */
  lemma {:induction false} PositionsKeys(config: seq<(string, seq<string>)>, find: seq<string> -> Option<nat>, key: string)
    ensures HasKey(Positions(config, find), key) <==> HeaderFound(config, find, key)
  {
    if |config| > 0 {
      var init := config[..|config| - 1];
      var last := config[|config| - 1];
      PositionsKeys(init, find, key);
      HeaderFoundSnoc(config, find, key);
      match find(last.1)
      case Some(p) =>
        HasKeySnoc(Positions(init, find), (last.0, p), key);
      case None =>
    }
  }

  lemma HasKeySnoc<V>(entries: seq<(string, V)>, e: (string, V), key: string)
    ensures HasKey(entries + [e], key) <==> HasKey(entries, key) || e.0 == key
  {
    var all := entries + [e];
    if HasKey(entries, key) {
      var i :| 0 <= i < |entries| && entries[i].0 == key;
      assert all[i].0 == key;
    }
    if HasKey(all, key) && e.0 != key {
      var i :| 0 <= i < |all| && all[i].0 == key;
      assert i < |entries| && entries[i].0 == key;
    }
    if e.0 == key {
      assert all[|entries|].0 == key;
    }
  }

  lemma HeaderFoundSnoc(config: seq<(string, seq<string>)>, find: seq<string> -> Option<nat>, key: string)
    requires |config| > 0
    ensures var last := config[|config| - 1];
      HeaderFound(config, find, key) <==>
      HeaderFound(config[..|config| - 1], find, key) || (last.0 == key && find(last.1).Some?)
  {
    var init := config[..|config| - 1];
    assert forall i :: 0 <= i < |init| ==> init[i] == config[i];
  }

  /** Sorted positions keep the entries and their distinct keys, and are in document order. */
  lemma SortedPositionsFacts(positions: seq<(string, nat)>)
    requires DistinctKeys(positions)
    ensures var sorted := ByPosition(positions);
      multiset(sorted) == multiset(positions) &&
      |sorted| == |positions| &&
      DistinctKeys(sorted) &&
      forall i, j :: 0 <= i < j < |sorted| ==> sorted[i].1 <= sorted[j].1
  {
    var sorted := ByPosition(positions);
    ByIntKeyTotal(PositionOf);
    SortPermutes(positions, ByIntKey(PositionOf));
    SortSorted(positions, ByIntKey(PositionOf));
    assert |multiset(sorted)| == |multiset(positions)|;
    assert NoDup(positions);
    PermutationNoDup(positions, sorted);
    forall i, j | 0 <= i < j < |sorted|
      ensures sorted[i].0 != sorted[j].0
    {
      var a := PermutationIndex(positions, sorted, i);
      var b := PermutationIndex(positions, sorted, j);
      assert a != b;
    }
    assert Sorted(sorted, ByIntKey(PositionOf));
    forall i, j | 0 <= i < j < |sorted|
      ensures sorted[i].1 <= sorted[j].1
    {
      assert ByIntKey(PositionOf)(sorted[i], sorted[j]);
      assert PositionOf(sorted[i]) <= PositionOf(sorted[j]);
    }
  }

  /** Reordering entries keeps the set of keys they hold. */
  lemma PermutedKeys<V>(a: seq<(string, V)>, b: seq<(string, V)>, key: string)
    requires multiset(a) == multiset(b)
    ensures HasKey(a, key) <==> exists i :: 0 <= i < |b| && b[i].0 == key
  {
    if HasKey(a, key) {
      var j :| 0 <= j < |a| && a[j].0 == key;
      assert a[j] in multiset(b);
      var i :| 0 <= i < |b| && b[i] == a[j];
    }
    if exists i :: 0 <= i < |b| && b[i].0 == key {
      var i :| 0 <= i < |b| && b[i].0 == key;
      assert b[i] in multiset(a);
      var j :| 0 <= j < |a| && a[j] == b[i];
    }
  }

  /** The spans carry the keys of the sorted entries. */
  lemma SpansKeys(sorted: seq<(string, nat)>, textLength: nat, key: string)
    ensures HasKey(SectionSpans(sorted, textLength), key) <==> HasKey(sorted, key)
  {
    var spans := SectionSpans(sorted, textLength);
    if HasKey(spans, key) {
      var i :| 0 <= i < |spans| && spans[i].0 == key;
      assert sorted[i].0 == key;
    }
    if HasKey(sorted, key) {
      var i :| 0 <= i < |sorted| && sorted[i].0 == key;
      assert spans[i].0 == key;
    }
  }

  /** The sections' keys are exactly the keys found, or only `summary` when none was. */
  lemma SectionsFromKeys(text: string, positions: seq<(string, nat)>)
    ensures positions == [] ==> SectionsFrom(text, positions) == map["summary" := text]
    ensures positions != [] ==>
      forall key :: key in SectionsFrom(text, positions) <==> HasKey(positions, key)
  {
    var sorted := ByPosition(positions);
    SortPermutes(positions, ByIntKey(PositionOf));
    assert |multiset(sorted)| == |multiset(positions)|;
    var spans := SectionSpans(sorted, |text|);
    var m := MapOfPairs(spans, BodyOf(text));
    if positions != [] {
      assert spans[0].0 in m;
      forall key
        ensures key in m <==> HasKey(positions, key)
      {
        PermutedKeys(positions, sorted, key);
        SpansKeys(sorted, |text|, key);
      }
    }
  }

  /**
   * Without any header found the result is exactly `{'summary': text}`;
   * otherwise its keys are exactly the configured keys whose header was found.
   */
  lemma ResumeSectionsKeys(config: seq<(string, seq<string>)>, text: string)
    requires DistinctKeys(config)
    ensures Positions(config, HeadersIn(Lower(text))) == [] ==> ResumeSectionsOf(config, text) == map["summary" := text]
    ensures Positions(config, HeadersIn(Lower(text))) != [] ==>
      forall key :: key in ResumeSectionsOf(config, text) <==> HeaderFound(config, HeadersIn(Lower(text)), key)
  {
    var lower := Lower(text);
    var positions := Positions(config, HeadersIn(lower));
    SectionsFromKeys(text, positions);
    forall key
      ensures HasKey(positions, key) <==> HeaderFound(config, HeadersIn(lower), key)
    {
      PositionsKeys(config, HeadersIn(lower), key);
    }
  }

  /** With distinct keys, each section holds its own span of the text. */
  lemma SectionsFromValue(text: string, positions: seq<(string, nat)>, i: nat)
    requires DistinctKeys(positions) && i < |ByPosition(positions)|
    ensures var sorted := ByPosition(positions);
      SectionsFrom(text, positions)[sorted[i].0] == SectionBody(text, sorted[i].1, SectionEnd(sorted, i, |text|))
  {
    var sorted := ByPosition(positions);
    SortedPositionsFacts(positions);
    var spans := SectionSpans(sorted, |text|);
    assert DistinctKeys(spans);
    MapOfPairsValue(spans, BodyOf(text), i);
    assert spans[0].0 in MapOfPairs(spans, BodyOf(text));
  }

  /**
   * Each section found holds the text from its header's position up to the
   * next section's start in document order, or up to the end of the text.
   */
  lemma ResumeSectionValue(config: seq<(string, seq<string>)>, text: string, i: nat)
    requires DistinctKeys(config) && i < |ByPosition(Positions(config, HeadersIn(Lower(text))))|
    ensures var sorted := ByPosition(Positions(config, HeadersIn(Lower(text))));
      ResumeSectionsOf(config, text)[sorted[i].0] == SectionBody(text, sorted[i].1, SectionEnd(sorted, i, |text|))
  {
    PositionsDistinct(config, HeadersIn(Lower(text)));
    SectionsFromValue(text, Positions(config, HeadersIn(Lower(text))), i);
  }

  // ------------------------------------------------- extract_projects_from_portfolio

  /** `re.split(r'\n(?=...)', s)` with the lookahead `at`: split at every newline the rest after which satisfies `at`. */
  function SplitBefore(s: string, at: string -> bool): seq<string> {
    SplitBeforeFrom(s, at, 0, 0)
  }

  function SplitBeforeFrom(s: string, at: string -> bool, start: nat, i: nat): (r: seq<string>)
    requires start <= i <= |s|
    ensures |r| >= 1
    decreases |s| - i
  {
    if i == |s| then [s[start..]]
    else if s[i] == '\n' && at(s[i + 1..]) then [s[start..i]] + SplitBeforeFrom(s, at, i + 1, i + 1)
    else SplitBeforeFrom(s, at, start, i + 1)
  }

  /** The pieces put back together with the newlines the split consumed give the text back. */
  lemma {:induction false} SplitBeforeJoin(s: string, at: string -> bool, start: nat, i: nat)
    requires start <= i <= |s|
    ensures Join(SplitBeforeFrom(s, at, start, i), "\n") == s[start..]
    decreases |s| - i
  {
    if i == |s| {
    } else if s[i] == '\n' && at(s[i + 1..]) {
      SplitBeforeJoin(s, at, i + 1, i + 1);
      var rest := SplitBeforeFrom(s, at, i + 1, i + 1);
      assert ([s[start..i]] + rest)[1..] == rest;
      assert s[start..] == s[start..i] + "\n" + s[i + 1..];
    } else {
      SplitBeforeJoin(s, at, start, i + 1);
    }
  }

  /** The length of the run of digits that starts `s`. */
  function DigitRunLength(s: string): (n: nat)
    ensures n <= |s|
    ensures forall j :: 0 <= j < n ==> IsDigit(s[j])
    ensures n < |s| ==> !IsDigit(s[n])
  {
    if |s| == 0 || !IsDigit(s[0]) then 0 else 1 + DigitRunLength(s[1..])
  }

  /** `\d+\.\s`: a numbered item. */
  predicate NumberedStart(r: string) {
    var n := DigitRunLength(r);
    n > 0 && n + 1 < |r| && r[n] == '.' && IsSpace(r[n + 1])
  }

  /** The words a project title line mentions. */
  const TitleWords: seq<string> := ["Project", "System", "Tool", "Platform", "Application"]

  predicate StartsWithTitleWord(r: string) {
    exists k :: 0 <= k < |TitleWords| && StartsWith(r, TitleWords[k])
  }

  /** `[A-Z][^.]*(?:Project|System|Tool|Platform|Application)`: a capital, then a title word before any '.'. */
  predicate TitleStart(r: string) {
    |r| > 0 && IsUpper(r[0]) && TitleWordFrom(r, 1)
  }

  function TitleWordFrom(r: string, q: nat): bool
    decreases |r| - q
  {
    q < |r| && (StartsWithTitleWord(r[q..]) || (r[q] != '.' && TitleWordFrom(r, q + 1)))
  }

  predicate IsDash(c: char) {
    c == '-' || c == '–' || c == '—'
  }

  /** `\w+\s*[-–—]`: a word, optional whitespace, a dash. */
  predicate DashStart(r: string) {
    var n := WordRunLength(r);
    var m := SkipSpaces(r, n);
    n > 0 && m < |r| && IsDash(r[m])
  }

  /** The portfolio split: the first pattern that cuts the text, else blank lines. */
  function PortfolioSections(text: string): (r: seq<string>)
    ensures |r| >= 1
  {
    var numbered := SplitBefore(text, NumberedStart);
    var titled := SplitBefore(text, TitleStart);
    var dashed := SplitBefore(text, DashStart);
    if |numbered| > 1 then numbered
    else if |titled| > 1 then titled
    else if |dashed| > 1 then dashed
    else SplitStr(text, "\n\n")
  }

  /** A pattern split loses only the newlines it cut at: the pieces joined by newlines give the text back. */
  lemma PortfolioSectionsJoin(text: string)
    requires |SplitBefore(text, NumberedStart)| > 1 || |SplitBefore(text, TitleStart)| > 1 ||
      |SplitBefore(text, DashStart)| > 1
    ensures Join(PortfolioSections(text), "\n") == text
  {
    SplitBeforeJoin(text, NumberedStart, 0, 0);
    SplitBeforeJoin(text, TitleStart, 0, 0);
    SplitBeforeJoin(text, DashStart, 0, 0);
  }

  datatype PortfolioProject = PortfolioProject(name: string, description: string, index: nat)

  /** `re.split(r'[-–—:]', s)[0]`: the text before the first dash or colon. */
  function BeforeDelimiter(s: string): (r: string)
    ensures |r| <= |s| && r == s[..|r|]
    ensures forall k :: 0 <= k < |r| ==> !IsDash(r[k]) && r[k] != ':'
  {
    if |s| == 0 || IsDash(s[0]) || s[0] == ':' then "" else [s[0]] + BeforeDelimiter(s[1..])
  }

  /** `re.sub(r'^\d+\.\s*', '', s)`. */
  function DropNumbering(s: string): (r: string)
    ensures |r| <= |s|
  {
    var n := DigitRunLength(s);
    if n > 0 && n < |s| && s[n] == '.' then s[SkipSpaces(s, n + 1)..] else s
  }

  /** The project name of section `i`: its first line up to a dash or colon, numbering removed, or "Project i+1". */
  function ProjectName(section: string, i: nat): (r: string)
    ensures r != ""
  {
    var firstLine := Strip(Split(section, '\n')[0]);
    var name := DropNumbering(Strip(BeforeDelimiter(firstLine)));
    if name == "" then "Project " + DecimalString(i + 1) else name
  }

  /** The positions among the first `n` stripped sections of those longer than 100 characters. */
  function Selected(stripped: seq<string>, n: nat): (r: seq<nat>)
    requires n <= |stripped|
    ensures forall k :: 0 <= k < |r| ==> r[k] < n
  {
    if n == 0 then []
    else
      var prev := Selected(stripped, n - 1);
      if |stripped[n - 1]| > 100 then prev + [n - 1] else prev
  }

  /** The projects of the stripped sections at the positions `idx`, named by `name`. */
  function ProjectsAt(stripped: seq<string>, idx: seq<nat>, name: (string, nat) -> string): (r: seq<PortfolioProject>)
    requires forall k :: 0 <= k < |idx| ==> idx[k] < |stripped|
    ensures |r| == |idx|
    ensures forall k :: 0 <= k < |idx| ==> r[k] == PortfolioProject(name(stripped[idx[k]], idx[k]), stripped[idx[k]], idx[k])
  {
    seq(|idx|, k requires 0 <= k < |idx| => PortfolioProject(name(stripped[idx[k]], idx[k]), stripped[idx[k]], idx[k]))
  }

  /** The projects of the stripped sections: those longer than 100 characters. */
  function PortfolioProjects(stripped: seq<string>): seq<PortfolioProject> {
    ProjectsAt(stripped, Selected(stripped, |stripped|), ProjectName)
  }

  /** `extract_projects_from_portfolio`. */
  method ExtractProjectsFromPortfolio(text: string) returns (projects: seq<PortfolioProject>)
    ensures projects == PortfolioProjects(Map(PortfolioSections(text), Strip))
  {
    var sections := PortfolioSections(text);
    projects := CollectProjects(sections, Strip, ProjectName);
  }

  /**
   * The loop over the split sections: each one longer than 100 characters
   * once cleaned by `clean` (`str.strip`) becomes a project, named by
   * `name` (`ProjectName`).
   */
  method CollectProjects(sections: seq<string>, clean: string -> string, name: (string, nat) -> string)
    returns (projects: seq<PortfolioProject>)
    ensures projects == ProjectsAt(Map(sections, clean), Selected(Map(sections, clean), |sections|), name)
  {
    ghost var cleaned := Map(sections, clean);
    projects := [];
    for i := 0 to |sections|
      invariant projects == Collected(cleaned, i, name)
    {
      var section := clean(sections[i]);
      if |section| > 100 {
        var project := PortfolioProject(name(section, i), section, i);
        projects := projects + [project];
      }
    }
    CollectedProjects(cleaned, |sections|, name);
  }

  /** The projects among the first `n` stripped sections, one at a time. */
  function Collected(stripped: seq<string>, n: nat, name: (string, nat) -> string): seq<PortfolioProject>
    requires n <= |stripped|
  {
    if n == 0 then []
    else
      var s := stripped[n - 1];
      Collected(stripped, n - 1, name) + if |s| > 100 then [PortfolioProject(name(s, n - 1), s, n - 1)] else []
  }

  lemma {:induction false} CollectedProjects(stripped: seq<string>, n: nat, name: (string, nat) -> string)
    requires n <= |stripped|
    ensures Collected(stripped, n, name) == ProjectsAt(stripped, Selected(stripped, n), name)
  {
    if n > 0 {
      CollectedProjects(stripped, n - 1, name);
      if |stripped[n - 1]| > 100 {
        ProjectsAtSnoc(stripped, Selected(stripped, n - 1), n - 1, name);
      }
    }
  }

  lemma ProjectsAtSnoc(stripped: seq<string>, idx: seq<nat>, i: nat, name: (string, nat) -> string)
    requires forall k :: 0 <= k < |idx| ==> idx[k] < |stripped|
    requires i < |stripped|
    ensures ProjectsAt(stripped, idx + [i], name) ==
      ProjectsAt(stripped, idx, name) + [PortfolioProject(name(stripped[i], i), stripped[i], i)]
  {
  }

  /** The kept positions are the sections longer than 100 characters, in increasing order. */
  lemma {:induction false} SelectedFacts(stripped: seq<string>, n: nat)
    requires n <= |stripped|
    ensures var r := Selected(stripped, n);
      (forall k :: 0 <= k < |r| ==> |stripped[r[k]]| > 100) &&
      (forall k, l :: 0 <= k < l < |r| ==> r[k] < r[l]) &&
      (forall i :: 0 <= i < n && |stripped[i]| > 100 ==> i in r)
  {
    if n > 0 {
      SelectedFacts(stripped, n - 1);
    }
  }

  /**
   * Each project is a section longer than 100 characters once stripped,
   * carrying its position; positions strictly increase; and every section
   * longer than 100 characters yields a project.
   */
  lemma ProjectsAtFacts(stripped: seq<string>, name: (string, nat) -> string)
    ensures var ps := ProjectsAt(stripped, Selected(stripped, |stripped|), name);
      forall k :: 0 <= k < |ps| ==>
        ps[k].index < |stripped| && ps[k].description == stripped[ps[k].index] && |ps[k].description| > 100
    ensures var ps := ProjectsAt(stripped, Selected(stripped, |stripped|), name);
      forall k, l :: 0 <= k < l < |ps| ==> ps[k].index < ps[l].index
    ensures var ps := ProjectsAt(stripped, Selected(stripped, |stripped|), name);
      forall i :: 0 <= i < |stripped| && |stripped[i]| > 100 ==> exists k :: 0 <= k < |ps| && ps[k].index == i
  {
    var idx := Selected(stripped, |stripped|);
    var ps := ProjectsAt(stripped, idx, name);
    SelectedFacts(stripped, |stripped|);
    forall i | 0 <= i < |stripped| && |stripped[i]| > 100
      ensures exists k :: 0 <= k < |ps| && ps[k].index == i
    {
      var k :| 0 <= k < |idx| && idx[k] == i;
      assert ps[k].index == i;
    }
  }

  /** `ProjectsAtFacts` for the projects the portfolio yields. */
  lemma PortfolioFacts(stripped: seq<string>)
    ensures var ps := PortfolioProjects(stripped);
      forall k :: 0 <= k < |ps| ==>
        ps[k].index < |stripped| && ps[k].description == stripped[ps[k].index] && |ps[k].description| > 100
    ensures var ps := PortfolioProjects(stripped);
      forall k, l :: 0 <= k < l < |ps| ==> ps[k].index < ps[l].index
    ensures forall i :: 0 <= i < |stripped| && |stripped[i]| > 100 ==>
      exists k :: 0 <= k < |PortfolioProjects(stripped)| && PortfolioProjects(stripped)[k].index == i
  {
    ProjectsAtFacts(stripped, ProjectName);
  }

  /** Every project has a name: its own, or the numbered fallback. */
  lemma PortfolioNamed(stripped: seq<string>)
    ensures forall p :: p in PortfolioProjects(stripped) ==> p.name != ""
  {
  }

  // ------------------------------------------------------ chunk_text_for_embedding

  datatype MetaValue = IntMeta(n: int) | TextMeta(s: string) | OtherMeta

  datatype Chunk = Chunk(content: string, metadata: map<string, MetaValue>)

  /** `{'chunk_index': i, 'chunk_size': len(chunk), **(metadata or {})}`. */
  function ChunkMetadata(i: nat, chunk: string, metadata: Option<map<string, MetaValue>>): map<string, MetaValue> {
    map["chunk_index" := IntMeta(i), "chunk_size" := IntMeta(|chunk|)] + metadata.GetOr(map[])
  }

  /** The chunk loop of `chunk_text_for_embedding`, over the splitter's chunks. */
  method ChunkTextForEmbedding(chunks: seq<string>, metadata: Option<map<string, MetaValue>>) returns (docs: seq<Chunk>)
    ensures |docs| == |chunks|
    ensures forall i :: 0 <= i < |docs| ==> docs[i] == Chunk(chunks[i], ChunkMetadata(i, chunks[i], metadata))
  {
    docs := [];
    for i := 0 to |chunks|
      invariant |docs| == i
      invariant forall k :: 0 <= k < i ==> docs[k] == Chunk(chunks[k], ChunkMetadata(k, chunks[k], metadata))
    {
      docs := docs + [Chunk(chunks[i], ChunkMetadata(i, chunks[i], metadata))];
    }
  }

  /**
   * A chunk's metadata holds the caller's entries unchanged, and its own
   * index and size under the keys the caller does not set.
   */
  lemma ChunkMetadataFacts(i: nat, chunk: string, metadata: Option<map<string, MetaValue>>)
    ensures var m := ChunkMetadata(i, chunk, metadata);
      var given := metadata.GetOr(map[]);
      m.Keys == {"chunk_index", "chunk_size"} + given.Keys &&
      (forall k :: k in given ==> m[k] == given[k]) &&
      ("chunk_index" !in given ==> m["chunk_index"] == IntMeta(i)) &&
      ("chunk_size" !in given ==> m["chunk_size"] == IntMeta(|chunk|))
  {
  }
}
