/**
 * The text helpers of `src/utils.py`: score formatting, truncation at a
 * word boundary, file-type validation, project-name cleaning and
 * validation, and the two keyword extractors (the technical-terms-first
 * merge and the frequency fallback).
 */
module Utils {
  import opened Wrappers
  import opened Text
  import opened Seqs
  import opened Counting

  // ------------------------------------------------------------ format_score

  /** The run-time type of the value handed to `format_score`. */
  datatype ScoreValue = IntValue(i: int) | FloatValue(x: real) | StrValue(s: string) | OtherValue

  /** `max(0, min(100, n))`. */
  function Clamp100(n: int): (r: int)
    ensures 0 <= r <= 100
    ensures 0 <= n <= 100 ==> r == n
  {
    if n < 0 then 0 else if n > 100 then 100 else n
  }

  /** Python's `int(x)` on a float: truncation toward zero. */
  function TruncateToInt(x: real): (r: int)
    ensures 0.0 <= x ==> 0 <= r && r as real <= x < r as real + 1.0
    ensures x < 0.0 ==> r <= 0 && r as real - 1.0 < x <= r as real
  {
    if x >= 0.0 then x.Floor else -((-x).Floor)
  }

  /** The length of the run of ASCII digits that starts `s`. */
  function DigitRunLength(s: string): (n: nat)
    ensures n <= |s|
    ensures forall j :: 0 <= j < n ==> IsDigit(s[j])
    ensures n < |s| ==> !IsDigit(s[n])
  {
    if |s| == 0 || !IsDigit(s[0]) then 0 else 1 + DigitRunLength(s[1..])
  }

  /** `re.findall(r'\d+', s)[0]`, or `None` when `s` has no digit. */
  function FirstDigitRun(s: string): (r: Option<string>)
    ensures r.None? <==> forall i :: 0 <= i < |s| ==> !IsDigit(s[i])
    ensures r.Some? ==> |r.value| > 0 && AllDigits(r.value)
    decreases |s|
  {
    if |s| == 0 then None
    else if IsDigit(s[0]) then Some(s[..DigitRunLength(s)])
    else FirstDigitRun(s[1..])
  }

  /** `format_score`: any score value becomes an int in [0, 100]. */
  function FormatScore(v: ScoreValue): (r: int)
    ensures 0 <= r <= 100
    ensures v.OtherValue? ==> r == 0
    ensures v.StrValue? && FirstDigitRun(v.s).None? ==> r == 0
  {
    match v
    case IntValue(i) => Clamp100(i)
    case FloatValue(x) => Clamp100(TruncateToInt(x))
    case StrValue(s) =>
      (match FirstDigitRun(s)
       case None => 0
       case Some(d) => Clamp100(DigitsValue(d)))
    case OtherValue => 0
  }

  /** The first digit run of `p + d + q` is `d` when `p` has no digit and `q` does not continue the run. */
  lemma {:induction false} FirstDigitRunOf(p: string, d: string, q: string)
    requires forall i :: 0 <= i < |p| ==> !IsDigit(p[i])
    requires |d| > 0 && AllDigits(d)
    requires q == [] || !IsDigit(q[0])
    ensures FirstDigitRun(p + d + q) == Some(d)
    decreases |p|
  {
    var s := p + d + q;
    if |p| == 0 {
      assert s == d + q;
      var n := DigitRunLength(s);
      assert forall j :: 0 <= j < |d| ==> IsDigit(s[j]);
      assert |d| < |s| ==> s[|d|] == q[0];
      assert n == |d|;
      assert s[..n] == d;
    } else {
      assert s[1..] == p[1..] + d + q;
      FirstDigitRunOf(p[1..], d, q);
    }
  }

  /** A score written as text, such as "Score: 85/100", reads as its first number, clamped. */
  lemma FormatScoreText(p: string, n: nat, q: string)
    requires forall i :: 0 <= i < |p| ==> !IsDigit(p[i])
    requires q == [] || !IsDigit(q[0])
    ensures FormatScore(StrValue(p + DecimalString(n) + q)) == Clamp100(n)
  {
    FirstDigitRunOf(p, DecimalString(n), q);
    DigitsValueOfDecimal(n);
  }

  /** A number already in [0, 100] keeps its whole part. */
  lemma FormatScoreNumber(x: real)
    requires 0.0 <= x < 101.0
    ensures FormatScore(FloatValue(x)) as real <= x < FormatScore(FloatValue(x)) as real + 1.0
  {
  }

  // ----------------------------------------------------------- truncate_text

  /**
   * `truncate_text`: text no longer than `maxLength` is returned as is;
   * longer text is cut to `text[:maxLength]`, and then back to its last
   * space when that space lies beyond `0.8 * maxLength`, and gets "...".
   * The float comparison `last_space > max_length * 0.8` is the exact
   * `5 * last_space > 4 * max_length`.
   */
  function TruncateText(text: string, maxLength: int): (r: string)
    ensures |text| == 0 || |text| <= maxLength ==> r == text
    ensures |text| > 0 && |text| > maxLength ==>
      3 <= |r| <= |text| + 3 && EndsWith(r, "...") && r[..|r| - 3] == text[..|r| - 3]
  {
    if |text| == 0 || |text| <= maxLength then text
    else
      var truncated := PyPrefix(text, maxLength);
      var lastSpace := RFindChar(truncated, ' ');
      if 5 * lastSpace > 4 * maxLength then PyPrefix(truncated, lastSpace) + "..."
      else truncated + "..."
  }

  /**
   * For a limit `m` the text exceeds, the kept part has at most `m`
   * characters; it is shorter than `m` exactly when it stops at a space
   * beyond `0.8 * m` with no space between it and `m`, and it is all of
   * `text[:m]` only when no space lies beyond `0.8 * m` in `text[:m]`.
   */
  lemma TruncateAtSpace(text: string, m: int)
    requires 0 <= m < |text|
    ensures |TruncateText(text, m)| - 3 <= m
    ensures var kept := |TruncateText(text, m)| - 3;
      kept < m ==>
        text[kept] == ' ' && 5 * kept > 4 * m && forall j :: kept < j < m ==> text[j] != ' '
    ensures var kept := |TruncateText(text, m)| - 3;
      kept == m ==> forall j :: 0 <= j < m && 5 * j > 4 * m ==> text[j] != ' '
  {
    var truncated := PyPrefix(text, m);
    assert truncated == text[..m];
    var lastSpace := RFindChar(truncated, ' ');
    if 5 * lastSpace > 4 * m {
      assert |PyPrefix(truncated, lastSpace)| == lastSpace;
    }
  }

  // ------------------------------------------------------ validate_file_type

  /** `s.split('.')[-1]`. */
  function LastSegment(s: string): (r: string)
    ensures '.' !in r
  {
    var parts := Split(s, '.');
    parts[|parts| - 1]
  }

  /** `validate_file_type`: ".<last dot-segment>" of the lowercased name is a lowercased allowed extension. */
  function ValidateFileType(filename: string, allowed: seq<string>): (r: bool)
    ensures filename == "" ==> !r
  {
    filename != "" && "." + LastSegment(Lower(filename)) in Map(allowed, Lower)
  }

  /** The last piece of `a + [sep] + b` split on `sep` is `b` when `b` holds no `sep`. */
  lemma {:induction false} SplitLastAfter(a: string, sep: char, b: string)
    requires sep !in b
    ensures var parts := Split(a + [sep] + b, sep); parts[|parts| - 1] == b
    decreases |a|
  {
    var s := a + [sep] + b;
    match IndexOfChar(s, sep)
    case None =>
      assert false;
    case Some(i) =>
      var tail := Split(s[i + 1..], sep);
      assert Split(s, sep) == [s[..i]] + tail;
      if i < |a| {
        assert s[i + 1..] == a[i + 1..] + [sep] + b;
        SplitLastAfter(a[i + 1..], sep, b);
      } else {
        assert i == |a|;
        assert s[i + 1..] == b;
        assert IndexOfChar(b, sep).None?;
        assert tail == [b];
      }
  }

  lemma LowerHasNoDot(s: string)
    requires '.' !in s
    ensures '.' !in Lower(s)
  {
  }

  /** `name.ext` is accepted exactly when ".ext", compared case-insensitively, is allowed. */
  lemma ValidateFileTypeOf(stem: string, ext: string, allowed: seq<string>)
    requires '.' !in ext
    ensures ValidateFileType(stem + "." + ext, allowed) <==> "." + Lower(ext) in Map(allowed, Lower)
  {
    LowerAppend(stem + ".", ext);
    LowerAppend(stem, ".");
    assert Lower(".") == ".";
    LowerHasNoDot(ext);
    SplitLastAfter(Lower(stem), '.', Lower(ext));
    assert Lower(stem + "." + ext) == Lower(stem) + ['.'] + Lower(ext);
  }

  /** A name without a dot is its own "extension": "pdf" passes when ".pdf" is allowed. */
  lemma ValidateFileTypeNoDot(filename: string, allowed: seq<string>)
    requires filename != "" && '.' !in filename
    ensures ValidateFileType(filename, allowed) <==> "." + Lower(filename) in Map(allowed, Lower)
  {
    LowerHasNoDot(filename);
    assert IndexOfChar(Lower(filename), '.').None?;
  }

  // -------------------------------------------------- _is_valid_project_name

  /** The words a project name must not start with (followed by a space). */
  const InvalidStarters: seq<string> := [
    "using", "with", "in", "for", "that", "to", "and", "or", "but",
    "the", "a", "an", "this", "these", "those", "my", "our", "their",
    "experience", "work", "job", "role", "position", "responsibilities",
    "skills", "technologies", "tools", "languages", "frameworks"
  ]

  predicate StartsWithInvalidWord(s: string) {
    exists k :: 0 <= k < |InvalidStarters| && StartsWith(s, InvalidStarters[k] + " ")
  }

  /** `re.search(r'[a-zA-Z]', s)`. */
  predicate HasLetter(s: string) {
    exists i :: 0 <= i < |s| && IsLetter(s[i])
  }

  /** `str.isupper()` over ASCII: some upper-case letter and no lower-case one. */
  predicate IsAllUpper(s: string) {
    (exists i :: 0 <= i < |s| && IsUpper(s[i])) && forall i :: 0 <= i < |s| ==> !IsLowerLetter(s[i])
  }

  /** `len(re.findall(r'\d', s))`. */
  function DigitCount(s: string): (n: nat)
    ensures n <= |s|
  {
    if |s| == 0 then 0 else (if IsDigit(s[0]) then 1 else 0) + DigitCount(s[1..])
  }

  /**
   * `_is_valid_project_name`. The digit test `digits / len(name) > 0.5`
   * is the exact `2 * digits > len(name)`.
   */
  predicate IsValidProjectName(name: string) {
    && 5 <= |name| <= 80
    && !StartsWithInvalidWord(Strip(Lower(name)))
    && HasLetter(name)
    && !(IsAllUpper(name) && |name| > 20)
    && DigitCount(name) * 2 <= |name|
  }

  /** A name whose lowercased form starts with a listed starter and a space is rejected. */
  lemma StarterRejected(name: string, k: nat)
    requires k < |InvalidStarters| && StartsWith(Lower(name), InvalidStarters[k] + " ")
    requires !IsSpace(name[|name| - 1])
    ensures !IsValidProjectName(name)
  {
    var w := InvalidStarters[k];
    assert |w| > 0 && IsLowerLetter(w[0]);
    assert Lower(name)[0] == (w + " ")[0];
    assert !IsSpace(LowerChar(name[|name| - 1]));
    StripUnchanged(Lower(name));
  }

  // ---------------------------------------------- _clean_and_validate_project_name

  predicate IsTrailingPunct(c: char) {
    c == '.' || c == ',' || c == ':' || c == ';' || c == '!' || c == '?'
  }

  predicate IsQuote(c: char) { c == '"' || c == '\'' }

  /** `re.sub(r'[.,:;!?]+$', '', s)`: the longest prefix not ending in one of these marks. */
  function DropTrailingPunct(s: string): (r: string)
    ensures |r| <= |s| && r == s[..|r|]
    ensures r == [] || !IsTrailingPunct(r[|r| - 1])
    ensures forall i :: |r| <= i < |s| ==> IsTrailingPunct(s[i])
  {
    if |s| > 0 && IsTrailingPunct(s[|s| - 1]) then DropTrailingPunct(s[..|s| - 1]) else s
  }

  function QuoteStart(s: string): nat {
    if |s| > 0 && IsQuote(s[0]) then 1 else 0
  }

  /** `re.sub(r'^["\']|["\']$', '', s)`: at most one quote off each end. */
  function DropEdgeQuotes(s: string): (r: string)
    ensures QuoteStart(s) + |r| <= |s| && r == s[QuoteStart(s)..QuoteStart(s) + |r|]
    ensures |s| - 2 <= |r|
  {
    var t := s[QuoteStart(s)..];
    if |t| > 0 && IsQuote(t[|t| - 1]) then t[..|t| - 1] else t
  }

  /** The cleaning steps of `_clean_and_validate_project_name`: strip, collapse whitespace, drop trailing marks, drop edge quotes. */
  function CleanProjectName(name: string): (r: string)
    ensures SingleSpaced(r)
  {
    var collapsed := CollapseSpaces(Strip(name));
    var unpunct := DropTrailingPunct(collapsed);
    SingleSpacedTake(collapsed, |unpunct|);
    var c := DropEdgeQuotes(unpunct);
    SingleSpacedSlice(unpunct, QuoteStart(unpunct), QuoteStart(unpunct) + |c|);
    c
  }

  /** A single-spaced name with no edge whitespace, quote or trailing mark is already clean. */
  lemma CleanNameFixed(name: string)
    requires |name| > 0 && SingleSpaced(name)
    requires !IsSpace(name[0]) && !IsSpace(name[|name| - 1])
    requires !IsQuote(name[0]) && !IsQuote(name[|name| - 1]) && !IsTrailingPunct(name[|name| - 1])
    ensures CleanProjectName(name) == name
  {
    StripUnchanged(name);
    CollapseSpacesFixed(name);
    assert DropTrailingPunct(name) == name;
    UnquotedKept(name);
  }

  /** `_clean_and_validate_project_name`. */
  function CleanAndValidateProjectName(name: string): (r: Option<string>)
    ensures name == "" ==> r.None?
    ensures r.Some? ==> IsValidProjectName(r.value) && SingleSpaced(r.value)
  {
    if name == "" then None
    else
      var c := CleanProjectName(name);
      if IsValidProjectName(c) then Some(c) else None
  }

  /** A valid name that is already clean comes back unchanged. */
  lemma CleanKeepsCleanName(name: string)
    requires IsValidProjectName(name) && SingleSpaced(name)
    requires !IsSpace(name[0]) && !IsSpace(name[|name| - 1])
    requires !IsQuote(name[0]) && !IsQuote(name[|name| - 1]) && !IsTrailingPunct(name[|name| - 1])
    ensures CleanAndValidateProjectName(name) == Some(name)
  {
    CleanNameFixed(name);
  }

  lemma UnquotedKept(s: string)
    requires |s| > 0 && !IsQuote(s[0]) && !IsQuote(s[|s| - 1])
    ensures DropEdgeQuotes(s) == s
  {
    assert s[QuoteStart(s)..] == s;
  }

  // --------------------------------------------------- extract_project_names

  /** The cleaned, valid candidates, first occurrence kept, before the cap of six. */
  function CleanedNames(candidates: seq<string>): (r: seq<string>)
    ensures NoDup(r)
  {
    DedupFirst(Somes(Map(candidates, CleanAndValidateProjectName)))
  }

  /** Exactly the candidates that clean to a valid name contribute, each as its cleaned form. */
  lemma CleanedNamesFacts(candidates: seq<string>)
    ensures forall x :: x in CleanedNames(candidates) ==> IsValidProjectName(x) && SingleSpaced(x)
    ensures forall i :: 0 <= i < |candidates| && CleanAndValidateProjectName(candidates[i]).Some? ==>
      CleanAndValidateProjectName(candidates[i]).value in CleanedNames(candidates)
  {
    var m := Map(candidates, CleanAndValidateProjectName);
    forall x | x in CleanedNames(candidates)
      ensures IsValidProjectName(x) && SingleSpaced(x)
    {
      var j := SomesIndex(m, x);
    }
    forall i | 0 <= i < |candidates| && CleanAndValidateProjectName(candidates[i]).Some?
      ensures CleanAndValidateProjectName(candidates[i]).value in CleanedNames(candidates)
    {
      assert m[i] == Some(CleanAndValidateProjectName(candidates[i]).value);
    }
  }

  /**
   * `extract_project_names` over the candidate phrases its section and
   * fallback patterns found: empty text gives no names; otherwise the
   * first six distinct cleaned names.
   */
  method ExtractProjectNames(resumeText: string, candidates: seq<string>) returns (names: seq<string>)
    ensures resumeText == "" ==> names == []
    ensures resumeText != "" ==> names == PyPrefix(CleanedNames(candidates), 6)
    ensures |names| <= 6 && NoDup(names)
    ensures forall x :: x in names ==> IsValidProjectName(x) && SingleSpaced(x)
  {
    if resumeText == "" {
      return [];
    }
    var cleaned := DistinctSomes(Map(candidates, CleanAndValidateProjectName));
    CleanedNamesFacts(candidates);
    names := PyPrefix(cleaned, 6);
  }

  // ------------------------------------- extract_keywords_from_text (merge)

  /**
   * What the language toolkit produced for a non-empty text: it failed,
   * or it gave the filtered, lemmatised tokens, the technical terms found
   * by the pattern list, and the TF-IDF terms in descending score order.
   */
  datatype NlpOutcome =
    | NlpFailed
    | Analysed(tokens: seq<string>, technical: seq<string>, scored: seq<(string, real)>)

  /** Some entry of `scored` names `x` with a positive score. */
  predicate PositivelyScored(scored: seq<(string, real)>, x: string) {
    exists j :: 0 <= j < |scored| && scored[j].0 == x && scored[j].1 > 0.0
  }

  /**
   * The TF-IDF loop: append each new term with a positive score, and stop
   * after any entry that leaves at least `maxKeywords` terms.
   */
  function MergeScored(acc: seq<string>, scored: seq<(string, real)>, maxKeywords: int): seq<string>
    decreases |scored|
  {
    if |scored| == 0 then acc
    else
      var next := if scored[0].0 !in acc && scored[0].1 > 0.0 then acc + [scored[0].0] else acc;
      if |next| >= maxKeywords then next else MergeScored(next, scored[1..], maxKeywords)
  }

  /** The merge keeps `acc` as its prefix and adds only new terms. */
  lemma {:induction false} MergeScoredPrefix(acc: seq<string>, scored: seq<(string, real)>, maxKeywords: int)
    requires NoDup(acc)
    ensures var r := MergeScored(acc, scored, maxKeywords);
      NoDup(r) && |acc| <= |r| && r[..|acc|] == acc
    decreases |scored|
  {
    if |scored| > 0 {
      var next := if scored[0].0 !in acc && scored[0].1 > 0.0 then acc + [scored[0].0] else acc;
      if |next| < maxKeywords {
        MergeScoredPrefix(next, scored[1..], maxKeywords);
        var r := MergeScored(next, scored[1..], maxKeywords);
        assert r[..|acc|] == r[..|next|][..|acc|];
      }
    }
  }

  /** Every term the merge adds carries a positive score. */
  lemma {:induction false} MergeScoredAdds(acc: seq<string>, scored: seq<(string, real)>, maxKeywords: int)
    requires NoDup(acc)
    ensures var r := MergeScored(acc, scored, maxKeywords);
      forall i :: |acc| <= i < |r| ==> PositivelyScored(scored, r[i])
    decreases |scored|
  {
    if |scored| > 0 {
      var next := if scored[0].0 !in acc && scored[0].1 > 0.0 then acc + [scored[0].0] else acc;
      MergeScoredPrefix(next, scored[1..], maxKeywords);
      if |next| < maxKeywords {
        MergeScoredAdds(next, scored[1..], maxKeywords);
        var r := MergeScored(next, scored[1..], maxKeywords);
        forall i | |acc| <= i < |r| ensures PositivelyScored(scored, r[i]) {
          if i >= |next| {
            var j :| 0 <= j < |scored[1..]| && scored[1..][j].0 == r[i] && scored[1..][j].1 > 0.0;
            assert scored[j + 1] == scored[1..][j];
          } else {
            assert r[i] == r[..|next|][i] == next[i];
          }
        }
      }
    }
  }

  /** A merge that ends below `maxKeywords` holds every positively scored term. */
  lemma {:induction false} MergeScoredComplete(acc: seq<string>, scored: seq<(string, real)>, maxKeywords: int)
    requires NoDup(acc)
    ensures var r := MergeScored(acc, scored, maxKeywords);
      |r| < maxKeywords ==> forall j :: 0 <= j < |scored| && scored[j].1 > 0.0 ==> scored[j].0 in r
    decreases |scored|
  {
    if |scored| > 0 {
      var next := if scored[0].0 !in acc && scored[0].1 > 0.0 then acc + [scored[0].0] else acc;
      if |next| < maxKeywords {
        MergeScoredPrefix(next, scored[1..], maxKeywords);
        MergeScoredComplete(next, scored[1..], maxKeywords);
        var r := MergeScored(next, scored[1..], maxKeywords);
        if |r| < maxKeywords {
          forall j | 0 <= j < |scored| && scored[j].1 > 0.0 ensures scored[j].0 in r {
            if j == 0 {
              assert scored[0].0 in next;
              assert next == r[..|next|];
            } else {
              assert scored[1..][j - 1] == scored[j];
            }
          }
        }
      }
    }
  }

  /** The technical terms, first occurrence kept, then the TF-IDF merge, cut to `maxKeywords`. */
  function MergeKeywords(technical: seq<string>, scored: seq<(string, real)>, maxKeywords: int): seq<string> {
    PyPrefix(MergeScored(DedupFirst(technical), scored, maxKeywords), maxKeywords)
  }

  /**
   * The merged list has at most `maxKeywords` distinct terms; the
   * technical terms come first, in order, and every later term carries a
   * positive TF-IDF score.
   */
  lemma MergeFacts(technical: seq<string>, scored: seq<(string, real)>, maxKeywords: int)
    ensures var r := MergeKeywords(technical, scored, maxKeywords);
      NoDup(r) && (maxKeywords >= 0 ==> |r| <= maxKeywords)
    ensures var r := MergeKeywords(technical, scored, maxKeywords);
      var t := DedupFirst(technical);
      forall i :: 0 <= i < |r| ==> (i < |t| ==> r[i] == t[i]) && (i >= |t| ==> PositivelyScored(scored, r[i]))
  {
    var t := DedupFirst(technical);
    MergeScoredPrefix(t, scored, maxKeywords);
    MergeScoredAdds(t, scored, maxKeywords);
    var m := MergeScored(t, scored, maxKeywords);
    var r := MergeKeywords(technical, scored, maxKeywords);
    assert r == m[..|r|];
    forall i | 0 <= i < |r| && i < |t| ensures r[i] == t[i] {
      assert m[..|t|][i] == m[i];
    }
  }

  /**
   * What `extract_keywords_from_text` returns: empty text gives none; a
   * failed toolkit falls back to the frequency extractor; fewer than five
   * tokens come back as they are; otherwise the merge.
   */
  function KeywordsFor(text: string, maxKeywords: int, outcome: NlpOutcome): seq<string> {
    if text == "" then []
    else match outcome
      case NlpFailed => SimpleKeywordExtraction(text, maxKeywords)
      case Analysed(tokens, technical, scored) =>
        if |tokens| < 5 then tokens else MergeKeywords(technical, scored, maxKeywords)
  }

  /**
   * Empty text gives no keywords; except when the toolkit found fewer than
   * five tokens, the keywords are distinct and at most `max_keywords`.
   */
  lemma KeywordsForFacts(text: string, maxKeywords: int, outcome: NlpOutcome)
    ensures text == "" ==> KeywordsFor(text, maxKeywords, outcome) == []
    ensures !(outcome.Analysed? && |outcome.tokens| < 5) ==>
      var r := KeywordsFor(text, maxKeywords, outcome);
      NoDup(r) && (maxKeywords >= 0 ==> |r| <= maxKeywords)
  {
    match outcome
    case NlpFailed => SimpleKeywordFacts(text, maxKeywords);
    case Analysed(_, technical, scored) => MergeFacts(technical, scored, maxKeywords);
  }

  /** `extract_keywords_from_text`, with the merge written as its two loops. */
  method ExtractKeywordsFromText(text: string, maxKeywords: int, outcome: NlpOutcome) returns (keywords: seq<string>)
    ensures keywords == KeywordsFor(text, maxKeywords, outcome)
  {
    if text == "" {
      return [];
    }
    if outcome.NlpFailed? {
      return SimpleKeywordExtraction(text, maxKeywords);
    }
    if |outcome.tokens| < 5 {
      return outcome.tokens;
    }
    var technical := outcome.technical;
    var scored := outcome.scored;
    var result: seq<string> := [];
    var i := 0;
    while i < |technical|
      invariant i <= |technical|
      invariant result == DedupFirst(technical[..i])
    {
      TakeSnoc(technical, i);
      DedupFirstAppend(technical[..i], technical[i]);
      if technical[i] !in result {
        result := result + [technical[i]];
      }
      i := i + 1;
    }
    assert technical[..i] == technical;
    var j := 0;
    while j < |scored|
      invariant j <= |scored|
      invariant MergeScored(result, scored[j..], maxKeywords) ==
        MergeScored(DedupFirst(technical), scored, maxKeywords)
    {
      var (keyword, score) := scored[j];
      if keyword !in result && score > 0.0 {
        result := result + [keyword];
      }
      if |result| >= maxKeywords {
        break;
      }
      assert scored[j..][1..] == scored[j + 1..];
      j := j + 1;
    }
    keywords := PyPrefix(result, maxKeywords);
  }

  // ---------------------------------------------- _simple_keyword_extraction

  /** `re.sub(r'[^\w\s]', ' ', s)`. */
  function BlankPunctuation(s: string): (r: string)
    ensures |r| == |s|
  {
    seq(|s|, i requires 0 <= i < |s| => if IsWordChar(s[i]) || IsSpace(s[i]) then s[i] else ' ')
  }

  /** `len(w) > 2 and w.isalpha()`. */
  predicate IsCandidateWord(w: string) {
    |w| > 2 && forall i :: 0 <= i < |w| ==> IsLetter(w[i])
  }

  /** The words `_simple_keyword_extraction` counts. */
  function CandidateWords(text: string): (r: seq<string>)
    ensures forall w :: w in r ==> IsCandidateWord(w)
  {
    Filter(SplitWhitespace(BlankPunctuation(Lower(text))), IsCandidateWord)
  }

  /** `_simple_keyword_extraction`: the most frequent candidate words. */
  function SimpleKeywordExtraction(text: string, maxKeywords: int): seq<string> {
    MostCommonItems(CandidateWords(text), maxKeywords)
  }

  /**
   * At most `maxKeywords` distinct alphabetic words longer than two
   * characters, from the text's words, by frequency highest first.
   */
  lemma SimpleKeywordFacts(text: string, maxKeywords: int)
    ensures var r := SimpleKeywordExtraction(text, maxKeywords);
      NoDup(r) && (maxKeywords >= 0 ==> |r| <= maxKeywords)
    ensures var r := SimpleKeywordExtraction(text, maxKeywords);
      forall i :: 0 <= i < |r| ==> IsCandidateWord(r[i]) && r[i] in CandidateWords(text)
    ensures var r := SimpleKeywordExtraction(text, maxKeywords);
      forall i, j :: 0 <= i < j < |r| ==>
        Count(CandidateWords(text), r[i]) >= Count(CandidateWords(text), r[j])
  {
    MostCommonItemsFacts(CandidateWords(text), maxKeywords);
  }
}
