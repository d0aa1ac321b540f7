/**
 * The Python `str` operations and the fixed regular-expression pieces the
 * modelled code relies on, on ASCII text: `lower`, `strip`, `split`, `join`,
 * `find`/`rfind`, `startswith`, slicing with an int bound, `str(int)`/`int(str)`,
 * the word-character class `\w`, the boundary `\b`, and `re.sub(r'\s+', ' ', s)`.
 */
module Text {
  import opened Wrappers

  // ---------------------------------------------------------------- characters

  /**
   * `\s` and `str.isspace` on ASCII: space, tab, newline, vertical tab, form
   * feed, carriage return, and the four separators 0x1C to 0x1F.
   */
  predicate IsSpace(c: char) {
    c == ' ' || ('\t' <= c <= '\r') || ('\U{001C}' <= c <= '\U{001F}')
  }

  predicate IsUpper(c: char) { 'A' <= c <= 'Z' }

  predicate IsLowerLetter(c: char) { 'a' <= c <= 'z' }

  predicate IsLetter(c: char) { IsUpper(c) || IsLowerLetter(c) }

  predicate IsDigit(c: char) { '0' <= c <= '9' }

  /** The regex class `\w` on ASCII. */
  predicate IsWordChar(c: char) { IsLetter(c) || IsDigit(c) || c == '_' }

  function LowerChar(c: char): (r: char)
    ensures !IsUpper(r)
    ensures IsLetter(c) <==> IsLetter(r)
    ensures IsWordChar(c) <==> IsWordChar(r)
    ensures IsSpace(c) <==> IsSpace(r)
  {
    if IsUpper(c) then (c as int + 32) as char else c
  }

  /** `str.lower()`. */
  function Lower(s: string): (r: string)
    ensures |r| == |s|
    ensures forall i :: 0 <= i < |s| ==> r[i] == LowerChar(s[i])
    ensures IsLowerCase(r)
  {
    seq(|s|, i requires 0 <= i < |s| => LowerChar(s[i]))
  }

  predicate IsLowerCase(s: string) {
    forall i :: 0 <= i < |s| ==> !IsUpper(s[i])
  }

  lemma LowerAppend(a: string, b: string)
    ensures Lower(a + b) == Lower(a) + Lower(b)
  {
    assert forall i :: 0 <= i < |a + b| ==> Lower(a + b)[i] == (Lower(a) + Lower(b))[i];
  }

  // ------------------------------------------------------------------ strip

  /** `str.lstrip()`. */
  function LStrip(s: string): (r: string)
    ensures |r| <= |s| && r == s[|s| - |r|..]
    ensures r == [] || !IsSpace(r[0])
    ensures forall i :: 0 <= i < |s| - |r| ==> IsSpace(s[i])
  {
    if |s| > 0 && IsSpace(s[0]) then LStrip(s[1..]) else s
  }

  /** `str.rstrip()`. */
  function RStrip(s: string): (r: string)
    ensures |r| <= |s| && r == s[..|r|]
    ensures r == [] || !IsSpace(r[|r| - 1])
    ensures forall i :: |r| <= i < |s| ==> IsSpace(s[i])
  {
    if |s| > 0 && IsSpace(s[|s| - 1]) then RStrip(s[..|s| - 1]) else s
  }

  /** `str.strip()`: a contiguous slice of the input without leading or trailing whitespace. */
  function Strip(s: string): (r: string)
    ensures |r| <= |s|
    ensures r == [] || (!IsSpace(r[0]) && !IsSpace(r[|r| - 1]))
    ensures StripStart(s) + |r| <= |s| && r == s[StripStart(s)..StripStart(s) + |r|]
  {
    var l := LStrip(s);
    var r := RStrip(l);
    assert r == s[|s| - |l|..][..|r|] == s[|s| - |l|..|s| - |l| + |r|];
    r
  }

  /** Text without edge whitespace is its own strip. */
  lemma StripUnchanged(s: string)
    requires s == [] || (!IsSpace(s[0]) && !IsSpace(s[|s| - 1]))
    ensures Strip(s) == s
  {
    assert LStrip(s) == s;
    assert RStrip(s) == s;
  }

  /** How many leading whitespace characters `strip` removes. */
  function StripStart(s: string): nat {
    |s| - |LStrip(s)|
  }

  predicate HasNoSpace(s: string) {
    forall i :: 0 <= i < |s| ==> !IsSpace(s[i])
  }

  // ------------------------------------------------------- prefixes, search

  predicate StartsWith(s: string, p: string) { |p| <= |s| && s[..|p|] == p }

  predicate EndsWith(s: string, p: string) { |p| <= |s| && s[|s| - |p|..] == p }

  predicate OccursAt(s: string, sub: string, i: nat) {
    i + |sub| <= |s| && s[i..i + |sub|] == sub
  }

  /** A match of `sub` ending a slice makes the slice end with `sub`. */
  lemma OccursAtEnd(s: string, sub: string, start: nat, e: nat)
    requires start <= e && OccursAt(s, sub, e)
    ensures EndsWith(s[start..e + |sub|], sub)
  {
    assert s[start..e + |sub|][e - start..] == s[e..e + |sub|];
  }

  /** The first occurrence of `sub` at or after `i` (`str.find(sub, i)`). */
  function FindFrom(s: string, sub: string, i: nat): (r: Option<nat>)
    ensures r.Some? ==> i <= r.value && OccursAt(s, sub, r.value)
    ensures r.Some? ==> forall j: nat :: i <= j < r.value ==> !OccursAt(s, sub, j)
    ensures r.None? ==> forall j: nat :: i <= j ==> !OccursAt(s, sub, j)
    decreases |s| - i
  {
    if i + |sub| > |s| then None
    else if OccursAt(s, sub, i) then Some(i)
    else FindFrom(s, sub, i + 1)
  }

  function Find(s: string, sub: string): Option<nat> {
    FindFrom(s, sub, 0)
  }

  /** Python's `sub in s`. */
  predicate Contains(s: string, sub: string) {
    Find(s, sub).Some?
  }

  /** A string that lacks the first character of `sub` does not contain `sub`. */
  lemma FindAbsent(s: string, sub: string)
    requires |sub| > 0 && sub[0] !in s
    ensures Find(s, sub).None?
  {
    assert forall j :: 0 <= j && j + |sub| <= |s| ==> s[j..j + |sub|][0] == s[j];
  }

  /** `sub` is first found right after a prefix that lacks its first character. */
  lemma FindAfter(pre: string, sub: string, rest: string)
    requires |sub| > 0 && sub[0] !in pre && StartsWith(rest, sub)
    ensures Find(pre + rest, sub) == Some(|pre|)
  {
    var s := pre + rest;
    assert s[|pre|..|pre| + |sub|] == rest[..|sub|];
    assert OccursAt(s, sub, |pre|);
    assert Find(s, sub).Some?;
    var v := Find(s, sub).value;
    assert v <= |pre|;
    assert s[v..v + |sub|][0] == s[v];
  }

  /** The first index of character `c`, if any. */
  function IndexOfChar(s: string, c: char): (r: Option<nat>)
    ensures r.Some? ==> r.value < |s| && s[r.value] == c && c !in s[..r.value]
    ensures r.None? ==> c !in s
  {
    if |s| == 0 then None
    else if s[0] == c then Some(0)
    else match IndexOfChar(s[1..], c)
      case None => None
      case Some(k) => assert s[..k + 1] == [s[0]] + s[1..][..k]; Some(k + 1)
  }

  /** The first index at or after `i` holding `c`, if any. */
  function IndexOfCharFrom(s: string, c: char, i: nat): (r: Option<nat>)
    ensures r.Some? ==> i <= r.value < |s| && s[r.value] == c
    ensures r.Some? ==> forall k :: i <= k < r.value ==> s[k] != c
    ensures r.None? ==> forall k :: i <= k < |s| ==> s[k] != c
    decreases |s| - i
  {
    if i >= |s| then None
    else if s[i] == c then Some(i)
    else IndexOfCharFrom(s, c, i + 1)
  }

  /** The end of the run of whitespace that starts at `i` (what a greedy `\s*` consumes). */
  function SkipSpaces(s: string, i: nat): (r: nat)
    ensures i <= |s| ==> i <= r <= |s|
    ensures i > |s| ==> r == i
    ensures forall k :: i <= k < r ==> IsSpace(s[k])
    ensures r < |s| ==> !IsSpace(s[r])
    decreases |s| - i
  {
    if i < |s| && IsSpace(s[i]) then SkipSpaces(s, i + 1) else i
  }

  /** The end of the run of ASCII letters that starts at `i` (what a greedy `[a-zA-Z]+` consumes). */
  function SkipLetters(s: string, i: nat): (r: nat)
    ensures i <= |s| ==> i <= r <= |s|
    ensures i > |s| ==> r == i
    ensures forall k :: i <= k < r ==> IsLetter(s[k])
    ensures r < |s| ==> !IsLetter(s[r])
    decreases |s| - i
  {
    if i < |s| && IsLetter(s[i]) then SkipLetters(s, i + 1) else i
  }

  /** `str.rfind(c)`: the last index of `c`, or -1. */
  function RFindChar(s: string, c: char): (r: int)
    ensures -1 <= r < |s|
    ensures r >= 0 ==> s[r] == c
    ensures forall j :: r < j < |s| ==> s[j] != c
  {
    if |s| == 0 then -1
    else if s[|s| - 1] == c then |s| - 1
    else RFindChar(s[..|s| - 1], c)
  }

  /** Python's `s[:n]` for any int `n` (a negative bound counts from the end). */
  function PyPrefix<T>(s: seq<T>, n: int): (r: seq<T>)
    ensures |r| <= |s| && r == s[..|r|]
    ensures 0 <= n ==> |r| == if n < |s| then n else |s|
  {
    if n >= |s| then s
    else if n >= 0 then s[..n]
    else if |s| + n >= 0 then s[..|s| + n]
    else []
  }

  // ------------------------------------------------------------ split, join

  /** `str.split(sep)` for a one-character separator: never empty, no piece holds `sep`. */
  function Split(s: string, sep: char): (r: seq<string>)
    ensures |r| >= 1
    ensures forall i :: 0 <= i < |r| ==> sep !in r[i]
    decreases |s|
  {
    match IndexOfChar(s, sep)
    case None => [s]
    case Some(i) => [s[..i]] + Split(s[i + 1..], sep)
  }

  /** `sep.join(parts)`. */
  function Join(parts: seq<string>, sep: string): string {
    if |parts| == 0 then ""
    else if |parts| == 1 then parts[0]
    else parts[0] + sep + Join(parts[1..], sep)
  }

  /** Joining the pieces of a split with the separator gives back the text. */
  lemma {:induction false} JoinSplit(s: string, sep: char)
    ensures Join(Split(s, sep), [sep]) == s
    decreases |s|
  {
    match IndexOfChar(s, sep)
    case None =>
    case Some(i) =>
      var rest := Split(s[i + 1..], sep);
      JoinSplit(s[i + 1..], sep);
      var parts := [s[..i]] + rest;
      assert Split(s, sep) == parts;
      assert parts[0] == s[..i] && parts[1..] == rest;
      assert Join(parts, [sep]) == s[..i] + [sep] + Join(rest, [sep]);
      assert s == s[..i] + [sep] + s[i + 1..];
  }

  /** Splitting a join of separator-free parts gives back the parts. */
  lemma {:induction false} SplitJoin(parts: seq<string>, sep: char)
    requires |parts| >= 1
    requires forall i :: 0 <= i < |parts| ==> sep !in parts[i]
    ensures Split(Join(parts, [sep]), sep) == parts
    decreases |parts|
  {
    if |parts| > 1 {
      var rest := Join(parts[1..], [sep]);
      var s := parts[0] + [sep] + rest;
      assert s[..|parts[0]|] == parts[0];
      assert s[|parts[0]|] == sep;
      assert IndexOfChar(s, sep) == Some(|parts[0]|);
      assert s[|parts[0]| + 1..] == rest;
      SplitJoin(parts[1..], sep);
    }
  }

  /** Joining two non-empty lists is joining each and putting one separator between them. */
  lemma {:induction false} JoinAppend(a: seq<string>, b: seq<string>, sep: string)
    requires |a| > 0 && |b| > 0
    ensures Join(a + b, sep) == Join(a, sep) + sep + Join(b, sep)
    decreases |a|
  {
    if |a| == 1 {
      assert (a + b)[1..] == b;
    } else {
      JoinAppend(a[1..], b, sep);
      assert (a + b)[1..] == a[1..] + b;
    }
  }

  /** `str.split(sep)` for a separator string of length at least one. */
  function SplitStr(s: string, sep: string): (r: seq<string>)
    requires |sep| > 0
    ensures |r| >= 1
    ensures Find(s, sep).None? ==> r == [s]
    ensures Find(s, sep).Some? ==> |r| >= 2 && r[0] == s[..Find(s, sep).value]
    decreases |s|
  {
    match Find(s, sep)
    case None => [s]
    case Some(i) => [s[..i]] + SplitStr(s[i + |sep|..], sep)
  }

  /** `s.split(sep)[1]` is the text after the first `sep` up to the next one. */
  lemma SplitStrSecond(s: string, sep: string)
    requires |sep| > 0 && Find(s, sep).Some?
    ensures Find(s, sep).value + |sep| <= |s|
    ensures SplitStr(s, sep)[1] == SplitStr(s[Find(s, sep).value + |sep|..], sep)[0]
  {
  }

  /** After a first `sep` that follows `pre`, the second piece of `s.split(sep)` is the first piece of the rest. */
  lemma SplitStrAfter(pre: string, sep: string, after: string)
    requires |sep| > 0 && sep[0] !in pre
    ensures Find(pre + sep + after, sep) == Some(|pre|)
    ensures SplitStr(pre + sep + after, sep)[1] == SplitStr(after, sep)[0]
  {
    var s := pre + sep + after;
    assert s == pre + (sep + after);
    FindAfter(pre, sep, sep + after);
    SplitStrSecond(s, sep);
    assert s[|pre| + |sep|..] == after;
  }

  /** The first piece of `s.split(sep)` is the text before a first `sep`. */
  lemma SplitStrFirst(body: string, sep: string, rest: string)
    requires |sep| > 0 && sep[0] !in body && StartsWith(rest, sep)
    ensures SplitStr(body + rest, sep)[0] == body
  {
    FindAfter(body, sep, rest);
    assert (body + rest)[..|body|] == body;
  }

  /** Markdown code fences. */
  const Fence := "```"
  const JsonFence := Fence + "json"

  // ------------------------------------------------------- decimal integers

  function DigitChar(d: nat): (c: char)
    requires d < 10
    ensures IsDigit(c)
  {
    ('0' as int + d) as char
  }

  predicate AllDigits(s: string) {
    forall i :: 0 <= i < |s| ==> IsDigit(s[i])
  }

  /** `str(n)` for a non-negative int. */
  function DecimalString(n: nat): (r: string)
    ensures |r| >= 1 && AllDigits(r)
    decreases n
  {
    if n < 10 then [DigitChar(n)] else DecimalString(n / 10) + [DigitChar(n % 10)]
  }

  /** `int(s)` for a string of ASCII digits (leading zeros allowed). */
  function DigitsValue(s: string): nat
    requires AllDigits(s)
  {
    if |s| == 0 then 0 else DigitsValue(s[..|s| - 1]) * 10 + (s[|s| - 1] as int - '0' as int)
  }

  /** `int(str(n)) == n`. */
  lemma {:induction false} DigitsValueOfDecimal(n: nat)
    ensures DigitsValue(DecimalString(n)) == n
    decreases n
  {
    var s := DecimalString(n);
    if n >= 10 {
      DigitsValueOfDecimal(n / 10);
      assert s[..|s| - 1] == DecimalString(n / 10);
    }
  }

  // ------------------------------------------------------------- \w and \b

  /** The length of the run of word characters that starts `s`. */
  function WordRunLength(s: string): (n: nat)
    ensures n <= |s|
    ensures forall j :: 0 <= j < n ==> IsWordChar(s[j])
    ensures n < |s| ==> !IsWordChar(s[n])
  {
    if |s| == 0 || !IsWordChar(s[0]) then 0 else 1 + WordRunLength(s[1..])
  }

  predicate IsWord(w: string) {
    |w| > 0 && forall j :: 0 <= j < |w| ==> IsWordChar(w[j])
  }

  /** `re.findall(r'\b\w+\b', s)`: the maximal runs of word characters, in order. */
  function WordRuns(s: string): (r: seq<string>)
    ensures forall i :: 0 <= i < |r| ==> IsWord(r[i])
    decreases |s|
  {
    if |s| == 0 then []
    else if !IsWordChar(s[0]) then WordRuns(s[1..])
    else
      var n := WordRunLength(s);
      [s[..n]] + WordRuns(s[n..])
  }

  /** The length of the run of non-whitespace characters that starts `s`. */
  function NonSpaceRunLength(s: string): (n: nat)
    ensures n <= |s|
    ensures forall j :: 0 <= j < n ==> !IsSpace(s[j])
    ensures n < |s| ==> IsSpace(s[n])
  {
    if |s| == 0 || IsSpace(s[0]) then 0 else 1 + NonSpaceRunLength(s[1..])
  }

  /** `str.split()` with no separator: the maximal runs of non-whitespace characters, in order. */
  function SplitWhitespace(s: string): (r: seq<string>)
    ensures forall i :: 0 <= i < |r| ==> |r[i]| > 0 && HasNoSpace(r[i])
    decreases |s|
  {
    if |s| == 0 then []
    else if IsSpace(s[0]) then SplitWhitespace(s[1..])
    else
      var n := NonSpaceRunLength(s);
      [s[..n]] + SplitWhitespace(s[n..])
  }

  /** The regex assertion `\b` at position `i`. */
  predicate WordBoundary(s: string, i: nat)
    requires i <= |s|
  {
    (i > 0 && IsWordChar(s[i - 1])) != (i < |s| && IsWordChar(s[i]))
  }

  // ------------------------------------------------- whitespace collapsing

  /** Every whitespace character is a single space, never followed by another whitespace character. */
  predicate SingleSpaced(s: string) {
    |s| == 0 ||
    ((IsSpace(s[0]) ==> s[0] == ' ' && (|s| == 1 || !IsSpace(s[1]))) && SingleSpaced(s[1..]))
  }

  /** `re.sub(r'\s+', ' ', s)`. */
  function CollapseSpaces(s: string): (r: string)
    ensures SingleSpaced(r)
    ensures |r| == 0 <==> |s| == 0
    ensures |s| > 0 ==> (IsSpace(r[0]) <==> IsSpace(s[0]))
    decreases |s|
  {
    if |s| == 0 then ""
    else if IsSpace(s[0]) then
      var t := CollapseSpaces(LStrip(s));
      assert (" " + t)[1..] == t;
      " " + t
    else
      var t := CollapseSpaces(s[1..]);
      assert ([s[0]] + t)[1..] == t;
      [s[0]] + t
  }

  lemma {:induction false} SingleSpacedDrop(s: string, a: nat)
    requires a <= |s| && SingleSpaced(s)
    ensures SingleSpaced(s[a..])
  {
    if a > 0 {
      SingleSpacedDrop(s[1..], a - 1);
      assert s[1..][a - 1..] == s[a..];
    }
  }

  lemma {:induction false} SingleSpacedTake(s: string, b: nat)
    requires b <= |s| && SingleSpaced(s)
    ensures SingleSpaced(s[..b])
  {
    if b > 0 {
      SingleSpacedTake(s[1..], b - 1);
      assert s[..b][1..] == s[1..][..b - 1];
    }
  }

  lemma SingleSpacedSlice(s: string, a: nat, b: nat)
    requires a <= b <= |s| && SingleSpaced(s)
    ensures SingleSpaced(s[a..b])
  {
    SingleSpacedDrop(s, a);
    SingleSpacedTake(s[a..], b - a);
    assert s[a..][..b - a] == s[a..b];
  }

  lemma {:induction false} CollapseSpacesFixed(s: string)
    requires SingleSpaced(s)
    ensures CollapseSpaces(s) == s
    decreases |s|
  {
    if |s| > 0 {
      var t := s[1..];
      assert SingleSpaced(t);
      CollapseSpacesFixed(t);
      if IsSpace(s[0]) {
        assert t == [] || !IsSpace(t[0]);
        assert LStrip(s) == LStrip(t) == t;
        assert CollapseSpaces(s) == " " + t;
      } else {
        assert CollapseSpaces(s) == [s[0]] + t;
      }
      assert s == [s[0]] + t;
    }
  }

  /** Text that is already single-spaced, with no edge whitespace, is left as it is. */
  lemma NormalizeSpacesFixed(s: string)
    requires SingleSpaced(s)
    requires s == [] || (!IsSpace(s[0]) && !IsSpace(s[|s| - 1]))
    ensures NormalizeSpaces(s) == s
  {
    CollapseSpacesFixed(s);
  }

  /** `re.sub(r'\s+', ' ', s).strip()`: no edge whitespace and single spaces inside. */
  function NormalizeSpaces(s: string): (r: string)
    ensures r == [] || (!IsSpace(r[0]) && !IsSpace(r[|r| - 1]))
    ensures SingleSpaced(r)
  {
    var c := CollapseSpaces(s);
    StripSingleSpaced(c);
    Strip(c)
  }

  /** Stripping keeps text single-spaced. */
  lemma StripSingleSpaced(c: string)
    requires SingleSpaced(c)
    ensures SingleSpaced(Strip(c))
  {
    var a := StripStart(c);
    SingleSpacedSlice(c, a, a + |Strip(c)|);
  }
}
