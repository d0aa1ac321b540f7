/**
 * The fixed regular expressions of the LaTeX project parser, written out as
 * left-to-right scanners with the backtracking each pattern actually needs.
 *
 *   block:   \\resumeProjectHeading\s*\{(.*?)\}\{([^}]*)\}\s*\\resumeItemListStart(.*?)\\resumeItemListEnd   (DOTALL)
 *   link:    \\href\{([^}]*)\}\{[^}]*\}
 *   header:  \\textbf\{([^}]*)\}\s*\$\|\$\s*\\emph\{(.*?)\}
 *   item:    \\resumeItem\{(.*?)\}   and its fallback   \\resumeItem\{([^}]+)\}
 *   cleaner: \\textbf, \\emph, \\href display text, \\underline, any \\command[opt]{arg}, $math$
 */
module LatexScan {
  import opened Wrappers
  import opened Text

  const HeadingCmd := "\\resumeProjectHeading"
  const ListStartCmd := "\\resumeItemListStart"
  const ListEndCmd := "\\resumeItemListEnd"
  const ItemCmd := "\\resumeItem"
  const ItemOpen := "\\resumeItem{"
  const HrefOpen := "\\href{"
  const TextbfOpen := "\\textbf{"
  const EmphOpen := "\\emph{"
  const UnderlineOpen := "\\underline{"
  const MathBar := "$|$"

  // ------------------------------------------------------------ project blocks

  /** The three groups of one block match, and the whole matched text. */
  datatype Block = Block(header: string, date: string, items: string, raw: string)

  /**
   * After group 2 closes at `j`: `\s*`, the list start, and the lazy group 3
   * up to the first list end; the bounds of group 3.
   */
  function ItemList(s: string, j: nat): (r: Option<(nat, nat)>)
    ensures r.Some? ==> j < r.value.0 <= r.value.1 && OccursAt(s, ListEndCmd, r.value.1)
  {
    var k := SkipSpaces(s, j + 1);
    if !OccursAt(s, ListStartCmd, k) then None
    else
      var g3 := k + |ListStartCmd|;
      match FindFrom(s, ListEndCmd, g3)
      case None => None
      case Some(e) => Some((g3, e))
  }

  /**
   * The block's tail once group 1 is taken to end at `i1` (where `}{` must
   * follow): `[^}]*` runs to the next `}`, then the item list.
   */
  function BlockTail(s: string, start: nat, g1: nat, i1: nat): (r: Option<(Block, nat)>)
    requires start <= g1 <= i1 && i1 + 2 <= |s|
    ensures r.Some? ==> i1 < r.value.1 <= |s|
    ensures r.Some? ==> r.value.0.header == s[g1..i1] && EndsWith(r.value.0.raw, ListEndCmd)
  {
    var g2 := i1 + 2;
    match IndexOfCharFrom(s, '}', g2)
    case None => None
    case Some(j) =>
      match ItemList(s, j)
      case None => None
      case Some(g) => Some((MatchedBlock(s, start, g1, i1, j, g.0, g.1), g.1 + |ListEndCmd|))
  }

  /** The groups and the whole text of a block match whose list end starts at `e`. */
  function MatchedBlock(s: string, start: nat, g1: nat, i1: nat, j: nat, g3: nat, e: nat): (b: Block)
    requires start <= g1 <= i1 && i1 + 2 <= j < g3 <= e && OccursAt(s, ListEndCmd, e)
    ensures b.header == s[g1..i1] && EndsWith(b.raw, ListEndCmd)
  {
    OccursAtEnd(s, ListEndCmd, start, e);
    Block(s[g1..i1], s[i1 + 2..j], s[g3..e], s[start..e + |ListEndCmd|])
  }

  /** The lazy group 1: the first `}{` at or after `i1` from which the rest of the block matches. */
  function BlockFrom(s: string, start: nat, g1: nat, i1: nat): (r: Option<(Block, nat)>)
    requires start <= g1 <= i1
    ensures r.Some? ==> i1 < r.value.1 <= |s| && EndsWith(r.value.0.raw, ListEndCmd)
    decreases |s| - i1
  {
    if i1 + 2 > |s| then None
    else if s[i1] == '}' && s[i1 + 1] == '{' && BlockTail(s, start, g1, i1).Some? then BlockTail(s, start, g1, i1)
    else BlockFrom(s, start, g1, i1 + 1)
  }

  /** A block match starting at `start`, where the heading command occurs. */
  function BlockAt(s: string, start: nat): (r: Option<(Block, nat)>)
    requires OccursAt(s, HeadingCmd, start)
    ensures r.Some? ==> start < r.value.1 <= |s| && EndsWith(r.value.0.raw, ListEndCmd)
  {
    var p := SkipSpaces(s, start + |HeadingCmd|);
    if p < |s| && s[p] == '{' then BlockFrom(s, start, p + 1, p + 1) else None
  }

  /** `re.finditer(project_pattern, s, re.DOTALL)` from position `i`. */
  function Blocks(s: string, i: nat): (r: seq<Block>)
    ensures forall k :: 0 <= k < |r| ==> EndsWith(r[k].raw, ListEndCmd)
    decreases |s| - i
  {
    match FindFrom(s, HeadingCmd, i)
    case None => []
    case Some(st) =>
      match BlockAt(s, st)
      case Some(m) => [m.0] + Blocks(s, m.1)
      case None => Blocks(s, st + 1)
  }

  // ----------------------------------------------------------- header fields

  /** `\\href{url}{display}` at `i`: the url, the display text and the end of the match. */
  function HrefAt(s: string, i: nat): (r: Option<(string, string, nat)>)
    ensures r.Some? ==> i < r.value.2 <= |s| && s[i] == '\\'
  {
    if !OccursAt(s, HrefOpen, i) then None
    else match IndexOfCharFrom(s, '}', i + |HrefOpen|)
      case None => None
      case Some(j) =>
        if j + 1 >= |s| || s[j + 1] != '{' then None
        else match IndexOfCharFrom(s, '}', j + 2)
          case None => None
          case Some(k) => Some((s[i + |HrefOpen|..j], s[j + 2..k], k + 1))
  }

  /** `re.search(link_pattern, s)`: the url of the first link at or after `i`. */
  function LinkSearch(s: string, i: nat): (r: Option<string>)
    decreases |s| - i
  {
    match FindFrom(s, HrefOpen, i)
    case None => None
    case Some(p) =>
      match HrefAt(s, p)
      case Some(m) => Some(m.0)
      case None => LinkSearch(s, p + 1)
  }

  /** `\\textbf{name}\s*$|$\s*\\emph{techs}` at `p`: the two groups. */
  function HeaderAt(s: string, p: nat): (r: Option<(string, string)>)
    requires OccursAt(s, TextbfOpen, p)
  {
    match IndexOfCharFrom(s, '}', p + |TextbfOpen|)
    case None => None
    case Some(e1) =>
      var q := SkipSpaces(s, e1 + 1);
      if !OccursAt(s, MathBar, q) then None
      else
        var r := SkipSpaces(s, q + |MathBar|);
        if !OccursAt(s, EmphOpen, r) then None
        else match IndexOfCharFrom(s, '}', r + |EmphOpen|)
          case None => None
          case Some(e2) => Some((s[p + |TextbfOpen|..e1], s[r + |EmphOpen|..e2]))
  }

  /** `re.search(header_pattern, s, re.DOTALL)` from position `i`. */
  function HeaderSearch(s: string, i: nat): Option<(string, string)>
    decreases |s| - i
  {
    match FindFrom(s, TextbfOpen, i)
    case None => None
    case Some(p) =>
      match HeaderAt(s, p)
      case Some(g) => Some(g)
      case None => HeaderSearch(s, p + 1)
  }

  /** `re.search(r'\\textbf\{([^}]*)\}', s)`: a failure at one `\textbf{` means no `}` follows, so later ones fail too. */
  function TextbfSearch(s: string): Option<string> {
    match FindFrom(s, TextbfOpen, 0)
    case None => None
    case Some(p) =>
      match IndexOfCharFrom(s, '}', p + |TextbfOpen|)
      case None => None
      case Some(e) => Some(s[p + |TextbfOpen|..e])
  }

  // ------------------------------------------------------------------- items

  /** `re.finditer(r'\\resumeItem\{(.*?)\}', s, re.DOTALL)`: each group runs to the first `}`. */
  function ItemGroups(s: string, i: nat): (r: seq<string>)
    ensures forall k :: 0 <= k < |r| ==> '}' !in r[k]
    decreases |s| - i
  {
    match FindFrom(s, ItemOpen, i)
    case None => []
    case Some(p) =>
      match IndexOfCharFrom(s, '}', p + |ItemOpen|)
      case None => []
      case Some(e) =>
        [s[p + |ItemOpen|..e]] + ItemGroups(s, e + 1)
  }

  /** `re.findall(r'\\resumeItem\{([^}]+)\}', s)`: as above, but an empty group is no match. */
  function FallbackItemGroups(s: string, i: nat): (r: seq<string>)
    decreases |s| - i
  {
    match FindFrom(s, ItemOpen, i)
    case None => []
    case Some(p) =>
      match IndexOfCharFrom(s, '}', p + |ItemOpen|)
      case None => []
      case Some(e) =>
        if e == p + |ItemOpen| then FallbackItemGroups(s, p + 1)
        else [s[p + |ItemOpen|..e]] + FallbackItemGroups(s, e + 1)
  }

  /** The fallback pattern finds nothing whenever the primary item pattern found nothing. */
  lemma FallbackFindsNothing(s: string, i: nat)
    requires ItemGroups(s, i) == []
    ensures FallbackItemGroups(s, i) == []
  {
  }

  // ---------------------------------------------------- cleaning substitutions

  /** One substitution of the cleaner; `HrefRemove` is the link pattern replaced by nothing. */
  datatype Rule = Textbf | Emph | HrefDisplay | Underline | AnyCommand | Math | HrefRemove

  /** A match: the replacement text (group 1, or "" for `HrefRemove`) and where the match ends. */
  datatype Hit = Hit(group: string, end: nat)

  function Trigger(rule: Rule): char {
    if rule == Math then '$' else '\\'
  }

  /** `prefix[^}]*}` at `i`, yielding the text before the `}`. */
  function BracedAt(s: string, open: string, i: nat): (r: Option<Hit>)
    requires |open| > 0
    ensures r.Some? ==> i < r.value.end <= |s| && s[i] == open[0]
  {
    if !OccursAt(s, open, i) then None
    else match IndexOfCharFrom(s, '}', i + |open|)
      case None => None
      case Some(e) => Some(Hit(s[i + |open|..e], e + 1))
  }

  /** `\\[a-zA-Z]+\*?(?:\[[^\]]*\])?\{([^}]*)\}` at `i`; each quantifier is forced, so no backtracking changes the outcome. */
  function CommandAt(s: string, i: nat): (r: Option<Hit>)
    ensures r.Some? ==> i < r.value.end <= |s| && s[i] == '\\'
  {
    if i + 1 >= |s| || s[i] != '\\' || !IsLetter(s[i + 1]) then None
    else
      var p0 := SkipLetters(s, i + 1);
      var p1 := if p0 < |s| && s[p0] == '*' then p0 + 1 else p0;
      var p2 :=
        if p1 < |s| && s[p1] == '[' then
          match IndexOfCharFrom(s, ']', p1 + 1)
          case Some(q) => q + 1
          case None => p1
        else p1;
      if p2 < |s| && s[p2] == '{' then
        match IndexOfCharFrom(s, '}', p2 + 1)
        case None => None
        case Some(e) => Some(Hit(s[p2 + 1..e], e + 1))
      else None
  }

  /** `\$([^$]*)\$` at `i`. */
  function MathAt(s: string, i: nat): (r: Option<Hit>)
    ensures r.Some? ==> i < r.value.end <= |s| && s[i] == '$'
  {
    if i >= |s| || s[i] != '$' then None
    else match IndexOfCharFrom(s, '$', i + 1)
      case None => None
      case Some(e) => Some(Hit(s[i + 1..e], e + 1))
  }

  function MatchAt(rule: Rule, s: string, i: nat): (r: Option<Hit>)
    ensures r.Some? ==> i < r.value.end <= |s| && s[i] == Trigger(rule)
  {
    match rule
    case Textbf => BracedAt(s, TextbfOpen, i)
    case Emph => BracedAt(s, EmphOpen, i)
    case Underline => BracedAt(s, UnderlineOpen, i)
    case HrefDisplay =>
      (match HrefAt(s, i) case Some(m) => Some(Hit(m.1, m.2)) case None => None)
    case HrefRemove =>
      (match HrefAt(s, i) case Some(m) => Some(Hit("", m.2)) case None => None)
    case AnyCommand => CommandAt(s, i)
    case Math => MathAt(s, i)
  }

  /** `re.sub(pattern, r'\1', s)` from position `i`: matches are replaced left to right, other characters copied. */
  function SubFrom(rule: Rule, s: string, i: nat): string
    decreases |s| - i
  {
    if i >= |s| then ""
    else match MatchAt(rule, s, i)
      case Some(h) => h.group + SubFrom(rule, s, h.end)
      case None => [s[i]] + SubFrom(rule, s, i + 1)
  }

  function Sub(rule: Rule, s: string): string {
    SubFrom(rule, s, 0)
  }

  /** A substitution leaves text without its trigger character untouched. */
  lemma {:induction false} SubUntriggered(rule: Rule, s: string, i: nat)
    requires i <= |s|
    requires forall k :: i <= k < |s| ==> s[k] != Trigger(rule)
    ensures SubFrom(rule, s, i) == s[i..]
    decreases |s| - i
  {
    if i < |s| {
      SubUntriggered(rule, s, i + 1);
      assert s[i..] == [s[i]] + s[i + 1..];
    }
  }
}
