/**
 * The deterministic parts of `src/llm_pipeline.py`: the fallback keyword
 * extractor, and how `JSONOutputParser.parse` cuts a model reply down to
 * the text it hands to the JSON decoder.
 */
module LlmPipeline {
  import opened Wrappers
  import opened Text
  import opened Seqs
  import opened Counting

  // ------------------------------------------------ extract_keywords_from_text

  /** The fixed stop words the fallback extractor drops. */
  const StopWords: set<string> := {
    "the", "a", "an", "and", "or", "but", "in", "on", "at", "to", "for", "of", "with", "by",
    "is", "are", "was", "were", "be", "been", "being", "have", "has", "had"
  }

  /** `len(word) > 3 and word not in stop_words`. */
  predicate IsKeyword(w: string) {
    |w| > 3 && w !in StopWords
  }

  /** The `\w+` tokens of the lowercased text that pass the filter, in text order. */
  function KeywordTokens(text: string): (r: seq<string>)
    ensures forall w :: w in r ==> w in WordRuns(Lower(text)) && IsKeyword(w)
  {
    Filter(WordRuns(Lower(text)), IsKeyword)
  }

  /** `extract_keywords_from_text`: the twenty most frequent keyword tokens. */
  function ExtractKeywordsFromText(text: string): seq<string> {
    MostCommonItems(KeywordTokens(text), 20)
  }

  /**
   * At most twenty distinct words, each a `\w+` token of the lowercased
   * text longer than three characters and not a stop word, by count
   * highest first; a token left out occurs no more often than the last
   * word listed.
   */
  lemma KeywordFacts(text: string)
    ensures var r := ExtractKeywordsFromText(text);
      |r| <= 20 && NoDup(r)
    ensures var r := ExtractKeywordsFromText(text);
      forall i :: 0 <= i < |r| ==>
        IsWord(r[i]) && r[i] in WordRuns(Lower(text)) && |r[i]| > 3 && r[i] !in StopWords
    ensures var r := ExtractKeywordsFromText(text);
      forall i, j :: 0 <= i < j < |r| ==> Count(KeywordTokens(text), r[i]) >= Count(KeywordTokens(text), r[j])
  {
    var ks := KeywordTokens(text);
    MostCommonItemsFacts(ks, 20);
    var r := ExtractKeywordsFromText(text);
    forall i | 0 <= i < |r|
      ensures IsWord(r[i]) && r[i] in WordRuns(Lower(text))
    {
      var k :| 0 <= k < |WordRuns(Lower(text))| && WordRuns(Lower(text))[k] == r[i];
    }
  }

  /** Once twenty keywords are listed, any keyword token left out is no more frequent than the twentieth. */
  lemma KeywordsAreTop(text: string, w: string)
    requires w in KeywordTokens(text) && w !in ExtractKeywordsFromText(text)
    ensures |MostCommon(KeywordTokens(text), 20)| == 20
    ensures Count(KeywordTokens(text), w) <= MostCommon(KeywordTokens(text), 20)[19].count
  {
    MostCommonIsTop(KeywordTokens(text), 20, w);
  }

  // ------------------------------------------------ JSONOutputParser.parse

  /**
   * The fence removal of `parse`: strip, then drop a leading "```json",
   * then a leading "```", then a trailing "```", each at most once.
   */
  function StripFences(text: string): (r: string)
    ensures |r| <= |text|
  {
    DropSuffix(DropPrefix(DropPrefix(Strip(text), JsonFence), Fence), Fence)
  }

  /** `s[len(p):] if s.startswith(p) else s`. */
  function DropPrefix(s: string, p: string): (r: string)
    ensures StartsWith(s, p) ==> r == s[|p|..]
    ensures !StartsWith(s, p) ==> r == s
  {
    if StartsWith(s, p) then s[|p|..] else s
  }

  /** `s[:-len(p)] if s.endswith(p) else s`. */
  function DropSuffix(s: string, p: string): (r: string)
    ensures EndsWith(s, p) ==> r == s[..|s| - |p|]
    ensures !EndsWith(s, p) ==> r == s
  {
    if EndsWith(s, p) then s[..|s| - |p|] else s
  }

  /**
   * The text `parse` decodes: the slice from the first '{' through the
   * last '}' when the last lies after the first, otherwise the fence-free
   * text stripped once more.
   */
  function JsonCandidate(text: string): (r: string)
    ensures |r| <= |text|
  {
    BraceSlice(StripFences(text))
  }

  function BraceSlice(t: string): (r: string)
    ensures |r| <= |t|
  {
    match IndexOfChar(t, '{')
    case None => Strip(t)
    case Some(start) =>
      var end := RFindChar(t, '}');
      if end > start then t[start..end + 1] else Strip(t)
  }

  /** The candidate is either the stripped text or a slice that opens with '{' and closes with '}'. */
  lemma BraceSliceShape(t: string)
    ensures var r := BraceSlice(t);
      r == Strip(t) || (|r| >= 2 && r[0] == '{' && r[|r| - 1] == '}')
  {
    match IndexOfChar(t, '{')
    case None =>
    case Some(start) =>
      var end := RFindChar(t, '}');
      if end > start {
        var r := t[start..end + 1];
        assert r[0] == t[start] && r[|r| - 1] == t[end];
      }
  }

  /** A fenced reply "```json" + body + "```" loses exactly its fences. */
  lemma StripFencesJson(body: string)
    requires body == [] || body[0] != '`'
    ensures StripFences(JsonFence + body + Fence) == body
  {
    var text := JsonFence + body + Fence;
    assert text[0] == '`' && text[|text| - 1] == '`';
    StripUnchanged(text);
    assert text[..|JsonFence|] == JsonFence;
    var t1 := DropPrefix(text, JsonFence);
    assert t1 == body + Fence;
    var t2 := DropPrefix(t1, Fence);
    if body == [] {
      assert t2 == [];
    } else {
      assert t1[0] == body[0];
      assert t2 == t1;
      assert t1[|t1| - |Fence|..] == Fence;
      assert t1[..|t1| - |Fence|] == body;
    }
  }

  /** A reply with no fence and no edge whitespace passes the fence removal untouched. */
  lemma StripFencesPlain(text: string)
    requires text == [] || (!IsSpace(text[0]) && !IsSpace(text[|text| - 1]))
    requires !StartsWith(text, Fence) && !EndsWith(text, Fence)
    ensures StripFences(text) == text
  {
    StripUnchanged(text);
    NoJsonFence(text);
  }

  lemma NoJsonFence(text: string)
    requires !StartsWith(text, Fence)
    ensures !StartsWith(text, JsonFence)
  {
    assert JsonFence[..|Fence|] == Fence;
    assert |JsonFence| <= |text| ==> text[..|Fence|] == text[..|JsonFence|][..|Fence|];
  }

  /**
   * An object between text holding no '{' before it and no '}' after it
   * is exactly what gets decoded.
   */
  lemma {:induction false} BraceSliceObject(pre: string, obj: string, post: string)
    requires '{' !in pre && '}' !in post
    requires |obj| >= 2 && obj[0] == '{' && obj[|obj| - 1] == '}'
    ensures BraceSlice(pre + obj + post) == obj
  {
    var t := pre + obj + post;
    assert t[|pre|] == '{';
    match IndexOfChar(t, '{')
    case None =>
      assert false;
    case Some(start) =>
      assert forall k :: 0 <= k < |pre| ==> t[k] == pre[k];
      assert start == |pre|;
      var end := RFindChar(t, '}');
      assert t[|pre| + |obj| - 1] == '}';
      assert forall k :: |pre| + |obj| <= k < |t| ==> t[k] == post[k - |pre| - |obj|];
      assert end == |pre| + |obj| - 1;
      assert t[start..end + 1] == obj;
  }

  /** Without a '{' the candidate is the fence-free text, stripped. */
  lemma BraceSliceNoObject(t: string)
    requires '{' !in t
    ensures BraceSlice(t) == Strip(t)
  {
  }
}
