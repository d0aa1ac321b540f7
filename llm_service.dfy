/**
 * The deterministic parts of `backend/app/services/llm_service.py`: which
 * chat back end a service uses, how a reply is cut down to the JSON
 * payload, and the default of `extract_keywords`.
 */
module LlmService {
  import opened Wrappers
  import opened Text

  /** The two chat back ends. */
  datatype Backend = Groq | Ollama

  /**
   * `provider or os.getenv("LLM_PROVIDER", "groq")`: a non-empty argument
   * wins, then the environment variable when it is set (even to ""), then
   * "groq".
   */
  function SelectProvider(provider: Option<string>, envProvider: Option<string>): (r: string)
    ensures r == "" ==> envProvider == Some("")
  {
    if provider.Some? && provider.value != "" then provider.value
    else envProvider.GetOr("groq")
  }

  /** `_call_llm`: Groq for "groq", Ollama for any other provider name. */
  function Dispatch(provider: string): (b: Backend)
    ensures b == Groq <==> provider == "groq"
  {
    if provider == "groq" then Groq else Ollama
  }

  /**
   * A service talks to Groq exactly when the argument is "groq", or when
   * there is no usable argument and the environment names "groq" or is
   * unset.
   */
  lemma DispatchOfSelection(provider: Option<string>, envProvider: Option<string>)
    ensures Dispatch(SelectProvider(provider, envProvider)) == Groq <==>
      if provider.Some? && provider.value != "" then provider.value == "groq"
      else envProvider.None? || envProvider.value == "groq"
  {
  }

  /**
   * The fence handling of `_extract_json` on the stripped reply: the piece
   * after the first "```json" up to the next "```"; failing that, the piece
   * between the first two "```"; failing that, the whole reply.
   */
  function FencePayload(r: string): string {
    if Contains(r, JsonFence) then SplitStr(SplitStr(r, JsonFence)[1], Fence)[0]
    else if Contains(r, Fence) then SplitStr(SplitStr(r, Fence)[1], Fence)[0]
    else r
  }

  /** The text `_extract_json` hands to the JSON decoder. */
  function ExtractJsonPayload(response: string): (r: string)
    ensures r == [] || (!IsSpace(r[0]) && !IsSpace(r[|r| - 1]))
  {
    Strip(FencePayload(Strip(response)))
  }

  /** A reply with no fence is decoded as it is, stripped. */
  lemma PayloadWithoutFence(response: string)
    requires '`' !in response
    ensures ExtractJsonPayload(response) == Strip(response)
  {
    FindAbsent(Strip(response), JsonFence);
    FindAbsent(Strip(response), Fence);
    StripUnchanged(Strip(response));
  }

  /**
   * In `pre` "```json" `body` "```" `post`, with no backtick in `pre` or
   * `body` and none opening `post`, the payload is `body`.
   */
  lemma JsonFencedPayload(pre: string, body: string, post: string)
    requires '`' !in pre && '`' !in body && (post == [] || post[0] != '`')
    ensures FencePayload(pre + JsonFence + body + Fence + post) == body
  {
    var after := body + Fence + post;
    assert JsonFence[0] == '`';
    SplitStrAfter(pre, JsonFence, after);
    assert pre + JsonFence + body + Fence + post == pre + JsonFence + after;
    BodyBeforeFence(body, post);
  }

  /** Up to a "```json" or not, `body` "```" `post` reads `body` before its first "```". */
  lemma BodyBeforeFence(body: string, post: string)
    requires '`' !in body && (post == [] || post[0] != '`')
    ensures SplitStr(SplitStr(body + Fence + post, JsonFence)[0], Fence)[0] == body
  {
    var after := body + Fence + post;
    FindAfter(body, Fence, Fence + post);
    assert body + (Fence + post) == after;
    match Find(after, JsonFence)
    case None =>
      assert SplitStr(after, JsonFence)[0] == after;
    case Some(q) =>
      assert SplitStr(after, JsonFence)[0] == after[..q];
      PieceBeforeNextJsonFence(body, post, q);
  }

  /** A later "```json" in `body` "```" `post` leaves `body` as the text before the first "```". */
  lemma PieceBeforeNextJsonFence(body: string, post: string, q: nat)
    requires '`' !in body && (post == [] || post[0] != '`')
    requires OccursAt(body + Fence + post, JsonFence, q)
    ensures SplitStr((body + Fence + post)[..q], Fence)[0] == body
  {
    var after := body + Fence + post;
    var piece := after[..q];
    var m := after[q..q + |JsonFence|];
    assert m[0] == after[q] && m[1] == after[q + 1] && m[2] == after[q + 2];
    assert forall k :: 0 <= k < |body| ==> after[k] == body[k];
    assert |body| + |Fence| < |after| ==> after[|body| + |Fence|] == post[0];
    assert q == |body| || q >= |body| + |Fence|;
    if q == |body| {
      assert piece == body;
      FindAbsent(body, Fence);
    } else {
      assert piece == body + piece[|body|..];
      assert piece[|body|..][..|Fence|] == Fence;
      FindAfter(body, Fence, piece[|body|..]);
    }
  }

  /**
   * In `pre` "```" `body` "```" `post`, with no backtick in any part and
   * no "```json" anywhere, the payload is `body`.
   */
  lemma FencedPayload(pre: string, body: string, post: string)
    requires '`' !in pre && '`' !in body && '`' !in post
    requires !Contains(pre + Fence + body + Fence + post, JsonFence)
    ensures FencePayload(pre + Fence + body + Fence + post) == body
  {
    FencedParts(pre, body, post);
    PlainFenceBranch(pre + Fence + body + Fence + post);
  }

  /** The text between the first two "```" of `pre` "```" `body` "```" `post`. */
  lemma FencedParts(pre: string, body: string, post: string)
    requires '`' !in pre && '`' !in body
    ensures var r := pre + Fence + body + Fence + post;
      Contains(r, Fence) && SplitStr(SplitStr(r, Fence)[1], Fence)[0] == body
  {
    var after := body + Fence + post;
    assert pre + Fence + body + Fence + post == pre + Fence + after;
    SplitStrAfter(pre, Fence, after);
    assert after == body + (Fence + post);
    SplitStrFirst(body, Fence, Fence + post);
  }

  /** Without "```json" but with "```", the payload is the text between the first "```" and the next. */
  lemma PlainFenceBranch(r: string)
    requires !Contains(r, JsonFence) && Contains(r, Fence)
    ensures FencePayload(r) == SplitStr(SplitStr(r, Fence)[1], Fence)[0]
  {
  }

  /** With a single "```" the payload is everything after it. */
  lemma OpenFencePayload(pre: string, rest: string)
    requires '`' !in pre && '`' !in rest
    requires !Contains(pre + Fence + rest, JsonFence)
    ensures FencePayload(pre + Fence + rest) == rest
  {
    SplitStrAfter(pre, Fence, rest);
    FindAbsent(rest, Fence);
  }

  /** `result.get("keywords", [])` on the decoded reply, as a map from field names to keyword lists. */
  function KeywordsField(decoded: map<string, seq<string>>): (r: seq<string>)
    ensures "keywords" !in decoded ==> r == []
    ensures "keywords" in decoded ==> r == decoded["keywords"]
  {
    if "keywords" in decoded then decoded["keywords"] else []
  }
}
