/** Claim verification (`verify_claim`, app.py lines 93-160): the first
    five search results are formatted into an evidence block, the claim and
    the block go into the verification prompt, and the cleaned completion
    is decoded as a verdict object. A decoded verdict without a
    `confidence` gets `"medium"`; a decode error gives a fixed error
    verdict instead of raising. */
module Verification {
  import opened Wrappers
  import opened Text
  import opened Json
  import opened Fences
  import opened Providers
  import opened Extraction

  const EvidenceLimit: nat := 5
  const SnippetLimit: nat := 500
  const Missing: string := "N/A"
  const Separator: string := "\n\n"
  const VerificationMaxTokens: nat := 1500

  /** One search result as it is shown to the model. */
  datatype Evidence = Evidence(source: string, title: string, snippet: string)

  /** `r.get('url', 'N/A')`, `r.get('title', 'N/A')` and
      `r.get('content', 'N/A')[:500]`: absent fields read as "N/A" and the
      content is cut to its first 500 characters. */
  function Digest(h: SearchHit): (e: Evidence)
    ensures e.source == h.url.ValueOr(Missing) && e.title == h.title.ValueOr(Missing)
    ensures var body := h.content.ValueOr(Missing);
      && |e.snippet| == Min(|body|, SnippetLimit) <= SnippetLimit
      && e.snippet == body[..|e.snippet|]
      && (|body| <= SnippetLimit ==> e.snippet == body)
  {
    Evidence(h.url.ValueOr(Missing), h.title.ValueOr(Missing), Prefix(h.content.ValueOr(Missing), SnippetLimit))
  }

  function Render(e: Evidence): string {
    "Source: " + e.source + "\nTitle: " + e.title + "\nContent: " + e.snippet
  }

  /** The formatted entries of `search_results[:5]`: one per result, at
      most five, in the order of the results. */
  function Rendered(hits: seq<SearchHit>): (entries: seq<string>)
    ensures |entries| == Min(|hits|, EvidenceLimit)
    ensures forall i :: 0 <= i < |entries| ==> entries[i] == Render(Digest(hits[i]))
  {
    var n := Min(|hits|, EvidenceLimit);
    seq(n, i requires 0 <= i < n => Render(Digest(hits[i])))
  }

  /** Python's `sep.join(parts)`. */
  function Join(sep: string, parts: seq<string>): (r: string)
    ensures |parts| == 0 ==> r == []
    ensures |parts| > 0 ==> StartsWith(r, parts[0])
    decreases |parts|
  {
    if |parts| == 0 then []
    else if |parts| == 1 then parts[0]
    else parts[0] + sep + Join(sep, parts[1..])
  }

  /** Joining one more part appends the separator and that part. */
  lemma {:induction false} JoinSnoc(sep: string, parts: seq<string>, last: string)
    requires |parts| > 0
    ensures Join(sep, parts + [last]) == Join(sep, parts) + sep + last
    decreases |parts|
  {
    var all := parts + [last];
    if |parts| == 1 {
      assert all[1..] == [last];
    } else {
      assert all[1..] == parts[1..] + [last];
      JoinSnoc(sep, parts[1..], last);
    }
  }

  /** `results_text`: the rendered entries separated by blank lines. */
  function EvidenceBlock(hits: seq<SearchHit>): string {
    Join(Separator, Rendered(hits))
  }

  /** The block is empty exactly when the search found nothing. */
  lemma EvidenceBlockEmpty(hits: seq<SearchHit>)
    ensures EvidenceBlock(hits) == [] <==> |hits| == 0
  {
    if |hits| > 0 {
      var entries := Rendered(hits);
      assert |entries[0]| > 0;
      assert |EvidenceBlock(hits)| >= |entries[0]|;
    }
  }

  /** Results after the fifth never reach the prompt. */
  lemma EvidenceBlockIgnoresExtraHits(hits: seq<SearchHit>)
    ensures EvidenceBlock(hits) == EvidenceBlock(hits[..Min(|hits|, EvidenceLimit)])
  {
    assert Rendered(hits) == Rendered(hits[..Min(|hits|, EvidenceLimit)]);
  }

  /** The block of the first k+1 results is the block of the first k, a
      blank line, and the entry of result k: the entries appear in the
      order of the results, separated by blank lines. */
  lemma EvidenceBlockInOrder(hits: seq<SearchHit>, k: nat)
    requires 0 < k < Min(|hits|, EvidenceLimit)
    ensures EvidenceBlock(hits[..k + 1]) == EvidenceBlock(hits[..k]) + Separator + Render(Digest(hits[k]))
  {
    assert Rendered(hits[..k + 1]) == Rendered(hits[..k]) + [Render(Digest(hits[k]))];
    JoinSnoc(Separator, Rendered(hits[..k]), Render(Digest(hits[k])));
  }

  /** The verification call: the claim text, its type and context, and
      the evidence block of the search results. */
  function VerificationRequest(claim: Record, hits: seq<SearchHit>): ChatRequest
    requires IsClaimRecord(claim)
  {
    ChatRequest(CompletionModel, CompletionTemperature, VerificationMaxTokens,
      VerificationPrompt(ClaimText(claim), claim["type"], ClaimContext(claim), EvidenceBlock(hits)))
  }

  /** The dictionary returned when the verdict does not decode. */
  const ErrorVerdict: Record := map[
    "status" := Str("error"),
    "explanation" := Str("Could not verify claim"),
    "correct_info" := Str(""),
    "confidence" := Str("low"),
    "sources" := Arr([])]

  const DefaultConfidence: Value := Str("medium")

  /** The `try`/`except` around `json.loads` of the verdict: a decode error
      gives the error verdict; a decoded verdict keeps every key and value
      it has and gains `confidence = "medium"` only when it has no
      confidence of its own. Every outcome carries a confidence. */
  function NormaliseVerdict(parsed: Option<Record>): (v: Record)
    ensures "confidence" in v
    ensures parsed.None? ==> v == ErrorVerdict
    ensures parsed.Some? ==> v.Keys == parsed.value.Keys + {"confidence"}
    ensures parsed.Some? ==> forall k :: k in parsed.value ==> v[k] == parsed.value[k]
    ensures parsed.Some? && "confidence" !in parsed.value ==> v["confidence"] == DefaultConfidence
  {
    match parsed
    case None => ErrorVerdict
    case Some(result) =>
      if "confidence" !in result then result["confidence" := DefaultConfidence] else result
  }

  /** Normalising a normalised verdict again changes nothing. */
  lemma NormaliseIdempotent(parsed: Option<Record>)
    ensures NormaliseVerdict(Some(NormaliseVerdict(parsed))) == NormaliseVerdict(parsed)
  {
  }

  /** `verify_claim`. */
  function VerifyClaim(claim: Record, hits: seq<SearchHit>, clients: Clients): (v: Record)
    requires IsClaimRecord(claim)
    ensures "confidence" in v
    ensures clients.parseVerdict(CleanResponse(clients.complete(VerificationRequest(claim, hits)))).None? ==> v == ErrorVerdict
  {
    NormaliseVerdict(clients.parseVerdict(CleanResponse(clients.complete(VerificationRequest(claim, hits)))))
  }

  /** The verdict depends on the first five search results only. */
  lemma VerdictIgnoresExtraHits(claim: Record, hits: seq<SearchHit>, clients: Clients)
    requires IsClaimRecord(claim)
    ensures VerifyClaim(claim, hits, clients) == VerifyClaim(claim, hits[..Min(|hits|, EvidenceLimit)], clients)
  {
    EvidenceBlockIgnoresExtraHits(hits);
  }

  /** A verdict wrapped in a ```` ```json ```` fence is read exactly as the
      bare verdict would be. */
  lemma FencedVerdictParsesAsBare(claim: Record, hits: seq<SearchHit>, clients: Clients, answer: string)
    requires IsClaimRecord(claim)
    requires IsTrimmed(answer) && NoBackticks(answer)
    requires clients.complete(VerificationRequest(claim, hits)) == Fenced(answer)
    ensures VerifyClaim(claim, hits, clients) == NormaliseVerdict(clients.parseVerdict(answer))
  {
    FencedRoundTrip(answer);
  }
}
