/** Claim extraction (`extract_claims`, app.py lines 40-82): the first
    8000 characters of the document go into the extraction prompt, the
    completion is cleaned of code fences and decoded as a JSON list of
    claim objects; a decode error yields no claims. */
module Extraction {
  import opened Wrappers
  import opened Text
  import opened Json
  import opened Fences
  import opened Providers

  const DocumentLimit: nat := 8000
  const ExtractionMaxTokens: nat := 4000

  /** The fields a claim object must carry for the pipeline to use it:
      the claim text and its context are read as strings (search query,
      prompt) and its type is embedded in the verification prompt. */
  predicate IsClaimRecord(c: Record) {
    && "claim" in c && c["claim"].Str?
    && "type" in c
    && "context" in c && c["context"].Str?
  }

  function ClaimText(c: Record): string
    requires IsClaimRecord(c)
  {
    c["claim"].s
  }

  function ClaimContext(c: Record): string
    requires IsClaimRecord(c)
  {
    c["context"].s
  }

  /** The extraction call: the prompt embeds `text[:8000]`, so at most 8000
      characters of the document, always a prefix of it, and all of it
      when the document is short enough. */
  function ExtractionRequest(text: string): (req: ChatRequest)
    ensures req.prompt.ExtractionPrompt?
    ensures |req.prompt.document| == Min(|text|, DocumentLimit) <= DocumentLimit
    ensures req.prompt.document == text[..|req.prompt.document|]
    ensures |text| <= DocumentLimit ==> req.prompt.document == text
    ensures req.model == CompletionModel && req.maxTokens == ExtractionMaxTokens
  {
    ChatRequest(CompletionModel, CompletionTemperature, ExtractionMaxTokens, ExtractionPrompt(Prefix(text, DocumentLimit)))
  }

  /** `extract_claims`: the decoded claim list, or no claims at all when
      the cleaned response does not decode; a decoded list is returned
      whole and in the order the model gave it. */
  function ExtractClaims(text: string, clients: Clients): (claims: seq<Record>)
    ensures var parsed := clients.parseClaims(CleanResponse(clients.complete(ExtractionRequest(text))));
      && (parsed.None? ==> claims == [])
      && (parsed.Some? ==> claims == parsed.value)
  {
    match clients.parseClaims(CleanResponse(clients.complete(ExtractionRequest(text))))
    case None => []
    case Some(claims) => claims
  }

  /** Only `text[:8000]` influences which claims are extracted: two
      documents, long or short, with the same such prefix yield the same
      claims. */
  lemma ExtractionSeesOnlyPrefix(text1: string, text2: string, clients: Clients)
    requires Prefix(text1, DocumentLimit) == Prefix(text2, DocumentLimit)
    ensures ExtractClaims(text1, clients) == ExtractClaims(text2, clients)
  {
    assert ExtractionRequest(text1) == ExtractionRequest(text2);
  }

  /** A completion that wraps its JSON answer in a ```` ```json ```` fence
      yields the same claims as one that returns the bare answer. */
  lemma FencedClaimsParseAsBare(text: string, clients: Clients, answer: string)
    requires IsTrimmed(answer) && NoBackticks(answer)
    requires clients.complete(ExtractionRequest(text)) == Fenced(answer)
    ensures ExtractClaims(text, clients) == clients.parseClaims(answer).ValueOr([])
  {
    FencedRoundTrip(answer);
  }
}
