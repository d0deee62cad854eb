/** The external services the pipeline talks to, as abstract functions
    bundled into one context value: the chat-completion client
    (app.py lines 66-73 and 138-145), `json.loads` for each of the two
    response shapes (lines 77 and 149), and the web-search client
    (line 87). A completion is a function of its request, so the model is
    deterministic where the real service is not. */
module Providers {
  import opened Wrappers
  import opened Json

  /** The data embedded in the two prompts; the fixed English instructions
      around it are not modelled. */
  datatype Prompt =
    | ExtractionPrompt(document: string)
    | VerificationPrompt(claim: string, claimType: Value, context: string, evidence: string)

  /** One chat-completion call: model name, sampling temperature, token
      budget and the prompt as the single user message. */
  datatype ChatRequest = ChatRequest(model: string, temperature: real, maxTokens: nat, prompt: Prompt)

  const CompletionModel: string := "llama-3.3-70b-versatile"
  const CompletionTemperature: real := 0.2

  /** One result item of the search service; each field may be absent. */
  datatype SearchHit = SearchHit(url: Option<string>, title: Option<string>, content: Option<string>)

  /** What a search call yields: it raised an exception, or it answered
      with a response that may or may not hold a `results` list. */
  datatype SearchResponse =
    | Raised
    | Answered(results: Option<seq<SearchHit>>)

  /** The services, passed explicitly: `complete` returns the message text
      of the first choice; `parseClaims` and `parseVerdict` are `json.loads`
      on a claim list and on a verdict object, `None` being a decode error;
      `search` takes the query and the result cap. */
  datatype Clients = Clients(
    complete: ChatRequest -> string,
    parseClaims: string -> Option<seq<Record>>,
    parseVerdict: string -> Option<Record>,
    search: (string, nat) -> SearchResponse)
}
