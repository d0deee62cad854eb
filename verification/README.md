# Fact-checker core, modelled in Dafny

`app.py` is a Streamlit application. It reads a PDF, asks a language model
(Groq) to list the factual claims in the document, searches the web
(Tavily) for each claim, asks the model for a verdict on each claim given
the search results, and shows or prints a report. This project models the
pure rules inside that pipeline and proves what they promise:

- **Fence cleaning** (`Fences`). The model's reply is stripped, passed
  through `re.sub(r'```json\s*|\s*```', '', …)`, and stripped again. This
  is modelled as a left-to-right scanner (`StripFences`) between two trims
  (`CleanResponse`). Whitespace is Python's `str.isspace` / regex `\s` over
  code points (`Text.IsSpace`), including the Unicode spaces.
- **Claim extraction** (`Extraction`). Only the first 8000 characters of
  the document reach the prompt. A reply that does not decode gives no
  claims.
- **Search** (`Search`). The query is the claim, a space, and the context.
  A search that raises gives no results.
- **Verification** (`Verification`). The evidence block is built from the
  first five results. Each content is cut to 500 characters, absent fields
  read "N/A", and entries are separated by blank lines. The verdict is
  normalised: "medium" confidence is added when it is missing, and a fixed
  error verdict replaces a reply that does not decode.
- **Orchestration** (`Pipeline`). `process_single_pdf` returns nothing when
  there are no claims. Otherwise it returns one merged row
  `{**claim, **verification}` per claim, in order.
- **Report** (`Report`). Counts of verified, inaccurate and false rows; the
  accuracy and issue percentages; the four-band assessment; and the
  per-row label, where anything other than verified or inaccurate is
  shown as FALSE.

External services are values of the datatype `Providers.Clients`: the chat
completion, the two JSON decoders (a claim list and a verdict object, each
answering `None` on a decode error) and the web search (which may raise).
Every lemma holds for every choice of these functions.

Modules follow the order of the pipeline: `Wrappers`, `Text`, `Fences`,
`Json`, `Providers`, `Extraction`, `Search`, `Verification`, `Pipeline`,
`Report`.

## Model

| member | source | states |
|---|---|---|
| Text.Trim | app.py:73 | `str.strip()`: the result is a slice of the input with only whitespace cut away on either side, and it neither starts nor ends with whitespace |
| Text.TrimUnique | app.py:73 | any split of a string into whitespace, a trimmed middle and whitespace has that middle as its strip |
| Text.TrimIdempotent | app.py:74 | stripping an already stripped reply changes nothing |
| Text.Prefix | app.py:64 | `s[:n]` has length min(len(s), n) and is a prefix of `s` |
| Fences.StripFences | app.py:74 | the fence substitution never lengthens the text |
| Fences.StripWithoutBackticks | app.py:74 | text with no backtick passes through the substitution unchanged |
| Fences.StripOpeningFence | app.py:74 | "```json" is removed together with the whitespace run after it |
| Fences.StripClosingFence | app.py:74 | backtick-free text that does not end in whitespace, followed by a newline and "```", keeps the text and loses the newline and the fence |
| Fences.StripFenced | app.py:74 | the substitution turns "```json\n" + s + "\n```" back into s for trimmed, backtick-free s |
| Fences.CleanResponse | app.py:73-74 | the cleaned reply neither starts nor ends with whitespace |
| Fences.FencedRoundTrip | app.py:145-146 | cleaning "```json\n" + s + "\n```" and cleaning s itself both give s, for trimmed, backtick-free s |
| Fences.CleanWithoutBackticks | app.py:73-74 | for a reply with no backtick, cleaning is exactly a whitespace strip |
| Json.Merge | app.py:318 | `{**claim, **verification}` has the union of the keys; a key of the verification keeps the verification's value, every other key keeps the claim's value |
| Json.MergedFromUnique | app.py:318 | that description determines the merged dictionary completely |
| Extraction.ExtractionRequest | app.py:64-71 | the extraction prompt carries a prefix of the document of length min(len, 8000), the whole document when it is short; the model name and the 4000-token limit |
| Extraction.ExtractClaims | app.py:73-82 | the claims are the decoded cleaned reply; a decode error gives the empty list |
| Extraction.ExtractionSeesOnlyPrefix | app.py:64 | two documents with the same `text[:8000]`, long or short, yield the same claims |
| Extraction.FencedClaimsParseAsBare | app.py:73-77 | a fenced reply decodes to the same claims as the bare JSON inside it |
| Search.Query | app.py:85 | the query is the claim text, one space, then the context |
| Search.QueryInjective | app.py:85 | the claim text and the context can be recovered from the query once the claim's length is known |
| Search.SearchClaim | app.py:84-91 | a search that raises, or answers without `results`, yields no results; a successful answer's `results` are returned unchanged |
| Verification.Digest | app.py:95 | url and title default to "N/A"; the content (default "N/A") is cut to its first 500 characters, left whole when shorter |
| Verification.Rendered | app.py:94-97 | there are min(5, number of results) entries, entry i rendering result i |
| Verification.Join | app.py:94 | `sep.join`: empty for no parts, starting with the first part otherwise |
| Verification.JoinSnoc | app.py:94 | joining one more part appends the separator and that part |
| Verification.EvidenceBlockEmpty | app.py:94-97 | the evidence block is empty exactly when there are no results |
| Verification.EvidenceBlockIgnoresExtraHits | app.py:97 | results after the fifth do not change the evidence block |
| Verification.EvidenceBlockInOrder | app.py:94-97 | the block of the first k+1 results is the block of the first k, a blank line, then entry k |
| Verification.NormaliseVerdict | app.py:148-160 | a decode error gives exactly the error verdict; a decoded verdict keeps every key and value and gains "medium" confidence only when it has none; confidence is always present |
| Verification.NormaliseIdempotent | app.py:150-152 | normalising an already normalised verdict changes nothing |
| Verification.VerifyClaim | app.py:93-160 | every verdict carries a confidence; a reply that does not decode gives the error verdict |
| Verification.VerdictIgnoresExtraHits | app.py:94-97 | the verdict for a list of search results equals the verdict for its first five results |
| Verification.FencedVerdictParsesAsBare | app.py:145-152 | a fenced verdict reply gives the same verdict as the bare JSON inside it |
| Pipeline.CheckClaims | app.py:311-318 | one row per claim, in order; row i is claim i merged with the verdict from claim i's own search results |
| Pipeline.ProcessDocument | app.py:298-324 | no claims gives (None, None) and claims give both values; the text is returned as read; the rows are the in-order merges of the claims and their verdicts, each carrying a confidence |
| Report.CountStatus | app.py:190-192 | a status count never exceeds the number of rows |
| Report.CountStatusCountsRows | app.py:329-331 | each status count equals the number of row positions carrying that status |
| Report.Summarise | app.py:329-334 | the total is the number of rows; each of verified, inaccurate and false is the number of rows with that status; their sum never exceeds the total |
| Report.RateBelowExact | app.py:218-219 | the integer test part·100 < T·total decides exactly whether part/total·100 < T |
| Report.ThresholdsExact | app.py:344-349 | the integer tests at 20, 50 and 80 agree with the exact accuracy rate |
| Report.Assess | app.py:339-351 | the band is the one the exact accuracy rate falls in: below 20 critical, below 50 multiple, below 80 some, otherwise good |
| Report.AssessMonotone | app.py:218-226 | with the same total, more verified rows never give a worse band |
| Report.EmptyRunIsCritical | app.py:339-345 | no rows give accuracy 0 and issue rate 0, which is the critical band |
| Report.RatesWithinHundred | app.py:339-340 | both rates lie in 0..100 and their sum is at most 100 |
| Report.MixedRunHasSomeIssues | app.py:329-349 | verified, verified, inaccurate, false gives 50% accuracy, 50% issues, and the "Some Issues" band |
| Report.StatusLabel | app.py:236-245 | the label is VERIFIED exactly for status "verified", INACCURATE exactly for "inaccurate", FALSE for every other or missing status |
| Report.LabelCounts | app.py:236-245 | VERIFIED and INACCURATE labels match those counts; FALSE labels are all remaining rows, at least as many as the rows with status "false" |
| Report.ErrorRowShownAsFalse | app.py:153-160 | an error verdict is labelled FALSE but counted neither as false nor as verified |

## Left out

- The Streamlit interface, session state, spinners, progress bars and downloads (app.py lines 308-309, 319-323, 326-328 and 352-481; the counts and the assessment chain at lines 329-351 are modelled). They are presentation only.
- The messages the core functions show on the way: `st.error` and `st.code` on a claim decode error (app.py lines 80-81) and `st.warning` on a search error (app.py line 90). They are display side effects; the values returned on those paths are modelled.
- Pipeline.ProcessDocument: its contract is partial correctness. app.py catches no exception from `client.chat.completions.create` (lines 66-71 and 138-143) and does not handle a `None` message content (lines 73 and 145), so a failed completion aborts the whole document there. The model's completion oracle always answers with a string, so that abort is not modelled.
- `get_clients` and the secrets (app.py lines 22-31). They are configuration I/O.
- PDF text extraction (app.py lines 33-38) and the ReportLab layout (app.py lines 162-296), apart from the counts, the band and the row labels. These are foreign libraries.
- The Groq and Tavily calls and `json.loads`. They are fields of `Providers.Clients`. The completion is treated as a function of its request, so the model's nondeterminism is not represented.
- The shape of the Tavily response beyond its `results` list. The search oracle answers either `Raised` (any exception, which app.py turns into no results) or an answer whose `results` entry may be absent.
- Python's `TypeError` when the verdict JSON is not an object (app.py line 150). `parseVerdict` only returns records. Likewise, a claim list that is not a list of objects is outside `parseClaims`.
- Pipeline.ProcessDocument: requires every claim to carry string "claim" and "context" fields and a "type" field, so the `KeyError` the source would raise otherwise (app.py lines 102 and 313-315) is not modelled.
- Floating-point percentages and their `:.1f` formatting. Rates are exact reals, and bands are decided with integer cross-multiplication proved equal to them. Rounding of Python floats at a threshold is not modelled.
- Fences.StripFences: its own contract is only the length bound. Its behaviour is pinned down by StripWithoutBackticks, StripOpeningFence, StripClosingFence and StripFenced. No general equivalence with Python's regex engine is proved.
- Fences.CleanResponse: its own contract says only that the result is trimmed. What it does to fenced and backtick-free replies is the content of FencedRoundTrip and CleanWithoutBackticks.
- Report.CountStatus: its own contract is only the bound. The count itself is characterised by CountStatusCountsRows.
- Verification.Join: its own contract covers only the empty case and the first part. The separator placement is JoinSnoc.
- Verification.VerifyClaim: it states the confidence and the error case. Keeping the decoded keys is NormaliseVerdict's contract, which VerifyClaim applies to the decoded reply.
- The English wording of the prompts. The prompts are modelled only as the data they embed.
- Date-stamped report file names. They depend on the clock.
- app.py has no retries, no minimum claim length, no status coercion, no default `sources` and no empty-evidence short-circuit, so none are modelled.
