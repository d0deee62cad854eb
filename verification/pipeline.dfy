/** Per-document orchestration (`process_single_pdf`, app.py lines
    298-324, without its progress display): extract the claims once; if
    there are none, report nothing; otherwise search and verify each claim
    in turn and keep `{**claim, **verification}` for it, in claim order.
    The loop is stated over the two per-claim steps, so that it is read
    independently of how a search or a verification is carried out;
    `ProcessDocument` plugs in `search_claim` and `verify_claim`. The
    document text arrives as a parameter; reading it from a PDF is not
    part of this model. */
module Pipeline {
  import opened Wrappers
  import opened Json
  import opened Providers
  import opened Extraction
  import opened Search
  import opened Verification

  /** `search_claim(claim_text, context)` and `verify_claim(claim, results)`. */
  type SearchStep = (string, string) -> seq<SearchHit>
  type VerifyStep = (Record, seq<SearchHit>) --> Record

  predicate AllClaimRecords(claims: seq<Record>) {
    forall i :: 0 <= i < |claims| ==> IsClaimRecord(claims[i])
  }

  ghost predicate CanVerify(claims: seq<Record>, search: SearchStep, verify: VerifyStep)
    requires AllClaimRecords(claims)
  {
    forall i :: 0 <= i < |claims| ==> verify.requires(claims[i], search(ClaimText(claims[i]), ClaimContext(claims[i])))
  }

  /** The verdict of one claim: search with its text and context, then
      verify it against what was found. */
  function StepVerdict(claim: Record, search: SearchStep, verify: VerifyStep): Record
    requires IsClaimRecord(claim)
    requires verify.requires(claim, search(ClaimText(claim), ClaimContext(claim)))
  {
    verify(claim, search(ClaimText(claim), ClaimContext(claim)))
  }

  /** `results` holds one row per claim, in claim order; row i has every
      key of claim i's verdict with the verdict's value, and every other
      key of claim i unchanged. */
  ghost predicate CheckedInOrder(claims: seq<Record>, results: seq<Record>, search: SearchStep, verify: VerifyStep)
    requires AllClaimRecords(claims) && CanVerify(claims, search, verify)
  {
    && |results| == |claims|
    && forall i :: 0 <= i < |claims| ==> MergedFrom(results[i], claims[i], StepVerdict(claims[i], search, verify))
  }

  /** The loop of `process_single_pdf` over a non-empty claim list. */
  method CheckClaims(claims: seq<Record>, search: SearchStep, verify: VerifyStep) returns (results: seq<Record>)
    requires AllClaimRecords(claims) && CanVerify(claims, search, verify)
    ensures CheckedInOrder(claims, results, search, verify)
  {
    results := [];
    var i := 0;
    while i < |claims|
      invariant 0 <= i <= |claims|
      invariant |results| == i
      invariant forall j :: 0 <= j < i ==> MergedFrom(results[j], claims[j], StepVerdict(claims[j], search, verify))
    {
      var claim := claims[i];
      var hits := search(ClaimText(claim), ClaimContext(claim));
      var verification := verify(claim, hits);
      results := results + [Merge(claim, verification)];
      i := i + 1;
    }
  }

  /** The per-claim steps of the application. */
  function SearchWith(clients: Clients): SearchStep {
    (claimText, context) => SearchClaim(claimText, context, clients)
  }

  function VerifyWith(clients: Clients): VerifyStep {
    (claim, hits) requires IsClaimRecord(claim) => VerifyClaim(claim, hits, clients)
  }

  /** `process_single_pdf`: `(None, None)` when no claims were extracted
      (including when the claim list did not decode), otherwise the text
      and one checked row per claim. The source reads the claim text and
      context of every claim, so it needs every extracted claim to carry
      them. Every row carries a confidence, since every verdict does. */
  method ProcessDocument(text: string, clients: Clients) returns (document: Option<string>, results: Option<seq<Record>>)
    requires AllClaimRecords(ExtractClaims(text, clients))
    ensures |ExtractClaims(text, clients)| == 0 <==> document.None?
    ensures |ExtractClaims(text, clients)| == 0 <==> results.None?
    ensures document.Some? ==> document.value == text
    ensures results.Some? ==> CheckedInOrder(ExtractClaims(text, clients), results.value, SearchWith(clients), VerifyWith(clients))
    ensures results.Some? ==> forall i :: 0 <= i < |results.value| ==> "confidence" in results.value[i]
  {
    var claims := ExtractClaims(text, clients);
    if |claims| == 0 {
      return None, None;
    }
    var rows := CheckClaims(claims, SearchWith(clients), VerifyWith(clients));
    forall i | 0 <= i < |rows|
      ensures "confidence" in rows[i]
    {
      assert "confidence" in StepVerdict(claims[i], SearchWith(clients), VerifyWith(clients));
    }
    return Some(text), Some(rows);
  }
}
