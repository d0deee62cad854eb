/** Evidence retrieval (`search_claim`, app.py lines 84-91): the query is
    the claim text and its context joined by a space, at most five results
    are requested, and any failure of the search service is absorbed into
    an empty result list. */
module Search {
  import opened Wrappers
  import opened Providers

  const MaxResults: nat := 5

  /** `f"{claim_text} {context}"`: the claim text, one space, then the
      context, each intact and in that order. */
  function Query(claimText: string, context: string): (q: string)
    ensures |q| == |claimText| + 1 + |context|
    ensures q[..|claimText|] == claimText
    ensures q[|claimText|] == ' '
    ensures q[|claimText| + 1..] == context
  {
    claimText + " " + context
  }

  /** For a fixed claim the query tells contexts apart, and for a fixed
      context it tells claims of equal length apart. */
  lemma QueryInjective(c1: string, x1: string, c2: string, x2: string)
    requires |c1| == |c2|
    requires Query(c1, x1) == Query(c2, x2)
    ensures c1 == c2 && x1 == x2
  {
    var q := Query(c1, x1);
    assert c1 == q[..|c1|] == c2;
    assert x1 == q[|c1| + 1..] == x2;
  }

  /** `search_claim`: the results the service answered with; a raised
      exception or a response without a `results` entry gives none; a
      successful response's `results` are returned as they are. */
  function SearchClaim(claimText: string, context: string, clients: Clients): (hits: seq<SearchHit>)
    ensures var response := clients.search(Query(claimText, context), MaxResults);
      && (response.Raised? ==> hits == [])
      && (response == Answered(None) ==> hits == [])
      && (response.Answered? && response.results.Some? ==> hits == response.results.value)
    ensures hits != [] ==> clients.search(Query(claimText, context), MaxResults) == Answered(Some(hits))
  {
    match clients.search(Query(claimText, context), MaxResults)
    case Raised => []
    case Answered(results) => results.ValueOr([])
  }
}
