/** The market-data router: the markets listing query with its request
    defaults and catch-to-empty policy, and the two coin-detail mutations,
    which let every failure propagate.

    The provider is a parameter: a function from the request to the outcome of
    fetching it and parsing its body as JSON. */
module Coingecko {
  import opened Results
  import opened Types
  import Decimal

  const CoinsEndpoint: string := "https://api.coingecko.com/api/v3/coins/"
  const MarketsEndpoint: string := "https://api.coingecko.com/api/v3/coins/markets"
  const AcceptJson: string := "application/json"

  /** Query parameters in the order the listing request sends them. */
  const QueryKeys: seq<string> :=
    ["vs_currency", "category", "order", "sparkline", "page", "per_page", "x_cg_demo_api_key"]

  /** The optional input of `getTokens`. */
  datatype GetTokensInput = GetTokensInput(
    sparkline: Option<bool>,
    page: Option<int>,
    perPage: Option<int>)

  /** Query parameters as name/value pairs, in the order they are sent. */
  type Query = seq<(string, string)>

  /** The outbound listing request: endpoint, ordered query, `accept` header. */
  datatype MarketsRequest = MarketsRequest(
    endpoint: string,
    query: Query,
    accept: string)

  function Keys(q: Query): (ks: seq<string>)
    ensures |ks| == |q|
    ensures forall i :: 0 <= i < |q| ==> ks[i] == q[i].0
  {
    seq(|q|, i requires 0 <= i < |q| => q[i].0)
  }

  /** The value of the first parameter named `key`, as `URLSearchParams.get` reads it. */
  function Lookup(q: Query, key: string): Option<string>
    decreases |q|
  {
    if q == [] then None
    else if q[0].0 == key then Some(q[0].1)
    else Lookup(q[1..], key)
  }

  predicate DistinctKeys(q: Query) {
    forall i, j :: 0 <= i < j < |q| ==> q[i].0 != q[j].0
  }

  /** In a query without repeated names, each parameter is found under its own name. */
  lemma {:induction false} LookupAt(q: Query, i: nat)
    requires DistinctKeys(q)
    requires i < |q|
    ensures Lookup(q, q[i].0) == Some(q[i].1)
    decreases i
  {
    if i > 0 {
      assert q[0].0 != q[i].0;
      assert q[1..][i - 1] == q[i];
      LookupAt(q[1..], i - 1);
    }
  }

  /** A name that no parameter carries is not found. */
  lemma {:induction false} LookupAbsent(q: Query, key: string)
    requires forall i :: 0 <= i < |q| ==> q[i].0 != key
    ensures Lookup(q, key) == None
    decreases |q|
  {
    if q != [] {
      assert forall i :: 0 <= i < |q[1..]| ==> q[1..][i].0 == q[i + 1].0;
      LookupAbsent(q[1..], key);
    }
  }

  /** The `URLSearchParams` of `getTokens`: three fixed filters, three
      defaulted options and the configured API key, in that order. */
  function MarketsQuery(input: GetTokensInput, apiKey: string): (q: Query)
    ensures Keys(q) == QueryKeys
    ensures DistinctKeys(q)
    ensures q[6] == ("x_cg_demo_api_key", apiKey)
  {
    [ ("vs_currency", "usd"),
      ("category", "meme-token"),
      ("order", "market_cap_desc"),
      ("sparkline", Decimal.BoolToString(input.sparkline.GetOr(true))),
      ("page", Decimal.IntToString(input.page.GetOr(1))),
      ("per_page", Decimal.IntToString(input.perPage.GetOr(100))),
      ("x_cg_demo_api_key", apiKey) ]
  }

  /** The `fetch` of `getTokens`: the markets endpoint with the query, asking
      for a JSON answer. */
  function MarketsRequestFor(input: GetTokensInput, apiKey: string): (req: MarketsRequest)
    ensures req.endpoint == MarketsEndpoint
    ensures req.query == MarketsQuery(input, apiKey)
    ensures req.accept == AcceptJson
  {
    MarketsRequest(MarketsEndpoint, MarketsQuery(input, apiKey), AcceptJson)
  }

  /** Whatever the input, the listing is filtered to meme tokens quoted in USD,
      ordered by descending market cap, and authenticated with the API key. */
  lemma FixedParameters(input: GetTokensInput, apiKey: string)
    ensures Lookup(MarketsQuery(input, apiKey), "vs_currency") == Some("usd")
    ensures Lookup(MarketsQuery(input, apiKey), "category") == Some("meme-token")
    ensures Lookup(MarketsQuery(input, apiKey), "order") == Some("market_cap_desc")
    ensures Lookup(MarketsQuery(input, apiKey), "x_cg_demo_api_key") == Some(apiKey)
  {
    var q := MarketsQuery(input, apiKey);
    LookupAt(q, 0);
    LookupAt(q, 1);
    LookupAt(q, 2);
    LookupAt(q, 6);
  }

  /** The query carries no parameter beyond the seven it names. */
  lemma NoOtherParameters(input: GetTokensInput, apiKey: string, key: string)
    requires key !in QueryKeys
    ensures Lookup(MarketsQuery(input, apiKey), key) == None
  {
    var q := MarketsQuery(input, apiKey);
    assert forall i :: 0 <= i < |q| ==> q[i].0 == QueryKeys[i];
    LookupAbsent(q, key);
  }

  /** Omitted options take their defaults: `sparkline=true`, `page=1`, `per_page=100`. */
  lemma DefaultOptions(apiKey: string)
    ensures Lookup(MarketsQuery(GetTokensInput(None, None, None), apiKey), "sparkline") == Some("true")
    ensures Lookup(MarketsQuery(GetTokensInput(None, None, None), apiKey), "page") == Some("1")
    ensures Lookup(MarketsQuery(GetTokensInput(None, None, None), apiKey), "per_page") == Some("100")
  {
    var q := MarketsQuery(GetTokensInput(None, None, None), apiKey);
    LookupAt(q, 3);
    LookupAt(q, 4);
    LookupAt(q, 5);
    Decimal.DefaultTexts();
  }

  /** A supplied option reaches the provider unmodified: its text reads back
      as exactly the value given, whatever it is (zero and negatives included). */
  lemma SuppliedOptionsPassThrough(input: GetTokensInput, apiKey: string)
    ensures input.sparkline.Some? ==>
      && Lookup(MarketsQuery(input, apiKey), "sparkline").Some?
      && Decimal.ParseBool(Lookup(MarketsQuery(input, apiKey), "sparkline").value) == input.sparkline
    ensures input.page.Some? ==>
      && Lookup(MarketsQuery(input, apiKey), "page").Some?
      && Decimal.ParseInt(Lookup(MarketsQuery(input, apiKey), "page").value) == input.page
    ensures input.perPage.Some? ==>
      && Lookup(MarketsQuery(input, apiKey), "per_page").Some?
      && Decimal.ParseInt(Lookup(MarketsQuery(input, apiKey), "per_page").value) == input.perPage
  {
    var q := MarketsQuery(input, apiKey);
    LookupAt(q, 3);
    LookupAt(q, 4);
    LookupAt(q, 5);
    Decimal.IntRoundTrip(input.page.GetOr(1));
    Decimal.IntRoundTrip(input.perPage.GetOr(100));
  }

  /** `getTokens`: one listing request; any failure of the fetch or of parsing
      its body is caught and answered with an empty array. A parsed body is
      returned as it came, without checking that it is an array. */
  function GetTokens(
    input: GetTokensInput,
    apiKey: string,
    fetchMarkets: MarketsRequest -> Outcome<ListBody>): (r: ListBody)
    ensures fetchMarkets(MarketsRequestFor(input, apiKey)).Err? ==> r == Array([])
    ensures fetchMarkets(MarketsRequestFor(input, apiKey)).Ok? ==>
      r == fetchMarkets(MarketsRequestFor(input, apiKey)).value
  {
    match fetchMarkets(MarketsRequestFor(input, apiKey))
    case Ok(body) => body
    case Err => Array([])
  }

  /** The coin-detail URL: the coins endpoint followed by the id, uninterpreted. */
  function DetailUrl(id: string): (url: string)
    ensures |url| == |CoinsEndpoint| + |id|
    ensures url[..|CoinsEndpoint|] == CoinsEndpoint
    ensures url[|CoinsEndpoint|..] == id
  {
    CoinsEndpoint + id
  }

  /** Distinct ids are asked for at distinct URLs. */
  lemma DetailUrlInjective(a: string, b: string)
    requires DetailUrl(a) == DetailUrl(b)
    ensures a == b
  {
  }

  /** `getTokenById`: fetch and parse the detail; no catch, so a failure
      reaches the caller as it is. */
  function GetTokenById(id: string, fetchCoin: string -> Outcome<TokenDetail>): (r: Outcome<TokenDetail>)
    ensures fetchCoin(DetailUrl(id)).Err? ==> r.Err?
    ensures fetchCoin(DetailUrl(id)).Ok? ==> r == fetchCoin(DetailUrl(id))
  {
    fetchCoin(DetailUrl(id))
  }

  /** `getTokenByIdQuery`: the mutation the selection flow calls; it has the
      same body as `getTokenById`. */
  function GetTokenByIdQuery(id: string, fetchCoin: string -> Outcome<TokenDetail>): (r: Outcome<TokenDetail>)
    ensures fetchCoin(DetailUrl(id)).Err? ==> r.Err?
    ensures fetchCoin(DetailUrl(id)).Ok? ==> r == fetchCoin(DetailUrl(id))
  {
    fetchCoin(DetailUrl(id))
  }

  /** The two detail mutations request the same URL and yield the same outcome. */
  lemma DetailEndpointsAgree(id: string, fetchCoin: string -> Outcome<TokenDetail>)
    ensures GetTokenById(id, fetchCoin) == GetTokenByIdQuery(id, fetchCoin)
  {
  }
}
