/** `TokenTable`: the library-paginated table. Its row click runs its own
    copy of the selection logic; its rank column sorts by `market_cap_rank`. */
module TokenTable {
  import opened Results
  import opened Types
  import opened Selection

  /** `selectToken` as written in this component. */
  function SelectToken(tokenListResponse: TokenListEntry, tokenData: Outcome<TokenDetail>): (s: Settled)
    ensures SelectSpec(tokenListResponse, tokenData, s)
  {
    match tokenData
    case Err => Threw
    case Ok(detail) =>
      match detail.detail_platforms
      case None => Threw
      case Some(platforms) =>
        if BasePlatformKey !in platforms then Returned(None)
        else
          match platforms[BasePlatformKey]
          case None => Returned(None)
          case Some(baseToken) =>
            Returned(Some(Token(
              address := baseToken.contract_address,
              chainId := 8453,
              decimals := baseToken.decimal_place,
              name := tokenListResponse.name,
              symbol := tokenListResponse.symbol,
              image := tokenListResponse.image)))
  }

  /** `handleTokenSelection` as written in this component. */
  function HandleTokenSelection(address: Option<string>, token: TokenListEntry, tokenData: Outcome<TokenDetail>): (e: Effect)
    ensures HandleSpec(address, token, tokenData, e)
  {
    if !Connected(address) then Effect(None, None, true, false)
    else
      var settled := SelectToken(token, tokenData);
      Effect(Some(token.id), if settled.Returned? then settled.selected else None, false, settled.Threw?)
  }

  /** `market_cap_rank ?? 0`. */
  function Rank(e: TokenListEntry): (r: int)
    ensures e.market_cap_rank.None? ==> r == 0
    ensures e.market_cap_rank.Some? ==> r == e.market_cap_rank.value
  {
    e.market_cap_rank.GetOr(0)
  }

  /** The rank column's comparator; its sign orders rows by rank, missing
      ranks counting as 0. */
  function RankSorter(a: TokenListEntry, b: TokenListEntry): (r: int)
    ensures r < 0 <==> Rank(a) < Rank(b)
    ensures r == 0 <==> Rank(a) == Rank(b)
    ensures r > 0 <==> Rank(a) > Rank(b)
  {
    Rank(a) - Rank(b)
  }

  /** Swapping the rows negates the comparison. */
  lemma RankSorterAntisymmetric(a: TokenListEntry, b: TokenListEntry)
    ensures RankSorter(a, b) == -RankSorter(b, a)
  {
  }

  /** Two unranked rows compare equal, and an unranked row compares like rank 0. */
  lemma RankSorterMissing(a: TokenListEntry, b: TokenListEntry)
    ensures a.market_cap_rank.None? && b.market_cap_rank.None? ==> RankSorter(a, b) == 0
    ensures a.market_cap_rank.None? ==>
      RankSorter(a, b) == RankSorter(a.(market_cap_rank := Some(0)), b)
  {
  }

  /** "Sorts no later than" is transitive, so the comparator is consistent. */
  lemma RankSorterTransitive(a: TokenListEntry, b: TokenListEntry, c: TokenListEntry)
    requires RankSorter(a, b) <= 0 && RankSorter(b, c) <= 0
    ensures RankSorter(a, c) <= 0
  {
  }
}
