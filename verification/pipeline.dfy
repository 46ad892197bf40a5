/** The two tables side by side, and the flow from the router to what a
    table shows or selects. */
module Pipeline {
  import opened Results
  import opened Types
  import opened Selection
  import Coingecko
  import MemeTable
  import TokenTable

  /** The two copies of the selection logic agree on every click. */
  lemma SelectionCopiesAgree(address: Option<string>, entry: TokenListEntry, detail: Outcome<TokenDetail>)
    ensures MemeTable.SelectToken(entry, detail) == TokenTable.SelectToken(entry, detail)
    ensures MemeTable.HandleTokenSelection(address, entry, detail)
            == TokenTable.HandleTokenSelection(address, entry, detail)
  {
    SelectSpecDeterminate(entry, detail,
      MemeTable.SelectToken(entry, detail), TokenTable.SelectToken(entry, detail));
    HandleSpecDeterminate(address, entry, detail,
      MemeTable.HandleTokenSelection(address, entry, detail),
      TokenTable.HandleTokenSelection(address, entry, detail));
  }

  /** A row click in the paginated table, with the detail taken from the
      selection flow's mutation against the provider `fetchCoin`. */
  function ClickRow(address: Option<string>, entry: TokenListEntry, fetchCoin: string -> Outcome<TokenDetail>): Effect {
    MemeTable.HandleTokenSelection(address, entry, Coingecko.GetTokenByIdQuery(entry.id, fetchCoin))
  }

  /** A click selects a token exactly when a wallet is connected and the
      provider's answer at the row's detail URL has a Base platform; the token
      then carries that platform's address and decimals and chain id 8453. */
  lemma ClickRowSelects(address: Option<string>, entry: TokenListEntry, fetchCoin: string -> Outcome<TokenDetail>)
    ensures ClickRow(address, entry, fetchCoin).selected.Some?
            <==> Connected(address) && HasBase(fetchCoin(Coingecko.DetailUrl(entry.id)))
    ensures ClickRow(address, entry, fetchCoin).selected.Some? ==>
      var p := BasePlatform(fetchCoin(Coingecko.DetailUrl(entry.id)));
      var t := ClickRow(address, entry, fetchCoin).selected.value;
      t == Token(p.contract_address, 8453, p.decimal_place, entry.name, entry.symbol, entry.image)
  {
  }

  /** A failed or non-array listing leaves the paginated table empty, with no
      page buttons, on every page. */
  lemma FailedListingShowsNothing(
    input: Coingecko.GetTokensInput, apiKey: string,
    fetchMarkets: Coingecko.MarketsRequest -> Outcome<ListBody>, currentPage: int)
    requires var answer := fetchMarkets(Coingecko.MarketsRequestFor(input, apiKey));
             answer.Err? || answer.value.NotArray?
    ensures MemeTable.CurrentTokens(Coingecko.GetTokens(input, apiKey, fetchMarkets), currentPage) == []
    ensures MemeTable.PagesOf(Coingecko.GetTokens(input, apiKey, fetchMarkets)) == 0
  {
  }

  /** A `base` entry that is present but `null` gives no callback in either
      table, and no error either: `selectToken` just returns. */
  lemma NullBaseNoCallback(address: Option<string>, entry: TokenListEntry)
    ensures MemeTable.HandleTokenSelection(address, entry, Ok(TokenDetail(Some(map[BasePlatformKey := None])))).selected == None
    ensures TokenTable.HandleTokenSelection(address, entry, Ok(TokenDetail(Some(map[BasePlatformKey := None])))).selected == None
    ensures !MemeTable.HandleTokenSelection(address, entry, Ok(TokenDetail(Some(map[BasePlatformKey := None])))).errorLogged
    ensures !TokenTable.HandleTokenSelection(address, entry, Ok(TokenDetail(Some(map[BasePlatformKey := None])))).errorLogged
  {
  }
}
