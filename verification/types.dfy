/** The records exchanged with the market-data provider and the swap widget.
    Only the fields the modelled logic reads are kept; prices, percentages,
    market caps and volumes are floating point and play no part here. */
module Types {
  import opened Results

  /** One row of the markets listing (`TokenListResponse`). */
  datatype TokenListEntry = TokenListEntry(
    id: string,
    name: string,
    symbol: string,
    image: string,
    market_cap_rank: Option<int>)

  /** The parsed body of a listing response. It is cast to an array without
      validation, so a provider error object arrives as `NotArray`. */
  datatype ListBody = Array(items: seq<TokenListEntry>) | NotArray

  /** One chain's deployment metadata for a token. */
  datatype Platform = Platform(contract_address: string, decimal_place: int)

  /** The parsed body of a coin-detail response. `detail_platforms` is `None`
      when the body has no such field (for instance an error object), in which
      case reading `.base` from it throws. A chain key that is present with a
      `null` value maps to `None`; one that is absent is not in the map. */
  datatype TokenDetail = TokenDetail(detail_platforms: Option<map<string, Option<Platform>>>)

  /** The swap widget's token reference (`Token` of the on-chain kit). */
  datatype Token = Token(
    address: string,
    chainId: int,
    decimals: int,
    name: string,
    symbol: string,
    image: string)
}
