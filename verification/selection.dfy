/** What a click on a listing row must do, stated once, independently of the
    two table components that implement it.

    A click is gated on a connected wallet; it asks the detail mutation for the
    row's id, looks up the `base` platform of the answer and hands the widget
    a token on chain 8453 built from that platform and the row. */
module Selection {
  import opened Results
  import opened Types

  /** Chain id of Base mainnet, the only chain the swap widget is given. */
  const BaseChainId: int := 8453

  /** The key of the Base deployment in `detail_platforms`. */
  const BasePlatformKey: string := "base"

  /** How the inner `selectToken` promise settles. */
  datatype Settled = Returned(selected: Option<Token>) | Threw

  /** Everything one click does that is visible outside the component:
      the id sent to the detail mutation (if any), the argument of the single
      `onTokenSelected` call (if any), whether the "connect your wallet"
      alert was shown, and whether an error was caught and logged. */
  datatype Effect = Effect(
    requested: Option<string>,
    selected: Option<Token>,
    alerted: bool,
    errorLogged: bool)

  /** `if (address)`: an address is truthy when present and non-empty. */
  function Connected(address: Option<string>): (c: bool)
    ensures c ==> address.Some?
    ensures address.Some? ==> (c <==> |address.value| > 0)
  {
    address.Some? && address.value != ""
  }

  /** The token built from a row and its Base platform; the contract address is
      taken as it is, without checking that it is hexadecimal. */
  predicate IsBaseToken(t: Token, entry: TokenListEntry, p: Platform) {
    && t.address == p.contract_address
    && t.decimals == p.decimal_place
    && t.chainId == BaseChainId
    && t.name == entry.name
    && t.symbol == entry.symbol
    && t.image == entry.image
  }

  /** The detail answer has a Base deployment: `detail_platforms.base` is an
      object, so `!baseToken` is false. An absent or `null` entry is not one. */
  predicate HasBase(detail: Outcome<TokenDetail>) {
    && detail.Ok?
    && detail.value.detail_platforms.Some?
    && BasePlatformKey in detail.value.detail_platforms.value
    && detail.value.detail_platforms.value[BasePlatformKey].Some?
  }

  /** The Base deployment of an answer that has one. */
  function BasePlatform(detail: Outcome<TokenDetail>): Platform
    requires HasBase(detail)
  {
    detail.value.detail_platforms.value[BasePlatformKey].value
  }

  /** Reading `detail_platforms.base` throws: the fetch failed, or the body
      has no `detail_platforms`. */
  predicate Throws(detail: Outcome<TokenDetail>) {
    detail.Err? || detail.value.detail_platforms.None?
  }

  /** The required behaviour of `selectToken` for a row and the outcome of its
      detail request. */
  predicate SelectSpec(entry: TokenListEntry, detail: Outcome<TokenDetail>, s: Settled) {
    && (s.Threw? <==> Throws(detail))
    && (s.Returned? && s.selected.Some? <==> HasBase(detail))
    && (HasBase(detail) ==>
          IsBaseToken(s.selected.value, entry, BasePlatform(detail)))
  }

  /** The required behaviour of `handleTokenSelection`. */
  predicate HandleSpec(address: Option<string>, entry: TokenListEntry, detail: Outcome<TokenDetail>, e: Effect) {
    && (e.alerted <==> !Connected(address))
    && (e.requested.Some? <==> Connected(address))
    && (e.requested.Some? ==> e.requested.value == entry.id)
    && (e.selected.Some? <==> Connected(address) && HasBase(detail))
    && (e.selected.Some? ==>
          IsBaseToken(e.selected.value, entry, BasePlatform(detail)))
    && (e.errorLogged <==> Connected(address) && Throws(detail))
  }

  /** A token is determined by the row and the platform it is built from. */
  lemma BaseTokenUnique(t1: Token, t2: Token, entry: TokenListEntry, p: Platform)
    requires IsBaseToken(t1, entry, p) && IsBaseToken(t2, entry, p)
    ensures t1 == t2
  {
  }

  /** `SelectSpec` admits one settlement only. */
  lemma SelectSpecDeterminate(entry: TokenListEntry, detail: Outcome<TokenDetail>, s1: Settled, s2: Settled)
    requires SelectSpec(entry, detail, s1) && SelectSpec(entry, detail, s2)
    ensures s1 == s2
  {
    if HasBase(detail) {
      BaseTokenUnique(s1.selected.value, s2.selected.value, entry, BasePlatform(detail));
    }
  }

  /** `HandleSpec` admits one effect only, so any two implementations that meet
      it agree on every click. */
  lemma HandleSpecDeterminate(
    address: Option<string>, entry: TokenListEntry, detail: Outcome<TokenDetail>, e1: Effect, e2: Effect)
    requires HandleSpec(address, entry, detail, e1) && HandleSpec(address, entry, detail, e2)
    ensures e1 == e2
  {
    if e1.selected.Some? {
      BaseTokenUnique(e1.selected.value, e2.selected.value, entry, BasePlatform(detail));
    }
  }

  /** Without a wallet the detail answer makes no difference: nothing is
      requested and nothing selected, whatever the provider would have said. */
  lemma NoWalletIgnoresDetail(
    address: Option<string>, entry: TokenListEntry,
    d1: Outcome<TokenDetail>, d2: Outcome<TokenDetail>, e1: Effect, e2: Effect)
    requires !Connected(address)
    requires HandleSpec(address, entry, d1, e1) && HandleSpec(address, entry, d2, e2)
    ensures e1 == e2
    ensures e1 == Effect(None, None, true, false)
  {
  }
}
