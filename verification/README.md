# onchainKit-meme-v2 — a verified model of the listing, pagination and selection core

The application lists meme tokens from the CoinGecko market-data API, shows
them in two table components, and lets a user with a connected wallet pick a
row to fill in a swap widget. This project models the parts of it that are
plain logic, as pure Dafny functions over immutable data:

- **The market-data router** (`Coingecko`): how `getTokens` builds its ordered
  query (three fixed filters, three defaulted options, the API key), its
  catch-everything-into-`[]` policy, and the two detail mutations
  `getTokenById` / `getTokenByIdQuery`, which request `.../coins/<id>` and let
  failures propagate. The provider (fetch plus JSON parsing) is a function
  parameter from the request to an `Ok | Err` outcome.
- **`MemeTable`** (the hand-paginated table): the `Array.isArray` guard, the
  ten-per-page `slice` with JavaScript's clamping and negative-index rules
  (`JsArray`), `totalPages = ceil(n/10)`, the page buttons, the page-change
  handler, and its copy of the token-selection logic.
- **`TokenTable`** (the library-paginated table): its own copy of the
  selection logic and the `market_cap_rank` comparator.
- **`Selection`**: one declarative statement of what a row click must do
  (`SelectSpec`, `HandleSpec`), which both copies are proved to meet; since the
  statement admits exactly one effect per click, the copies agree (`Pipeline`).
- **`Decimal`**: `toString` of the integers and booleans placed in the query,
  with the decimal reading that inverts it, so "passed through unmodified" is
  a round-trip theorem.

A click's outcome is the record `Effect(requested, selected, alerted,
errorLogged)`: the id sent to the detail mutation, the argument of the single
`onTokenSelected` call (`None` when it is not called), whether the wallet alert
was shown, and whether a thrown error was caught and logged.

Points where the code does more, or less, than a quick reading suggests:

- `getTokens` returns the parsed body as it is, without checking it is an
  array, so a provider error object reaches the tables. `MemeTable`'s
  `Array.isArray` guard turns it into an empty list (`ListBody.NotArray`);
  `TokenTable` hands its `tokens` to the antd table unguarded.
- Selection aborts without a callback in one more case than "no `base`
  platform": when the detail body has no `detail_platforms` at all, reading
  `.base` throws a `TypeError` that the click handler catches and logs.
- `if (!baseToken) return` tests truthiness, so a `base` entry that is present
  but `null` also returns without a callback; the platform map holds
  `Option<Platform>` values so that this case is represented.
- `useState(1)` keeps the current page when a new `tokens` prop arrives. After
  moving to page 3 of a 25-row listing, a 5-row listing shows no rows and one
  page button, and no button is highlighted (`MemeTable.NewListingKeepsPage`).
- The wallet check is JavaScript truthiness, so an empty address string counts
  as no wallet.
- Both detail mutations are kept, and proved to be the same operation.

## Model

| member | source | states |
|---|---|---|
| `Decimal.NatToString` | src/server/api/routers/coingecko.ts:28-29 | the text of a number is a non-empty run of decimal digits with no leading zero |
| `Decimal.IntToString` | src/server/api/routers/coingecko.ts:28-29 | the text of an integer starts with a minus sign exactly when the integer is negative |
| `Decimal.NatRoundTrip` | src/server/api/routers/coingecko.ts:28-29 | reading the decimal text of a natural number gives the number back |
| `Decimal.IntRoundTrip` | src/server/api/routers/coingecko.ts:28-29 | reading the text of any integer, negatives and zero included, gives the integer back |
| `Decimal.BoolToString` | src/server/api/routers/coingecko.ts:27 | the text sent for a boolean reads back as that boolean |
| `Decimal.IntToStringInjective` | src/server/api/routers/coingecko.ts:28-29 | distinct page numbers or page sizes are sent as distinct texts |
| `Decimal.DefaultTexts` | src/server/api/routers/coingecko.ts:28-29 | the defaults 1 and 100 are sent as "1" and "100" |
| `Coingecko.LookupAt` | src/server/api/routers/coingecko.ts:23-31 | a reading aid for the listing query (the source itself never reads its parameters back): in a query without repeated names, each parameter is found under its own name |
| `Coingecko.LookupAbsent` | src/server/api/routers/coingecko.ts:23-31 | a reading aid for the listing query: a name no parameter carries is not found |
| `Coingecko.MarketsQuery` | src/server/api/routers/coingecko.ts:23-31 | the query names are exactly vs_currency, category, order, sparkline, page, per_page, x_cg_demo_api_key in that order, without repeats, and the last one carries the configured API key |
| `Coingecko.MarketsRequestFor` | src/server/api/routers/coingecko.ts:32-38 | the listing is fetched from the markets endpoint with the listing query and an `accept: application/json` header |
| `Coingecko.FixedParameters` | src/server/api/routers/coingecko.ts:24-30 | for every input, vs_currency=usd, category=meme-token, order=market_cap_desc and the API key are sent |
| `Coingecko.NoOtherParameters` | src/server/api/routers/coingecko.ts:23-31 | no parameter outside those seven names is sent |
| `Coingecko.DefaultOptions` | src/server/api/routers/coingecko.ts:27-29 | omitted options are sent as sparkline=true, page=1, per_page=100 |
| `Coingecko.SuppliedOptionsPassThrough` | src/server/api/routers/coingecko.ts:27-29 | a supplied sparkline, page or perPage is sent as text that reads back as exactly the supplied value |
| `Coingecko.GetTokens` | src/server/api/routers/coingecko.ts:21-44 | a failed fetch or parse yields the empty array and never an error; otherwise the parsed body is returned unchanged |
| `Coingecko.DetailUrl` | src/server/api/routers/coingecko.ts:11 | the detail URL is the coins endpoint followed by the id, with nothing added or removed |
| `Coingecko.DetailUrlInjective` | src/server/api/routers/coingecko.ts:49 | distinct ids are requested at distinct URLs |
| `Coingecko.GetTokenById` | src/server/api/routers/coingecko.ts:8-14 | the detail request's failure is propagated to the caller; a success is returned as parsed |
| `Coingecko.GetTokenByIdQuery` | src/server/api/routers/coingecko.ts:46-52 | the selection flow's detail request likewise propagates failure and returns success as parsed |
| `Coingecko.DetailEndpointsAgree` | src/server/api/routers/coingecko.ts:46-52 | the two detail mutations request the same URL and yield the same outcome for every id and provider |
| `JsArray.RelativeIndex` | src/pages/components/Table.tsx:24 | a slice bound lands in 0..length: an in-range bound is kept, one past the end becomes the length, a negative one counts back from the end and stops at 0 |
| `JsArray.Slice` | src/pages/components/Table.tsx:24 | a slice within bounds is the subsequence between them; one starting at or past the end is empty |
| `MemeTable.ValidTokens` | src/pages/components/Table.tsx:20 | an array listing is used as it is; anything else counts as the empty list |
| `MemeTable.CurrentTokens` | src/pages/components/Table.tsx:22-24 | a page never shows more than 10 rows; for page p >= 1 it shows exactly rows (p-1)*10 up to min(p*10, n), none if (p-1)*10 >= n; page 0 shows none |
| `MemeTable.TotalPages` | src/pages/components/Table.tsx:25 | the page count is 0 exactly for an empty list, and otherwise (t-1)*10 < n <= t*10 |
| `MemeTable.NonArrayIsEmpty` | src/pages/components/Table.tsx:20-25 | a non-array listing shows no rows on any page and has zero pages |
| `MemeTable.IndexShownOnItsPage` | src/pages/components/Table.tsx:22-24 | row i is shown on page i/10 + 1 at position i % 10 |
| `MemeTable.IndexOnExactlyOnePage` | src/pages/components/Table.tsx:22-25 | row i lies within page p's displayed range exactly when p = i/10 + 1 |
| `MemeTable.ConcatPagesPrefix` | src/pages/components/Table.tsx:22-24 | pages 1..k laid end to end are the first min(10k, n) rows |
| `MemeTable.PagesPartitionList` | src/pages/components/Table.tsx:22-25 | pages 1..totalPages laid end to end give back the whole list |
| `MemeTable.ButtonPagesNonEmpty` | src/pages/components/Table.tsx:22-25 | every page from 1 to totalPages shows at least one row |
| `MemeTable.PageButtons` | src/pages/components/Table.tsx:93-101 | there are totalPages buttons, captioned 1..totalPages in order, each leading to the page on its caption and highlighted exactly when that is the current page |
| `MemeTable.ButtonsNumberPages` | src/pages/components/Table.tsx:93-101 | a button captioned k exists exactly when 1 <= k <= totalPages, and one is highlighted exactly when the current page is in that range |
| `MemeTable.HandlePageChange` | src/pages/components/Table.tsx:48 | a page change sets the current page to the given number and leaves the listing alone |
| `MemeTable.ClickButton` | src/pages/components/Table.tsx:96 | clicking button k moves to page k, keeps the listing, shows a non-empty page and highlights button k |
| `MemeTable.Step` | src/pages/components/Table.tsx:48 | a new listing replaces the listing and keeps the page; a click on a shown button k+1 selects page k+1 and keeps the listing; a click on no button changes nothing |
| `MemeTable.Run` | src/pages/components/Table.tsx:15 | after a run of events the table shows the listing of the last new-listing event, or the initial one if there is none, and without clicks the page is unchanged |
| `MemeTable.NewListingKeepsPage` | src/pages/components/Table.tsx:15-25 | a new listing keeps the current page; if that page starts past the new listing's end, no rows are shown and no page button is highlighted |
| `MemeTable.StalePageExample` | src/pages/components/Table.tsx:15-25 | clicking page 3 of 25 rows and then receiving 5 rows leaves page 3, which shows no rows, with a single page button |
| `MemeTable.RunKeepsPagePositive` | src/pages/components/Table.tsx:15 | new listings and button clicks never take the current page below 1 |
| `MemeTable.ReachableDisplayIsWindow` | src/pages/components/Table.tsx:15-25 | from the initial page 1, after any listings and clicks, the table shows exactly its current page's window |
| `MemeTable.SelectToken` | src/pages/components/Table.tsx:27-46 | selectToken throws when the detail fetch fails or the body lacks detail_platforms, returns without a token when there is no base platform, and otherwise yields the base platform's address and decimals with the row's name, symbol and image on chain 8453 |
| `MemeTable.HandleTokenSelection` | src/pages/components/Table.tsx:50-60 | without a wallet the click alerts and requests nothing; with one it requests the row's id, calls back once exactly when the base platform is present, and catches and logs a thrown error without calling back |
| `Selection.Connected` | src/pages/components/Table.tsx:51 | a wallet counts as connected exactly when an address is present and non-empty, as JavaScript truthiness has it |
| `Selection.BaseTokenUnique` | src/pages/components/Table.tsx:38-45 | the token handed over is determined by the row and its base platform |
| `Selection.SelectSpecDeterminate` | src/pages/components/Table.tsx:27-46 | the required behaviour of selectToken admits one settlement only |
| `Selection.HandleSpecDeterminate` | src/pages/components/Table.tsx:50-60 | the required behaviour of a click admits one effect only |
| `Selection.NoWalletIgnoresDetail` | src/pages/components/Table.tsx:50-59 | without a wallet the effect is the alert alone, whatever the provider would answer |
| `TokenTable.SelectToken` | src/pages/components/TokenTable.tsx:19-35 | this copy of selectToken meets the same required behaviour as the other table's |
| `TokenTable.HandleTokenSelection` | src/pages/components/TokenTable.tsx:37-47 | this copy of the click handler meets the same required behaviour as the other table's |
| `Results.Option.GetOr` | src/pages/components/TokenTable.tsx:54 | the `??` operator: the present value, or the default when the value is missing |
| `TokenTable.Rank` | src/pages/components/TokenTable.tsx:54 | a missing market_cap_rank counts as 0; a present one as itself |
| `TokenTable.RankSorter` | src/pages/components/TokenTable.tsx:54 | the comparator is negative, zero or positive exactly as the first row's rank is below, equal to or above the second's |
| `TokenTable.RankSorterAntisymmetric` | src/pages/components/TokenTable.tsx:54 | swapping the rows negates the comparison |
| `TokenTable.RankSorterMissing` | src/pages/components/TokenTable.tsx:54 | two unranked rows compare equal, and an unranked row compares like one of rank 0 |
| `TokenTable.RankSorterTransitive` | src/pages/components/TokenTable.tsx:54 | sorting-no-later-than is transitive |
| `Pipeline.SelectionCopiesAgree` | src/pages/components/TokenTable.tsx:19-47 | the two tables' selectToken and handleTokenSelection give the same result on every input |
| `Pipeline.ClickRowSelects` | src/pages/components/Table.tsx:27-60 | with the detail taken from the mutation, a click selects exactly when a wallet is connected and the provider's answer at the row's detail URL has a base platform, and the token is built from that platform |
| `Pipeline.NullBaseNoCallback` | src/pages/components/TokenTable.tsx:24-25 | a `base` entry that is present but `null` gives no callback in either table and no logged error |
| `Pipeline.FailedListingShowsNothing` | src/server/api/routers/coingecko.ts:41-44 | a failed or non-array listing leaves the paginated table with no rows and no page buttons |

## Left out

- Fetching, `res.json()`, the `accept` header's effect, URL encoding by `URLSearchParams`, tRPC and zod plumbing and reading `env`: I/O and library wrappers. Fetch plus parse is one abstract provider function returning `Ok` or `Err`; the API key is a parameter.
- The length bound "at most perPage rows per listing": it depends on the provider, which is a parameter here.
- `Decimal.IntToString`: exact for integers of magnitude at most 2^53; above that JavaScript writes the shortest digits that round-trip to the double followed by zeros (`2**60` is sent as `1152921504606847000`, not `1152921504606846976`), and from 1e21 the exponent form. Non-integer page values, which zod admits, are not modelled either. Read back as a double, JavaScript's text still gives the value supplied, so the pass-through property holds of the source as well.
- `Types.Platform`: `decimal_place` is an integer; a provider that sends `null` there is not modelled.
- `TokenTable.RankSorter`: ranks are unbounded integers, not doubles, because ranks are far below 2^53 where double subtraction is exact.
- `MemeTable.TotalPages`: `Math.ceil(n / 10)` is taken as the integer ceiling, which it is for every array length.
- JSX rendering, styling, `console.log` of the detail, and the antd `Table` with its own `pageSize: 10` pagination and sorting: UI and library behaviour.
- The price, 24h %, market-cap and volume sorters and all number formatting: floating point.
- The name sorter's `localeCompare`: locale-dependent and a foreign call.
- `MemeTable.HandleTokenSelection`: assumes the `onTokenSelected` callback returns normally; a callback that throws would still be invoked once and its error caught and logged by the same `try`, which the effect record does not represent.
- `TokenTable.HandleTokenSelection`: assumes the `onTokenSelected` callback returns normally, as above; a throwing callback would be invoked and its error logged.
- `useAccount`, `useState`, `alert`, `console.error` and the async interleaving of clicks: the wallet address and current page are inputs, and the alert and the error log are flags of the click's effect.
