/** `MemeTable`: the hand-paginated table. It shows ten rows of the listing per
    page, renders one button per page, and turns a row click into a token
    selection. The current page and the wallet address are inputs here. */
module MemeTable {
  import opened Results
  import opened Types
  import opened Selection
  import JsArray

  const ItemsPerPage: nat := 10

  /** `Array.isArray(tokens) ? tokens : []`. */
  function ValidTokens(tokens: ListBody): (s: seq<TokenListEntry>)
    ensures tokens.Array? ==> s == tokens.items
    ensures tokens.NotArray? ==> s == []
  {
    if tokens.Array? then tokens.items else []
  }

  function Min(a: int, b: int): int {
    if a <= b then a else b
  }

  /** Reference definition of page `p` (1-based): the rows from `(p-1)*10` up
      to `p*10` or the end of the list, none if the page starts past the end. */
  function PageWindow(s: seq<TokenListEntry>, p: int): seq<TokenListEntry>
    requires p >= 1
  {
    if (p - 1) * ItemsPerPage >= |s| then []
    else s[(p - 1) * ItemsPerPage .. Min(p * ItemsPerPage, |s|)]
  }

  /** `currentTokens`: `validTokens.slice(first, last)` with
      `last = currentPage * 10` and `first = last - 10`. */
  function CurrentTokens(tokens: ListBody, currentPage: int): (r: seq<TokenListEntry>)
    ensures |r| <= ItemsPerPage
    ensures currentPage >= 1 ==> r == PageWindow(ValidTokens(tokens), currentPage)
    ensures currentPage == 0 ==> r == []
  {
    var indexOfLastItem := currentPage * ItemsPerPage;
    var indexOfFirstItem := indexOfLastItem - ItemsPerPage;
    JsArray.Slice(ValidTokens(tokens), indexOfFirstItem, indexOfLastItem)
  }

  /** `Math.ceil(n / 10)`; `n / 10` is exact enough for any array length that
      `ceil` is the integer ceiling. */
  function TotalPages(n: nat): (t: nat)
    ensures t == 0 <==> n == 0
    ensures t > 0 ==> (t - 1) * ItemsPerPage < n <= t * ItemsPerPage
  {
    (n + ItemsPerPage - 1) / ItemsPerPage
  }

  function PagesOf(tokens: ListBody): nat {
    TotalPages(|ValidTokens(tokens)|)
  }

  /** A listing that is not an array shows no rows and no page buttons. */
  lemma NonArrayIsEmpty(currentPage: int)
    ensures CurrentTokens(NotArray, currentPage) == []
    ensures PagesOf(NotArray) == 0
  {
  }

  /** Row `i` of the list is shown on page `i/10 + 1`, in position `i % 10`. */
  lemma IndexShownOnItsPage(s: seq<TokenListEntry>, i: nat)
    requires i < |s|
    ensures i % ItemsPerPage < |CurrentTokens(Array(s), i / ItemsPerPage + 1)|
    ensures CurrentTokens(Array(s), i / ItemsPerPage + 1)[i % ItemsPerPage] == s[i]
  {
  }

  /** The rows of page `p` are those at positions `(p-1)*10 + j`; position `i`
      belongs to page `p` exactly when `p == i/10 + 1`, so no row is shown on
      two pages. */
  lemma IndexOnExactlyOnePage(s: seq<TokenListEntry>, i: nat, p: int)
    requires i < |s| && p >= 1
    ensures (p - 1) * ItemsPerPage <= i < (p - 1) * ItemsPerPage + |CurrentTokens(Array(s), p)|
            <==> p == i / ItemsPerPage + 1
  {
  }

  /** Pages `1..k` laid end to end. */
  function ConcatPages(s: seq<TokenListEntry>, k: nat): seq<TokenListEntry> {
    if k == 0 then [] else ConcatPages(s, k - 1) + CurrentTokens(Array(s), k)
  }

  lemma {:induction false} ConcatPagesPrefix(s: seq<TokenListEntry>, k: nat)
    ensures ConcatPages(s, k) == s[..Min(k * ItemsPerPage, |s|)]
  {
    if k > 0 {
      ConcatPagesPrefix(s, k - 1);
      var lo := Min((k - 1) * ItemsPerPage, |s|);
      var hi := Min(k * ItemsPerPage, |s|);
      assert s[..hi] == s[..lo] + s[lo..hi];
    }
  }

  /** Pages `1..totalPages` together show the whole list, in order, once. */
  lemma {:induction false} PagesPartitionList(s: seq<TokenListEntry>)
    ensures ConcatPages(s, TotalPages(|s|)) == s
  {
    ConcatPagesPrefix(s, TotalPages(|s|));
  }

  /** Every page a button leads to shows at least one row. */
  lemma ButtonPagesNonEmpty(s: seq<TokenListEntry>, p: int)
    requires 1 <= p <= TotalPages(|s|)
    ensures 0 < |CurrentTokens(Array(s), p)|
  {
  }

  /** One pagination button: its caption, the page its click selects, and
      whether it is highlighted as the current page. */
  datatype PageButton = PageButton(caption: int, target: int, active: bool)

  /** `Array.from({ length: totalPages }, (_, index) => ...)`. */
  function PageButtons(totalPages: nat, currentPage: int): (bs: seq<PageButton>)
    ensures |bs| == totalPages
    ensures forall i :: 0 <= i < |bs| ==> bs[i].caption == i + 1 && bs[i].target == bs[i].caption
    ensures forall i :: 0 <= i < |bs| ==> (bs[i].active <==> bs[i].caption == currentPage)
  {
    seq(totalPages, index requires 0 <= index < totalPages =>
      PageButton(index + 1, index + 1, currentPage == index + 1))
  }

  /** The buttons are numbered exactly `1..totalPages`; one of them is
      highlighted when the current page is among them, none otherwise. */
  lemma ButtonsNumberPages(totalPages: nat, currentPage: int, k: int)
    ensures (exists i :: 0 <= i < totalPages && PageButtons(totalPages, currentPage)[i].caption == k)
            <==> 1 <= k <= totalPages
    ensures (exists i :: 0 <= i < totalPages && PageButtons(totalPages, currentPage)[i].active)
            <==> 1 <= currentPage <= totalPages
  {
    var bs := PageButtons(totalPages, currentPage);
    if 1 <= k <= totalPages {
      assert bs[k - 1].caption == k;
    }
    if 1 <= currentPage <= totalPages {
      assert bs[currentPage - 1].active;
    }
  }

  /** The component's state: its `tokens` prop and `currentPage`. */
  datatype View = View(tokens: ListBody, currentPage: int)

  function Initial(tokens: ListBody): View {
    View(tokens, 1)
  }

  /** `handlePageChange`: `setCurrentPage(pageNumber)`. */
  function HandlePageChange(v: View, pageNumber: int): (w: View)
    ensures w.currentPage == pageNumber
    ensures w.tokens == v.tokens
  {
    v.(currentPage := pageNumber)
  }

  function Buttons(v: View): seq<PageButton> {
    PageButtons(PagesOf(v.tokens), v.currentPage)
  }

  /** Clicking the button at `index` moves to the page it is captioned with,
      keeps the listing, shows a non-empty page and highlights that button. */
  lemma ClickButton(v: View, index: nat)
    requires index < |Buttons(v)|
    ensures HandlePageChange(v, Buttons(v)[index].target).currentPage == Buttons(v)[index].caption
    ensures HandlePageChange(v, Buttons(v)[index].target).tokens == v.tokens
    ensures 0 < |CurrentTokens(v.tokens, Buttons(v)[index].caption)|
    ensures Buttons(HandlePageChange(v, Buttons(v)[index].target))[index].active
  {
    ButtonPagesNonEmpty(ValidTokens(v.tokens), index + 1);
  }

  /** What can happen to the table: a new `tokens` prop, or a click on the
      page button at some index (ignored when no such button is shown). */
  datatype Event = NewTokens(tokens: ListBody) | ClickPage(index: nat)

  function Step(v: View, e: Event): (w: View)
    ensures e.NewTokens? ==> w == View(e.tokens, v.currentPage)
    ensures e.ClickPage? && e.index < PagesOf(v.tokens) ==> w == View(v.tokens, e.index + 1)
    ensures e.ClickPage? && e.index >= PagesOf(v.tokens) ==> w == v
  {
    match e
    case NewTokens(t) => v.(tokens := t)
    case ClickPage(i) =>
      if i < |Buttons(v)| then HandlePageChange(v, Buttons(v)[i].target) else v
  }

  /** A new listing does not reset the page: when the page kept starts past
      the new listing's end, the table shows no rows and highlights no button. */
  lemma NewListingKeepsPage(v: View, tokens: ListBody)
    requires v.currentPage >= 1
    requires (v.currentPage - 1) * ItemsPerPage >= |ValidTokens(tokens)|
    ensures Step(v, NewTokens(tokens)).currentPage == v.currentPage
    ensures CurrentTokens(tokens, v.currentPage) == []
    ensures forall i :: 0 <= i < |Buttons(Step(v, NewTokens(tokens)))| ==>
              !Buttons(Step(v, NewTokens(tokens)))[i].active
  {
  }

  /** The case above, from 25 rows on page 3 to a 5-row listing. */
  lemma StalePageExample(rows: seq<TokenListEntry>, fewer: seq<TokenListEntry>)
    requires |rows| == 25 && |fewer| == 5
    ensures Step(Step(Initial(Array(rows)), ClickPage(2)), NewTokens(Array(fewer))).currentPage == 3
    ensures CurrentTokens(Array(fewer), 3) == []
    ensures |Buttons(Step(Step(Initial(Array(rows)), ClickPage(2)), NewTokens(Array(fewer))))| == 1
  {
    NewListingKeepsPage(Step(Initial(Array(rows)), ClickPage(2)), Array(fewer));
  }

  /** Reference definition of the listing in force after `events`: the one
      the last `NewTokens` event delivered, or `initial` when none did. */
  function LatestListing(initial: ListBody, events: seq<Event>): ListBody
    decreases |events|
  {
    if events == [] then initial
    else if events[|events| - 1].NewTokens? then events[|events| - 1].tokens
    else LatestListing(initial, events[..|events| - 1])
  }

  /** Taking the first event into account before the rest changes nothing. */
  lemma {:induction false} LatestListingFirst(initial: ListBody, e: Event, rest: seq<Event>)
    ensures LatestListing(if e.NewTokens? then e.tokens else initial, rest)
            == LatestListing(initial, [e] + rest)
    decreases |rest|
  {
    var all := [e] + rest;
    if rest == [] {
      assert all[..0] == [];
    } else if !rest[|rest| - 1].NewTokens? {
      assert all[..|all| - 1] == [e] + rest[..|rest| - 1];
      LatestListingFirst(initial, e, rest[..|rest| - 1]);
    }
  }

  /** The state after `events`: the table shows the listing of the last
      `NewTokens` event (the initial one if there is none), and only clicks
      change the page. */
  function Run(v: View, events: seq<Event>): (w: View)
    ensures w.tokens == LatestListing(v.tokens, events)
    ensures (forall i :: 0 <= i < |events| ==> events[i].NewTokens?) ==> w.currentPage == v.currentPage
    decreases |events|
  {
    if events == [] then v
    else
      LatestListingFirst(v.tokens, events[0], events[1..]);
      assert [events[0]] + events[1..] == events;
      Run(Step(v, events[0]), events[1..])
  }

  lemma {:induction false} RunKeepsPagePositive(v: View, events: seq<Event>)
    requires v.currentPage >= 1
    ensures Run(v, events).currentPage >= 1
    decreases |events|
  {
    if events != [] {
      RunKeepsPagePositive(Step(v, events[0]), events[1..]);
    }
  }

  /** From the initial page, whatever props arrive and whatever buttons are
      clicked, the table shows exactly the window of its current page. */
  lemma ReachableDisplayIsWindow(tokens: ListBody, events: seq<Event>)
    ensures Run(Initial(tokens), events).currentPage >= 1
    ensures CurrentTokens(Run(Initial(tokens), events).tokens, Run(Initial(tokens), events).currentPage)
            == PageWindow(ValidTokens(Run(Initial(tokens), events).tokens), Run(Initial(tokens), events).currentPage)
  {
    RunKeepsPagePositive(Initial(tokens), events);
  }

  /** `selectToken` as written in this component. */
  function SelectToken(tokenListResponse: TokenListEntry, tokenData: Outcome<TokenDetail>): (s: Settled)
    ensures SelectSpec(tokenListResponse, tokenData, s)
  {
    if tokenData.Err? || tokenData.value.detail_platforms.None? then Threw
    else
      var platforms := tokenData.value.detail_platforms.value;
      if BasePlatformKey !in platforms || platforms[BasePlatformKey].None? then Returned(None)
      else
        var baseToken := platforms[BasePlatformKey].value;
        Returned(Some(Token(
          address := baseToken.contract_address,
          chainId := 8453,
          decimals := baseToken.decimal_place,
          name := tokenListResponse.name,
          symbol := tokenListResponse.symbol,
          image := tokenListResponse.image)))
  }

  /** `handleTokenSelection` as written in this component: alert without a
      wallet, otherwise run `selectToken` and catch what it throws. */
  function HandleTokenSelection(address: Option<string>, token: TokenListEntry, tokenData: Outcome<TokenDetail>): (e: Effect)
    ensures HandleSpec(address, token, tokenData, e)
  {
    if Connected(address) then
      match SelectToken(token, tokenData)
      case Returned(selected) => Effect(Some(token.id), selected, false, false)
      case Threw => Effect(Some(token.id), None, false, true)
    else
      Effect(None, None, true, false)
  }
}
