/** The client's paging of the merged results: twenty stories a page, and
    the Previous/Next buttons that move between pages. */
module Pagination {

  const ArticlesPerPage: nat := 20

  /** `(total + 19) // 20`: the fewest pages that hold `total` stories. */
  function TotalPages(total: nat): (pages: nat)
    ensures total <= pages * ArticlesPerPage
    ensures pages == 0 || (pages - 1) * ArticlesPerPage < total
  {
    (total + ArticlesPerPage - 1) / ArticlesPerPage
  }

  function Min(a: int, b: int): (m: int)
  {
    if a < b then a else b
  }

  /** Python's `s[start:end]` for non-negative bounds: both are clamped to
      the length, and the slice is empty when `end <= start`. */
  function Slice<T>(s: seq<T>, start: nat, end: nat): (r: seq<T>)
    ensures |r| == if start < Min(end, |s|) then Min(end, |s|) - start else 0
    ensures forall j :: 0 <= j < |r| ==> r[j] == s[start + j]
  {
    var hi := Min(end, |s|);
    if start < hi then s[start..hi] else []
  }

  /** The stories shown on page `page` (counted from 1). */
  function PageResults<T>(results: seq<T>, page: nat): (shown: seq<T>)
    requires page >= 1
  {
    var start := (page - 1) * ArticlesPerPage;
    var end := Min(start + ArticlesPerPage, |results|);
    Slice(results, start, end)
  }

  /** A page in range holds between one and twenty stories: the next ones in
      order after the pages before it. */
  lemma PageInRange<T>(results: seq<T>, page: nat)
    requires 1 <= page <= TotalPages(|results|)
    ensures var start := (page - 1) * ArticlesPerPage;
      && start < |results|
      && PageResults(results, page) == results[start..Min(start + ArticlesPerPage, |results|)]
      && 1 <= |PageResults(results, page)| <= ArticlesPerPage
  {
  }

  /** A page past the last one is empty. */
  lemma PageBeyondEnd<T>(results: seq<T>, page: nat)
    requires page > TotalPages(|results|)
    ensures PageResults(results, page) == []
  {
    assert (page - 1) * ArticlesPerPage >= TotalPages(|results|) * ArticlesPerPage;
  }

  /** Pages 1 to `p` one after the other. */
  function PagesUpTo<T>(results: seq<T>, p: nat): (shown: seq<T>)
  {
    if p == 0 then [] else PagesUpTo(results, p - 1) + PageResults(results, p)
  }

  /** The first `p` pages show the first `20 * p` stories (or all of them),
      in order, each exactly once. */
  lemma {:induction false} PagesUpToArePrefix<T>(results: seq<T>, p: nat)
    ensures PagesUpTo(results, p) == results[..Min(p * ArticlesPerPage, |results|)]
  {
    if p > 0 {
      PagesUpToArePrefix(results, p - 1);
      var lo := Min((p - 1) * ArticlesPerPage, |results|);
      var hi := Min(p * ArticlesPerPage, |results|);
      if (p - 1) * ArticlesPerPage < |results| {
        assert results[..hi] == results[..lo] + results[lo..hi];
      } else {
        assert PageResults(results, p) == [];
      }
    }
  }

  /** Paging loses nothing and repeats nothing: all pages together are the
      results. */
  lemma PagesCoverResults<T>(results: seq<T>)
    ensures PagesUpTo(results, TotalPages(|results|)) == results
  {
    PagesUpToArePrefix(results, TotalPages(|results|));
  }

  /** The two navigation buttons. */
  datatype Button = Previous | Next

  /** Previous is offered only past the first page and Next only before the
      last; a button not offered does nothing. */
  function Navigate(page: nat, totalPages: nat, b: Button): (p: nat)
    ensures b == Previous ==> (p + 1 == page <==> page > 1)
    ensures b == Next ==> (p == page + 1 <==> page < totalPages)
    ensures p == page || p + 1 == page || p == page + 1
    ensures 1 <= page ==> 1 <= p
    ensures page <= totalPages ==> p <= totalPages
  {
    match b
    case Previous => if page > 1 then page - 1 else page
    case Next => if page < totalPages then page + 1 else page
  }

  /** Pressing buttons in turn. */
  function NavigateAll(page: nat, totalPages: nat, presses: seq<Button>): (p: nat)
    decreases |presses|
  {
    if |presses| == 0 then page else NavigateAll(Navigate(page, totalPages, presses[0]), totalPages, presses[1..])
  }

  /** From a page in range, any sequence of presses stays in range, so every
      page shown holds stories. */
  lemma {:induction false} NavigationStaysInRange(page: nat, totalPages: nat, presses: seq<Button>)
    requires 1 <= page <= totalPages
    ensures 1 <= NavigateAll(page, totalPages, presses) <= totalPages
    decreases |presses|
  {
    if |presses| > 0 {
      NavigationStaysInRange(Navigate(page, totalPages, presses[0]), totalPages, presses[1..]);
    }
  }

  /** The session keeps its page across searches: a new search resets the
      results but not the page number. */
  function PageAfterSearch(page: nat, newTotal: nat): (p: nat)
  {
    page
  }

  /** A search after paging forward can leave the client on a page past the
      new last one, which shows no stories: 45 results viewed on page 3, then
      a search with 10 results, gives page 3 of 1. */
  lemma StalePageAfterSearch<T>(newResults: seq<T>)
    requires |newResults| == 10
    ensures var page := PageAfterSearch(3, |newResults|);
      && page > TotalPages(|newResults|)
      && TotalPages(|newResults|) == 1
      && PageResults(newResults, page) == []
  {
    PageBeyondEnd(newResults, 3);
  }

  /** The page number as it was evidently meant to be after a search: back to
      the first page. */
  function ResetPageAfterSearch(page: nat, newTotal: nat): (p: nat)
    ensures newTotal > 0 ==> 1 <= p <= TotalPages(newTotal)
  {
    1
  }

  /** With the reset, a search that finds stories shows them on the page it
      lands on. */
  lemma ResetPageShowsResults<T>(page: nat, newResults: seq<T>)
    requires |newResults| > 0
    ensures var p := ResetPageAfterSearch(page, |newResults|);
      1 <= |PageResults(newResults, p)| <= ArticlesPerPage
  {
    PageInRange(newResults, ResetPageAfterSearch(page, |newResults|));
  }
}
