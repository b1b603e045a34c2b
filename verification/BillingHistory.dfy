/**
 The billing history of apps/admin/src/pages/AgencyBillingPage.tsx: pages fetched one by one and
 appended, against the paginated endpoint (apps/api/src/utils/pagination.ts).
 */
module Pagination {

  /** HISTORY_PAGE_SIZE; the query schema allows up to 100. */
  const PAGE_SIZE: nat := 10

  function Min(a: nat, b: nat): nat {
    if a < b then a else b
  }

  /** skip((page - 1) * limit).limit(limit) */
  function PageItems<T>(full: seq<T>, page: nat): seq<T>
    requires page >= 1
  {
    full[Min((page - 1) * PAGE_SIZE, |full|)..Min(page * PAGE_SIZE, |full|)]
  }

  /** totalPages = max(1, ceil(total / limit)) */
  function TotalPages(total: nat): nat {
    if total == 0 then 1 else (total + PAGE_SIZE - 1) / PAGE_SIZE
  }

  function HasNextPage(total: nat, page: nat): bool {
    page < TotalPages(total)
  }

  /** How many of the presses are answered. */
  function Answers(answered: seq<bool>): nat {
    if answered == [] then 0 else Answers(answered[..|answered| - 1]) + if answered[|answered| - 1] then 1 else 0
  }

  /** What has accumulated once the first k pages are in. */
  function FirstPages<T>(full: seq<T>, k: nat): seq<T> {
    full[..Min(k * PAGE_SIZE, |full|)]
  }

  lemma NextPageExtends<T>(full: seq<T>, k: nat)
    ensures FirstPages(full, k) + PageItems(full, k + 1) == FirstPages(full, k + 1)
  {
  }

  /** There is a next page exactly while the first k pages are not yet everything (k >= 1). */
  lemma HasNextExactly<T>(full: seq<T>, k: nat)
    requires k >= 1
    ensures HasNextPage(|full|, k) <==> FirstPages(full, k) != full
  {
    assert HasNextPage(|full|, k) <==> k * PAGE_SIZE < |full|;
    if k * PAGE_SIZE < |full| {
      assert |FirstPages(full, k)| < |full|;
    } else {
      assert FirstPages(full, k) == full;
    }
  }

  ghost predicate Distinct<T(!new)>(s: seq<T>) {
    forall i, j :: 0 <= i < j < |s| ==> s[i] != s[j]
  }

  /** Appending page m after the first k >= 1 pages leaves no gap and no repeat exactly when m is the next
      page, or is empty. A reload that overlaps a "load more" makes m too large. */
  lemma AppendIsPrefixExactly<T(!new)>(full: seq<T>, k: nat, m: nat)
    requires Distinct(full) && m >= 1 && k >= 1
    ensures FirstPages(full, k) + PageItems(full, m) <= full <==> m == k + 1 || PageItems(full, m) == []
  {
    NextPageExtends(full, k);
    if PageItems(full, m) == [] {
      assert FirstPages(full, k) + PageItems(full, m) == FirstPages(full, k);
    } else if FirstPages(full, k) + PageItems(full, m) <= full {
      AppendedHead(full, k, m);
    }
  }

  lemma AppendedHead<T(!new)>(full: seq<T>, k: nat, m: nat)
    requires m >= 1 && PageItems(full, m) != [] && FirstPages(full, k) + PageItems(full, m) <= full
    ensures (m - 1) * PAGE_SIZE < |full| && k * PAGE_SIZE < |full| && full[k * PAGE_SIZE] == full[(m - 1) * PAGE_SIZE]
  {
    var have, page := FirstPages(full, k), PageItems(full, m);
    assert (have + page)[|have|] == page[0] == full[(m - 1) * PAGE_SIZE];
    assert full[|have|] == (have + page)[|have|];
  }
}

module BillingHistory {
  import P = Pagination

  class HistoryList<T(==)> {
    var items: seq<T>
    var page: nat
    var hasMore: bool
    var loadingMore: bool
    var error: bool

    constructor ()
      ensures items == [] && page == 1 && !hasMore && !loadingMore && !error
    {
      items, page, hasMore, loadingMore, error := [], 1, false, false, false;
    }

    /** The list shows the first `page` pages of the server's list, and knows whether that is all. */
    ghost predicate Shows(full: seq<T>)
      reads this
    {
      page >= 1 && items == P.FirstPages(full, page) && hasMore == (items != full)
    }

    /** reload, once its requests are answered. */
    method Reload(full: seq<T>)
      modifies this
      ensures Shows(full) && page == 1 && loadingMore == old(loadingMore) && error == old(error)
    {
      items := P.PageItems(full, 1);
      page := 1;
      hasMore := P.HasNextPage(|full|, 1);
      P.NextPageExtends(full, 0);
      P.HasNextExactly(full, 1);
    }

    /** loadMoreHistory before its await: the page it asks for. */
    method StartLoadMore() returns (nextPage: nat)
      modifies this
      ensures nextPage == old(page) + 1 && loadingMore
      ensures items == old(items) && page == old(page) && hasMore == old(hasMore) && error == old(error)
    {
      loadingMore := true;
      nextPage := page + 1;
    }

    /** Its answer: the page is appended to whatever is shown by then. */
    method FinishLoadMore(full: seq<T>, nextPage: nat)
      requires nextPage >= 1
      modifies this
      ensures items == old(items) + P.PageItems(full, nextPage) && page == nextPage
      ensures hasMore == P.HasNextPage(|full|, nextPage) && !loadingMore && error == old(error)
      ensures old(Shows(full)) && nextPage == old(page) + 1 ==> Shows(full)
    {
      items := items + P.PageItems(full, nextPage);
      page := nextPage;
      hasMore := P.HasNextPage(|full|, nextPage);
      loadingMore := false;
      P.NextPageExtends(full, nextPage - 1);
      P.HasNextExactly(full, nextPage);
    }

    /** A failed answer changes nothing but the message. */
    method FailLoadMore()
      modifies this
      ensures error && !loadingMore && items == old(items) && page == old(page) && hasMore == old(hasMore)
    {
      error := true;
      loadingMore := false;
    }

    /** Any presses, some answered and some failed: nothing is skipped or repeated. A failure costs a press and
        nothing else, so the pages shown are the first ones, one more per answer until there are no more. */
    method PressRepeatedly(full: seq<T>, answered: seq<bool>)
      requires Shows(full)
      modifies this
      ensures Shows(full) && old(items) <= items
      ensures page == P.Min(old(page) + P.Answers(answered), if old(hasMore) then P.TotalPages(|full|) else old(page))
    {
      var k := 0;
      assert answered[..0] == [];
      while k < |answered|
        invariant 0 <= k <= |answered| && Shows(full) && old(items) <= items
        invariant page == P.Min(old(page) + P.Answers(answered[..k]), if old(hasMore) then P.TotalPages(|full|)
            else old(page))
      {
        assert answered[..k + 1][..k] == answered[..k];
        if hasMore {
          P.HasNextExactly(full, page);
          P.NextPageExtends(full, page);
          var nextPage := StartLoadMore();
          if answered[k] {
            FinishLoadMore(full, nextPage);
          } else {
            FailLoadMore();
          }
        } else {
          P.HasNextExactly(full, page);
        }
        k := k + 1;
      }
      assert answered[..k] == answered;
    }

    /** Pressing "Load more" until the button disappears ends, with the whole list, every page fetched
        once. */
    method LoadAll(full: seq<T>) returns (presses: nat)
      requires Shows(full)
      modifies this
      ensures Shows(full) && items == full && !hasMore
      ensures page == old(page) + presses && page <= if old(hasMore) then P.TotalPages(|full|) else old(page)
    {
      presses := 0;
      while hasMore
        invariant Shows(full) && page == old(page) + presses
        invariant page <= if old(hasMore) then P.TotalPages(|full|) else old(page)
        decreases P.TotalPages(|full|) - page
      {
        P.HasNextExactly(full, page);
        var nextPage := StartLoadMore();
        FinishLoadMore(full, nextPage);
        presses := presses + 1;
      }
    }
  }
}
