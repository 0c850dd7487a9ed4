/** The Previous / Next / numbered page buttons shared by
    p-1/frontend/src/pages/admin/AdminUsers.jsx and AdminCharts.jsx. The page
    count comes from the server's `pagination.pages`, which is 0 for an
    empty listing. */
module Pager {

  function Max(a: int, b: int): int { if a >= b then a else b }
  function Min(a: int, b: int): int { if a <= b then a else b }

  /** Previous: `Math.max(1, currentPage - 1)` */
  function PreviousPage(current: int): (p: int)
    ensures p >= 1
    ensures current > 1 ==> p == current - 1
    ensures current <= 1 ==> p == 1
  {
    Max(1, current - 1)
  }

  /** Next as written: `Math.min(totalPages, currentPage + 1)`. */
  function NextPageAsWritten(current: int, total: int): int {
    Min(total, current + 1)
  }

  /** `disabled={currentPage === 1}` */
  predicate PreviousDisabled(current: int) { current == 1 }

  /** `disabled={currentPage === totalPages}` */
  predicate NextDisabled(current: int, total: int) { current == total }

  /** With no pages at all, Next on page 1 is enabled and moves to page 0,
      a page that does not exist. */
  lemma NextAsWrittenLeavesRange()
    ensures !NextDisabled(1, 0) && NextPageAsWritten(1, 0) == 0
  {
  }

  /** Next kept at page 1 or later: `Math.max(1, Math.min(totalPages,
      currentPage + 1))`. */
  function NextPage(current: int, total: int): int {
    Max(1, NextPageAsWritten(current, total))
  }

  /** The corrected Next never leaves [1, totalPages] (or page 1 when there
      are no pages), moves one page forward until the last page, and agrees
      with the code as written whenever there is at least one page. */
  lemma NextPageSpec(current: int, total: int)
    ensures NextPage(current, total) >= 1
    ensures total >= 1 && current >= 1 ==> NextPage(current, total) <= total
    ensures 1 <= current < total ==> NextPage(current, total) == current + 1
    ensures current >= 0 && total >= 1 ==> NextPage(current, total) == NextPageAsWritten(current, total)
  {
  }

  /** `Array.from({ length: Math.min(5, totalPages) }, (_, i) => i + 1)`: a
      negative length counts as 0. */
  function PageButtons(total: int): (pages: seq<int>)
    ensures |pages| == Max(0, Min(5, total))
    ensures forall i :: 0 <= i < |pages| ==> pages[i] == i + 1
  {
    ButtonsUpTo(Max(0, Min(5, total)))
  }

  function ButtonsUpTo(n: nat): (pages: seq<int>)
    ensures |pages| == n
    ensures forall i :: 0 <= i < n ==> pages[i] == i + 1
  {
    if n == 0 then [] else ButtonsUpTo(n - 1) + [n]
  }

  /** Every numbered button names an existing page, and the first five
      pages all have one. */
  lemma PageButtonsInRange(total: int, page: int)
    ensures page in PageButtons(total) <==> 1 <= page <= Min(5, total)
  {
    if 1 <= page <= Min(5, total) {
      assert PageButtons(total)[page - 1] == page;
    }
  }

  /** The page state of a listing page. */
  class PageState {
    var currentPage: int
    var totalPages: int

    ghost predicate Valid()
      reads this
    {
      currentPage >= 1
    }

    constructor ()
      ensures Valid() && currentPage == 1 && totalPages == 1
    {
      currentPage := 1;
      totalPages := 1;
    }

    /** A listing response arrived. */
    method Loaded(pages: int)
      modifies this`totalPages
      ensures totalPages == pages
    {
      totalPages := pages;
    }

    method Previous()
      requires Valid()
      modifies this`currentPage
      ensures Valid()
      ensures currentPage == PreviousPage(old(currentPage))
    {
      currentPage := PreviousPage(currentPage);
    }

    /** Next, with the page kept at 1 or later. */
    method Next()
      requires Valid()
      modifies this`currentPage
      ensures Valid()
      ensures currentPage == NextPage(old(currentPage), totalPages)
    {
      currentPage := NextPage(currentPage, totalPages);
    }

    /** A numbered button. */
    method GoTo(page: int)
      requires page in PageButtons(totalPages)
      modifies this`currentPage
      ensures Valid() && currentPage == page
    {
      PageButtonsInRange(totalPages, page);
      currentPage := page;
    }
  }
}
