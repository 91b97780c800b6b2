/**
 * `CompactPagination`: a previous / next pair around "Page p of n".
 *
 * The component holds no state. Each click handler tests a guard and, when it
 * passes, asks the caller (`onPageChange`) for the neighbouring page; the
 * result of a click is therefore the page requested, if any. Pages are
 * whole numbers.
 */
module CompactPagination {
  import opened Wrappers

  /** The previous-page handler: the page it requests, if any. It requests
      the page one back, and only from a page above 1. */
  function PrevClick(currentPage: int): (request: Option<int>)
    ensures request.Some? <==> currentPage > 1
    ensures request.Some? ==> request.value + 1 == currentPage
  {
    if currentPage > 1 then Some(currentPage - 1) else None
  }

  /** The next-page handler: the page it requests, if any. It requests the
      page one forward, and only from a page below the last. */
  function NextClick(currentPage: int, totalPages: int): (request: Option<int>)
    ensures request.Some? <==> currentPage < totalPages
    ensures request.Some? ==> request.value == currentPage + 1
  {
    if currentPage < totalPages then Some(currentPage + 1) else None
  }

  /** `aria-disabled` of the previous-page link, as written. */
  predicate PrevMarkedDisabled(currentPage: int) {
    currentPage == 1
  }

  /** `aria-disabled` of the next-page link, as written. */
  predicate NextMarkedDisabled(currentPage: int, totalPages: int) {
    currentPage == totalPages
  }

  /** Whether a page number lies in 1..totalPages. */
  predicate InRange(page: int, totalPages: int) {
    1 <= page <= totalPages
  }

  /** From a page in range, neither button ever requests a page out of range. */
  lemma RequestsStayInRange(currentPage: int, totalPages: int)
    requires InRange(currentPage, totalPages)
    ensures PrevClick(currentPage).Some? ==> InRange(PrevClick(currentPage).value, totalPages)
    ensures NextClick(currentPage, totalPages).Some? ==> InRange(NextClick(currentPage, totalPages).value, totalPages)
  {
  }

  /** A link marked disabled never requests a page, whatever the numbers. */
  lemma DisabledLinksAreInert(currentPage: int, totalPages: int)
    ensures PrevMarkedDisabled(currentPage) ==> PrevClick(currentPage).None?
    ensures NextMarkedDisabled(currentPage, totalPages) ==> NextClick(currentPage, totalPages).None?
  {
  }

  /** From a page in range, a link is marked disabled exactly when clicking it
      requests nothing. */
  lemma DisabledIffInertInRange(currentPage: int, totalPages: int)
    requires InRange(currentPage, totalPages)
    ensures PrevMarkedDisabled(currentPage) <==> PrevClick(currentPage).None?
    ensures NextMarkedDisabled(currentPage, totalPages) <==> NextClick(currentPage, totalPages).None?
  {
  }

  /** Next then previous comes back to the page one started on. */
  lemma NextThenPrevReturns(currentPage: int, totalPages: int)
    requires 1 <= currentPage < totalPages
    ensures NextClick(currentPage, totalPages).Some?
    ensures PrevClick(NextClick(currentPage, totalPages).value) == Some(currentPage)
  {
  }

  /** Previous then next comes back too. */
  lemma PrevThenNextReturns(currentPage: int, totalPages: int)
    requires 1 < currentPage <= totalPages
    ensures PrevClick(currentPage).Some?
    ensures NextClick(PrevClick(currentPage).value, totalPages) == Some(currentPage)
  {
  }

  /** With no pages at all ("Page 1 of 0") the next link is not marked
      disabled, yet clicking it does nothing. */
  lemma EmptyListNextLooksEnabled()
    ensures !NextMarkedDisabled(1, 0) && NextClick(1, 0).None?
  {
  }

  /** The next link's disabled flag derived from the handler's own guard. */
  predicate NextInert(currentPage: int, totalPages: int) {
    currentPage >= totalPages
  }

  /** The previous link's disabled flag derived from the handler's own guard. */
  predicate PrevInert(currentPage: int) {
    currentPage <= 1
  }

  /** With the guard-derived flags, a link is disabled exactly when clicking it
      requests nothing, on every input; in range they agree with the flags as
      written. */
  lemma InertFlagsMatchHandlers(currentPage: int, totalPages: int)
    ensures PrevInert(currentPage) <==> PrevClick(currentPage).None?
    ensures NextInert(currentPage, totalPages) <==> NextClick(currentPage, totalPages).None?
    ensures InRange(currentPage, totalPages) ==>
      (PrevInert(currentPage) <==> PrevMarkedDisabled(currentPage))
      && (NextInert(currentPage, totalPages) <==> NextMarkedDisabled(currentPage, totalPages))
  {
  }
}
