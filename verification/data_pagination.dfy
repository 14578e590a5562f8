/**
 * The pager under the meetings and agents tables: the previous and next buttons, what each
 * asks the page to change to, and the "Page x of y" label. `totalPages` is what the list
 * query returned: 0 for an empty meetings list, at least 1 for agents.
 */
module DataPagination {
  import opened Wrappers
  import Sql
  import Paging
  import MeetingsRouter
  import MeetingSchema
  import Database

  /** The previous button is enabled. */
  predicate CanGoPrev(page: int) {
    page > 1
  }

  /** The next button is enabled; never when there are no pages. */
  predicate CanGoNext(page: int, totalPages: int) {
    totalPages > 0 && page < totalPages
  }

  /** The page the previous button asks for, if it asks at all. */
  function HandlePrev(page: int): (r: Option<int>)
    ensures r.Some? <==> CanGoPrev(page)
    ensures r.Some? ==> r.value == page - 1 && r.value >= 1
  {
    if CanGoPrev(page) then Some(page - 1) else None
  }

  /** The page the next button asks for, if it asks at all. */
  function HandleNext(page: int, totalPages: int): (r: Option<int>)
    ensures r.Some? <==> CanGoNext(page, totalPages)
    ensures r.Some? ==> r.value == page + 1 && r.value <= totalPages
  {
    if CanGoNext(page, totalPages) then Some(page + 1) else None
  }

  /** `totalPages || 1`: zero pages is shown as one. */
  function ShownTotal(totalPages: int): (n: int)
    ensures totalPages != 0 ==> n == totalPages
    ensures totalPages == 0 ==> n == 1
  {
    if totalPages == 0 then 1 else totalPages
  }

  /** `Math.min(page, totalPages || 1)`: the page number shown. */
  function ShownPage(page: int, totalPages: int): (n: int)
    ensures n <= ShownTotal(totalPages)
    ensures n == page || n == ShownTotal(totalPages)
    ensures n <= page
  {
    Sql.Min(page, ShownTotal(totalPages))
  }

  /** For a page of at least 1 and a non-negative page count, the label reads "x of y" with
      1 <= x <= y. */
  lemma LabelInRange(page: int, totalPages: int)
    requires page >= 1 && totalPages >= 0
    ensures 1 <= ShownPage(page, totalPages) <= ShownTotal(totalPages)
    ensures ShownTotal(totalPages) >= 1
  {
  }

  /** Stepping back and then forward returns to the same page. */
  lemma PrevThenNext(page: int, totalPages: int)
    requires CanGoPrev(page) && page <= totalPages
    ensures HandleNext(HandlePrev(page).value, totalPages) == Some(page)
  {
  }

  /** An empty meetings list has no pages: the label reads "1 of 1" and neither button moves. */
  lemma EmptyMeetingsPager(meetings: seq<MeetingSchema.Meeting>, agents: seq<Database.Agent>, caller: string,
                           pageSize: int, q: MeetingsRouter.MeetingQuery, f: MeetingsRouter.MeetingFilter)
    requires Paging.MinPageSize <= pageSize <= Paging.MaxPageSize
    requires MeetingsRouter.ParseFilter(q) == Ok(f)
    requires MeetingsRouter.Listed(meetings, agents, caller, f) == []
    ensures var r := MeetingsRouter.GetMany(meetings, agents, caller, Some(1), Some(pageSize), q);
            && r.Ok? && r.value.totalPages == 0
            && ShownPage(1, r.value.totalPages) == 1 && ShownTotal(r.value.totalPages) == 1
            && HandlePrev(1).None? && HandleNext(1, r.value.totalPages).None?
  {
  }

  /** From a page the meetings query answered, the next button only ever leads to a page
      that has meetings on it. */
  lemma NextLeadsToNonEmptyPage(meetings: seq<MeetingSchema.Meeting>, agents: seq<Database.Agent>, caller: string,
                                page: int, pageSize: int, q: MeetingsRouter.MeetingQuery,
                                f: MeetingsRouter.MeetingFilter)
    requires Paging.MinPageSize <= pageSize <= Paging.MaxPageSize
    requires MeetingsRouter.ParseFilter(q) == Ok(f)
    requires page >= 1
    ensures var total := MeetingsRouter.GetMany(meetings, agents, caller, Some(page), Some(pageSize), q).value.totalPages;
            HandleNext(page, total).Some? ==>
              var next := MeetingsRouter.GetMany(meetings, agents, caller, HandleNext(page, total), Some(pageSize), q);
              next.Ok? && next.value.items != []
  {
    MeetingsRouter.MeetingPageNonEmptyIff(meetings, agents, caller, page + 1, pageSize, q, f);
  }
}
