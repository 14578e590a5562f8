/**
 * The errors a procedure answers with, and the list-query paging shared by the meetings and
 * agents routers: the page and page-size inputs with their defaults and bounds, and the
 * `LIMIT pageSize OFFSET (page - 1) * pageSize` slice.
 */
module Rpc {
  /** The procedure errors the routers raise: `NOT_FOUND` with its message, `BAD_REQUEST`
      with the input schema's messages, and the `INTERNAL_SERVER_ERROR` a failing query becomes. */
  datatype Error = NotFound(message: string) | BadRequest(issues: seq<string>) | InternalServerError
}

module Paging {
  import opened Wrappers
  import Sql

  const DefaultPage := 1
  const DefaultPageSize := 10
  const MinPageSize := 1
  const MaxPageSize := 100

  const PageSizeTooSmall := "Number must be greater than or equal to 1"
  const PageSizeTooLarge := "Number must be less than or equal to 100"

  /** A parsed paging input. */
  datatype PageRequest = PageRequest(page: int, pageSize: nat)

  /** The `page` and `pageSize` fields of a list query's input schema: absent fields take
      their defaults, and a page size outside [1, 100] is refused with its message. */
  function ParsePaging(page: Option<int>, pageSize: Option<int>): (r: Result<PageRequest, seq<string>>)
    ensures r.Ok? <==> pageSize.None? || MinPageSize <= pageSize.value <= MaxPageSize
    ensures r.Ok? ==> r.value.page == page.GetOr(DefaultPage) && r.value.pageSize == pageSize.GetOr(DefaultPageSize)
    ensures r.Ok? ==> MinPageSize <= r.value.pageSize <= MaxPageSize
    ensures r.Err? ==> r.error == [if pageSize.value < MinPageSize then PageSizeTooSmall else PageSizeTooLarge]
  {
    var size := pageSize.GetOr(DefaultPageSize);
    if size < MinPageSize then Err([PageSizeTooSmall])
    else if size > MaxPageSize then Err([PageSizeTooLarge])
    else Ok(PageRequest(page.GetOr(DefaultPage), size))
  }

  /** `(page - 1) * pageSize`, the number of rows before the page. */
  function Offset(req: PageRequest): int {
    (req.page - 1) * req.pageSize
  }

  /** `LIMIT pageSize OFFSET (page - 1) * pageSize`; absent when the offset is negative, which
      the database refuses. */
  function PageOf<T>(rows: seq<T>, req: PageRequest): (r: Option<seq<T>>)
    requires req.pageSize >= 1
    ensures r.None? <==> req.page < 1
    ensures r.Some? ==> |r.value| <= req.pageSize
    ensures r.Some? ==> forall k :: 0 <= k < |r.value| ==>
              0 <= Offset(req) + k < |rows| && r.value[k] == rows[Offset(req) + k]
  {
    if req.page < 1 then None
    else
      Some(Sql.LimitOffset(rows, req.pageSize, Offset(req)))
  }

  /** A page has rows exactly when its number lies between 1 and the number of pages
      `ceil(total / pageSize)`. */
  lemma PageNonEmptyIff<T>(rows: seq<T>, req: PageRequest)
    requires req.pageSize >= 1
    ensures (PageOf(rows, req).Some? && PageOf(rows, req).value != []) <==>
            1 <= req.page <= Sql.CeilDiv(|rows|, req.pageSize)
  {
    var c := Sql.CeilDiv(|rows|, req.pageSize);
    var s := req.pageSize;
    if 1 <= req.page {
      var offset := (req.page - 1) * s;
      if req.page <= c {
        assert offset <= (c - 1) * s;
        assert offset < |rows|;
      } else {
        assert offset >= c * s;
      }
    }
  }

  /** Every row is on exactly one page: row `i` is entry `i % pageSize` of page
      `i / pageSize + 1`, and that page is among the first `ceil(total / pageSize)`. */
  lemma EveryRowOnItsPage<T>(rows: seq<T>, pageSize: nat, i: nat)
    requires pageSize >= 1 && i < |rows|
    ensures var req := PageRequest(i / pageSize + 1, pageSize);
            && 1 <= req.page <= Sql.CeilDiv(|rows|, pageSize)
            && Offset(req) + i % pageSize == i
            && PageOf(rows, req).Some?
            && i % pageSize < |PageOf(rows, req).value|
            && PageOf(rows, req).value[i % pageSize] == rows[i]
  {
    var req := PageRequest(i / pageSize + 1, pageSize);
    var offset := (i / pageSize) * pageSize;
    assert offset + i % pageSize == i;
    assert offset <= i;
    PageNonEmptyIff(rows, req);
  }
}
