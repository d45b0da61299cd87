/**
 * `GET /api/admin/applications`: the administrative list.  The handler builds the `where`
 * object field by field from the query string, counts the matching rows, and returns one
 * page of them, newest first, with the pagination block.
 */
module AdminApplicationsRoute {
  import opened Wrappers
  import opened Tables
  import opened AdminQuery
  import Paging
  import Utils

  const DefaultPage: int := 1
  const DefaultLimit: int := 50

  datatype ListResponse =
    | Listed(applications: seq<ApplicationRecord>, pagination: Paging.Pagination)
    | ServerError(status: int)

  /** The conditional assignments that build `where`. */
  method BuildWhere(status: Option<string>, projectType: Option<string>, search: Option<string>)
    returns (w: Where)
    ensures w == WhereOf(status, projectType, search)
  {
    w := NoFilter;
    if Utils.Truthy(status) && status.value != "all" {
      w := w.(status := status);
    }
    if Utils.Truthy(projectType) && projectType.value != "all" {
      w := w.(projectType := projectType);
    }
    if Utils.Truthy(search) {
      w := w.(search := search);
    }
  }

  /** The handler.  `pageParam`/`limitParam` are the parsed `page` and `limit` parameters
      (absent when missing or empty); a negative skip makes the query fail, which the
      handler reports as 500, and a negative limit counts the page from the oldest row. */
  method Get(apps: seq<ApplicationRecord>, status: Option<string>, projectType: Option<string>,
             search: Option<string>, pageParam: Option<int>, limitParam: Option<int>)
    returns (resp: ListResponse)
    ensures var page := Paging.PageParam(pageParam, DefaultPage);
      var limit := Paging.PageParam(limitParam, DefaultLimit);
      var rows := FindMany(apps, WhereOf(status, projectType, search));
      var skip := Paging.Offset(page, limit);
      && (resp.ServerError? <==> skip < 0)
      && (resp.ServerError? ==> resp.status == 500)
      && (resp.Listed? ==>
            && resp.pagination == Paging.Pagination(page, limit, |rows|, Paging.CeilPages(|rows|, limit))
            && resp.applications == Paging.Window(rows, skip, limit).value
            && (limit >= 0 ==>
                  && |resp.applications| <= limit
                  && forall k :: 0 <= k < |resp.applications| ==>
                       skip + k < |rows| && resp.applications[k] == rows[skip + k]))
  {
    var w := BuildWhere(status, projectType, search);
    var page := Paging.PageParam(pageParam, DefaultPage);
    var limit := Paging.PageParam(limitParam, DefaultLimit);
    var rows := FindMany(apps, w);
    var total := |MatchingRows(apps, w)|;
    assert total == |rows|;
    var window := Paging.Window(rows, Paging.Offset(page, limit), limit);
    if window.None? {
      resp := ServerError(500);
    } else {
      resp := Listed(window.value, Paging.Pagination(page, limit, total, Paging.CeilPages(total, limit)));
    }
  }

  /** Without parameters the first page holds the fifty newest applications of the whole
      table, and the pages together hold every application. */
  lemma DefaultListing(apps: seq<ApplicationRecord>)
    ensures var rows := FindMany(apps, WhereOf(None, None, None));
      && multiset(rows) == multiset(apps)
      && Paging.Offset(DefaultPage, DefaultLimit) == 0
      && Paging.Window(rows, 0, DefaultLimit).value == rows[..if |rows| < 50 then |rows| else 50]
  {
    NoFilterKeepsTable(apps);
  }
}
