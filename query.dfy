/**
 * The query the administrative application list and the spreadsheet export share: a
 * `where` object with an optional status, an optional project type and an optional search
 * term, and `findMany` over the application table ordered by `createdAt` descending.
 */
module AdminQuery {
  import opened Wrappers
  import opened Text
  import opened Tables
  import Seqs
  import Utils

  /** The `where` object: each present member is one condition of the query. */
  datatype Where = Where(status: Option<string>, projectType: Option<string>, search: Option<string>)

  const NoFilter: Where := Where(None, None, None)

  /** `{ contains: term, mode: "insensitive" }` on one column. */
  predicate ContainsInsensitive(column: string, term: string) {
    Includes(Lower(column), Lower(term))
  }

  /** The `OR` of the four searchable columns. */
  predicate SearchHit(a: ApplicationRecord, term: string) {
    || ContainsInsensitive(a.companyName, term)
    || ContainsInsensitive(a.contactName, term)
    || ContainsInsensitive(a.contactEmail, term)
    || ContainsInsensitive(a.applicationId, term)
  }

  /** A row satisfies every condition present in `w`. */
  predicate Matches(w: Where, a: ApplicationRecord) {
    && (w.status.None? || a.status == w.status.value)
    && (w.projectType.None? || a.projectType == w.projectType.value)
    && (w.search.None? || SearchHit(a, w.search.value))
  }

  /** A query parameter lets a row through: absent, empty, `"all"`, or equal to the column. */
  predicate Passes(param: Option<string>, column: string) {
    !Utils.Truthy(param) || param.value == "all" || param.value == column
  }

  /** A search parameter lets a row through: absent, empty, or found in one of the columns. */
  predicate SearchPasses(search: Option<string>, a: ApplicationRecord) {
    !Utils.Truthy(search) || SearchHit(a, search.value)
  }

  /** The `where` object the handlers build from their three parameters: a status or
      project-type condition only for a non-empty value other than `"all"`, an `OR` only
      for a non-empty search. */
  function WhereOf(status: Option<string>, projectType: Option<string>, search: Option<string>): (w: Where)
    ensures w.status.Some? <==> Utils.Truthy(status) && status.value != "all"
    ensures w.projectType.Some? <==> Utils.Truthy(projectType) && projectType.value != "all"
    ensures w.search.Some? <==> Utils.Truthy(search)
    ensures forall a :: Matches(w, a) <==>
      Passes(status, a.status) && Passes(projectType, a.projectType) && SearchPasses(search, a)
  {
    Where(
      if Utils.Truthy(status) && status.value != "all" then status else None,
      if Utils.Truthy(projectType) && projectType.value != "all" then projectType else None,
      if Utils.Truthy(search) then search else None)
  }

  /** Without parameters the `where` object is empty and every row matches. */
  lemma NoParametersNoFilter(a: ApplicationRecord)
    ensures WhereOf(None, None, None) == NoFilter
    ensures Matches(WhereOf(None, Some("all"), Some("")), a)
  {
  }

  /** The rows `where` selects, in table order; `count({ where })` is its length. */
  function MatchingRows(apps: seq<ApplicationRecord>, w: Where): (r: seq<ApplicationRecord>)
    ensures Seqs.IsSubsequence(r, apps)
    ensures forall a :: a in r <==> a in apps && Matches(w, a)
  {
    Seqs.Filter(apps, a => Matches(w, a))
  }

  /** `orderBy: { createdAt: "desc" }` as a comparator. */
  predicate NewerFirst(a: ApplicationRecord, b: ApplicationRecord) {
    a.createdAt >= b.createdAt
  }

  lemma NewerFirstIsTotalPreorder()
    ensures Seqs.TotalPreorder(NewerFirst)
  {
  }

  /** `findMany({ where, orderBy: { createdAt: "desc" } })`: exactly the matching rows,
      newest first.  Rows created at the same instant keep table order. */
  function FindMany(apps: seq<ApplicationRecord>, w: Where): (r: seq<ApplicationRecord>)
    ensures multiset(r) == multiset(MatchingRows(apps, w))
    ensures |r| == |MatchingRows(apps, w)|
    ensures forall a :: a in r <==> a in apps && Matches(w, a)
    ensures forall i, j :: 0 <= i < j < |r| ==> r[i].createdAt >= r[j].createdAt
  {
    var rows := MatchingRows(apps, w);
    NewerFirstIsTotalPreorder();
    Seqs.SortBySorted(rows, NewerFirst);
    var r := Seqs.SortBy(rows, NewerFirst);
    assert forall i, j :: 0 <= i < j < |r| ==> NewerFirst(r[i], r[j]);
    assert forall a :: a in r <==> a in multiset(rows);
    r
  }

  /** Every row satisfies the empty `where` object, so the unfiltered query returns the
      whole table. */
  lemma {:induction false} NoFilterKeepsTable(apps: seq<ApplicationRecord>)
    ensures MatchingRows(apps, NoFilter) == apps
    ensures multiset(FindMany(apps, NoFilter)) == multiset(apps)
  {
    if apps != [] {
      NoFilterKeepsTable(apps[1..]);
      assert Matches(NoFilter, apps[0]);
      assert apps == [apps[0]] + apps[1..];
    }
  }
}
