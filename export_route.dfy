/**
 * `POST /api/admin/applications/export`: the spreadsheet export.  The handler builds the
 * same `where` object as the administrative list from an optional `filters` object, fetches
 * every matching application newest first, and turns each into one spreadsheet row.  The
 * workbook itself (sheet, column widths, binary encoding) is not modelled.
 */
module ExportRoute {
  import opened Wrappers
  import opened Text
  import opened Tables
  import opened Constants
  import opened AdminQuery
  import Utils

  /** The request body's `filters` member. */
  datatype Filters = Filters(status: Option<string>, projectType: Option<string>, searchTerm: Option<string>)

  /** The conditional assignments that build `where`; `filters?.x` is absent when the
      whole object is. */
  method BuildWhere(filters: Option<Filters>) returns (w: Where)
    ensures filters.None? ==> w == NoFilter
    ensures filters.Some? ==> w == WhereOf(filters.value.status, filters.value.projectType, filters.value.searchTerm)
  {
    w := NoFilter;
    if filters.Some? && Utils.Truthy(filters.value.status) && filters.value.status.value != "all" {
      w := w.(status := filters.value.status);
    }
    if filters.Some? && Utils.Truthy(filters.value.projectType) && filters.value.projectType.value != "all" {
      w := w.(projectType := filters.value.projectType);
    }
    if filters.Some? && Utils.Truthy(filters.value.searchTerm) {
      w := w.(search := filters.value.searchTerm);
    }
  }

  /** The route's own status-label table; it has no entry for `ON_HOLD`. */
  const StatusLabels: map<string, string> :=
    map["PENDING" := "검토대기", "REVIEWING" := "검토중", "APPROVED" := "승인", "REJECTED" := "반려"]

  /** `PROJECT_TYPES[raw] || raw`. */
  function ServiceTypeCell(raw: string): string {
    match ProjectTypeOf(raw)
    case Some(t) => ProjectTypeLabel(t)
    case None => raw
  }

  /** `BUDGET_RANGES[raw] || raw`. */
  function BudgetCell(raw: string): string {
    match BudgetRangeOf(raw)
    case Some(b) => BudgetRangeLabel(b)
    case None => raw
  }

  /** `statusLabels[raw] || raw`. */
  function StatusCell(raw: string): string {
    if raw in StatusLabels then StatusLabels[raw] else raw
  }

  /** Each label column shows the label of a known key and the stored text otherwise; of the
      five statuses only `ON_HOLD` is written as its key. */
  lemma LabelFallbacks(raw: string, s: Status)
    ensures ProjectTypeOf(raw).None? ==> ServiceTypeCell(raw) == raw
    ensures ProjectTypeOf(raw).Some? ==> ServiceTypeCell(raw) == ProjectTypeLabel(ProjectTypeOf(raw).value)
    ensures BudgetRangeOf(raw).None? ==> BudgetCell(raw) == raw
    ensures BudgetRangeOf(raw).Some? ==> BudgetCell(raw) == BudgetRangeLabel(BudgetRangeOf(raw).value)
    ensures StatusCell(StatusKey(s)) == StatusKey(s) <==> s == OnHold
  {
  }

  /** `names.join(", ") || "없음"`. */
  function AttachmentsCell(names: seq<string>): (cell: string) {
    var joined := Join(names, ", ");
    if joined == "" then "없음" else joined
  }

  /** The placeholder appears exactly when the join is empty: no attachment, or a single one
      with an empty name; otherwise the cell is the comma-separated list. */
  lemma AttachmentsCellSpec(names: seq<string>)
    ensures (|names| <= 1 && forall k :: 0 <= k < |names| ==> names[k] == "") ==> AttachmentsCell(names) == "없음"
    ensures !(|names| <= 1 && forall k :: 0 <= k < |names| ==> names[k] == "") ==> AttachmentsCell(names) == Join(names, ", ")
  {
    JoinEmpty(names, ", ");
  }

  /** A fetched application with the original names of its attachments, as the query's
      `include` returns them. */
  datatype Fetched = Fetched(app: ApplicationRecord, attachmentNames: seq<string>)

  /** One spreadsheet row; the two date columns are locale formatting and are left out. */
  datatype ExportRow = ExportRow(
    number: nat,
    applicationId: string,
    companyName: string,
    contactName: string,
    contactEmail: string,
    contactPhone: string,
    industry: string,
    serviceType: string,
    budgetRange: string,
    timeline: string,
    status: string,
    marketingStatus: string,
    challenges: string,
    description: string,
    attachments: string)

  /** The row for the application at position `number - 1`. */
  function RowOf(number: nat, f: Fetched): ExportRow {
    var a := f.app;
    ExportRow(number, a.applicationId, a.companyName, a.contactName, a.contactEmail, a.contactPhone,
      a.projectTitle, ServiceTypeCell(a.projectType), BudgetCell(a.budgetRange), a.timeline,
      StatusCell(a.status), a.aiRequirements, a.blockchainNeeds, a.description,
      AttachmentsCell(f.attachmentNames))
  }

  /** `applications.map((app, index) => ...)`: one row per application in fetch order,
      numbered from 1. */
  function ExportRows(fetched: seq<Fetched>): (rows: seq<ExportRow>)
    ensures |rows| == |fetched|
    ensures forall k :: 0 <= k < |rows| ==> rows[k].number == k + 1 && rows[k].applicationId == fetched[k].app.applicationId
  {
    seq(|fetched|, k requires 0 <= k < |fetched| => RowOf(k + 1, fetched[k]))
  }

  lemma RowAt(fetched: seq<Fetched>, k: nat)
    requires k < |fetched|
    ensures ExportRows(fetched)[k] == RowOf(k + 1, fetched[k])
  {
  }

  /** `"applications_" + now.toISOString().split('T')[0] + ".xlsx"`. */
  function ExportFileName(isoNow: string): string {
    "applications_" + FirstSegment(isoNow, 'T') + ".xlsx"
  }

  /** For an ISO timestamp the name carries the date part. */
  lemma ExportFileNameHasDate(date: string, time: string)
    requires 'T' !in date
    ensures ExportFileName(date + "T" + time) == "applications_" + date + ".xlsx"
  {
    FirstSegmentUpTo(date, 'T', time);
  }

  /** The handler: the rows of every application the filters select, newest first, and the
      download name.  `namesOf` gives the attachment names the query returns for a row id;
      `isoNow` is the current time in ISO form. */
  method Export(apps: seq<ApplicationRecord>, namesOf: string -> seq<string>, filters: Option<Filters>, isoNow: string)
    returns (rows: seq<ExportRow>, fileName: string)
    ensures var fetched := FindMany(apps, if filters.None? then NoFilter
                              else WhereOf(filters.value.status, filters.value.projectType, filters.value.searchTerm));
      && |rows| == |fetched|
      && forall k :: 0 <= k < |rows| ==> rows[k] == RowOf(k + 1, Fetched(fetched[k], namesOf(fetched[k].rowId)))
    ensures fileName == ExportFileName(isoNow)
  {
    var w := BuildWhere(filters);
    var found := FindMany(apps, w);
    var fetched := seq(|found|, k requires 0 <= k < |found| => Fetched(found[k], namesOf(found[k].rowId)));
    rows := ExportRows(fetched);
    forall k | 0 <= k < |rows| ensures rows[k] == RowOf(k + 1, Fetched(found[k], namesOf(found[k].rowId))) {
      RowAt(fetched, k);
    }
    fileName := ExportFileName(isoNow);
  }
}
