/**
 * The three request schemas of the application intake: the submission schema, the
 * tracking-id lookup schema and the administrator's update schema.  A schema either
 * returns the normalised payload or the list of every issue it found, field by field,
 * in the schema's field order.
 */
module ApplicationValidation {
  import opened Wrappers
  import opened Text
  import opened Constants

  /** The library's `.email()` and `.cuid()` format checks, left uninterpreted. */
  datatype FormatChecks = FormatChecks(isEmail: string -> bool, isCuid: string -> bool)

  datatype Field =
    | CompanyName | ContactName | ContactEmail | ContactPhone | ProjectTitle | ProjectTypeField
    | Description | BudgetRangeField | Timeline | AiRequirements | BlockchainNeeds | AttachmentIds
    | ApplicationIdField | StatusField | PriorityField | AdminNotes

  datatype IssueKind =
    | Required            // the field is absent (or not a string)
    | TooSmall(minimum: nat)
    | TooBig(maximum: nat)
    | InvalidEmail
    | InvalidPhone
    | InvalidEnum
    | InvalidCuid(index: nat)

  datatype Issue = Issue(field: Field, kind: IssueKind)

  /** A submission body as parsed from JSON; `None` is a missing key. */
  datatype SubmitPayload = SubmitPayload(
    companyName: Option<string>,
    contactName: Option<string>,
    contactEmail: Option<string>,
    contactPhone: Option<string>,
    projectTitle: Option<string>,
    projectType: Option<string>,
    description: Option<string>,
    budgetRange: Option<string>,
    timeline: Option<string>,
    aiRequirements: Option<string>,
    blockchainNeeds: Option<string>,
    attachmentIds: Option<seq<string>>)

  /** The validated submission. */
  datatype Submission = Submission(
    companyName: string,
    contactName: string,
    contactEmail: string,
    contactPhone: string,
    projectTitle: string,
    projectType: ProjectType,
    description: string,
    budgetRange: BudgetRange,
    timeline: string,
    aiRequirements: string,
    blockchainNeeds: string,
    attachmentIds: seq<string>)

  /** The enum lists written out in the submission schema. */
  const SchemaProjectTypes: seq<string> := ["youtube", "seo", "sns", "local", "payment", "consulting"]
  const SchemaBudgetRanges: seq<string> := ["under_10m", "range_10m_50m", "range_50m_100m", "range_100m_500m", "over_500m"]
  const SchemaStatuses: seq<string> := ["PENDING", "REVIEWING", "APPROVED", "REJECTED", "ON_HOLD"]
  const SchemaPriorities: seq<string> := ["LOW", "MEDIUM", "HIGH", "URGENT"]
  const MaxAttachmentIds: nat := 5

  /** The fields of the submission schema, in declaration order. */
  const SubmitFields: seq<Field> := [
    CompanyName, ContactName, ContactEmail, ContactPhone, ProjectTitle, ProjectTypeField,
    Description, BudgetRangeField, Timeline, AiRequirements, BlockchainNeeds, AttachmentIds]

  /** The schema's enums accept exactly the keys of the constant tables. */
  lemma SchemaEnumsMatchTables(key: string)
    ensures key in SchemaProjectTypes <==> ProjectTypeOf(key).Some?
    ensures key in SchemaBudgetRanges <==> BudgetRangeOf(key).Some?
    ensures key in SchemaStatuses <==> StatusOf(key).Some?
    ensures key in SchemaPriorities <==> PriorityOf(key).Some?
    ensures SchemaProjectTypes == ProjectTypeKeys && SchemaBudgetRanges == BudgetRangeKeys
    ensures SchemaStatuses == StatusKeys
    ensures MaxAttachmentIds == MaxFiles
  {
  }

  /** `/^[0-9-+\s()]+$/`: digits, `-`, `+`, white space and parentheses. */
  predicate PhoneChar(c: char) {
    '0' <= c <= '9' || c == '-' || c == '+' || c == '(' || c == ')' || IsSpace(c)
  }

  predicate PhonePattern(s: string) {
    |s| > 0 && forall k :: 0 <= k < |s| ==> PhoneChar(s[k])
  }

  /** `z.string().min(lo).max(hi)`: both bounds on the JavaScript length. */
  function LengthIssues(f: Field, v: Option<string>, lo: nat, hi: nat): seq<Issue> {
    match v
    case None => [Issue(f, Required)]
    case Some(s) =>
      (if JsLength(s) < lo then [Issue(f, TooSmall(lo))] else [])
      + (if JsLength(s) > hi then [Issue(f, TooBig(hi))] else [])
  }

  function EnumIssues(f: Field, v: Option<string>, allowed: seq<string>): seq<Issue> {
    match v
    case None => [Issue(f, Required)]
    case Some(s) => if s in allowed then [] else [Issue(f, InvalidEnum)]
  }

  /** One issue per element of `ids` (numbered from `from`) that is not a cuid. */
  function CuidIssues(ids: seq<string>, from: nat, checks: FormatChecks): (r: seq<Issue>)
    ensures forall k :: 0 <= k < |r| ==> r[k].field == AttachmentIds
    ensures r == [] <==> forall k :: 0 <= k < |ids| ==> checks.isCuid(ids[k])
  {
    if ids == [] then []
    else
      var rest := CuidIssues(ids[1..], from + 1, checks);
      assert forall k :: 1 <= k < |ids| ==> ids[k] == ids[1..][k - 1];
      (if checks.isCuid(ids[0]) then [] else [Issue(AttachmentIds, InvalidCuid(from))]) + rest
  }

  /** The issues the submission schema reports for one field. */
  function FieldIssues(p: SubmitPayload, checks: FormatChecks, f: Field): seq<Issue> {
    match f
    case CompanyName => LengthIssues(f, p.companyName, 1, 100)
    case ContactName => LengthIssues(f, p.contactName, 1, 50)
    case ContactEmail =>
      (match p.contactEmail
       case None => [Issue(f, Required)]
       case Some(s) =>
         (if checks.isEmail(s) then [] else [Issue(f, InvalidEmail)])
         + (if JsLength(s) > 100 then [Issue(f, TooBig(100))] else []))
    case ContactPhone =>
      (match p.contactPhone
       case None => [Issue(f, Required)]
       case Some(s) =>
         (if PhonePattern(s) then [] else [Issue(f, InvalidPhone)])
         + (if JsLength(s) > 20 then [Issue(f, TooBig(20))] else []))
    case ProjectTitle => LengthIssues(f, p.projectTitle, 1, 200)
    case ProjectTypeField => EnumIssues(f, p.projectType, SchemaProjectTypes)
    case Description => LengthIssues(f, p.description, 10, 5000)
    case BudgetRangeField => EnumIssues(f, p.budgetRange, SchemaBudgetRanges)
    case Timeline => LengthIssues(f, p.timeline, 1, 100)
    case AiRequirements => LengthIssues(f, p.aiRequirements, 10, 2000)
    case BlockchainNeeds => LengthIssues(f, p.blockchainNeeds, 10, 2000)
    case AttachmentIds =>
      (match p.attachmentIds
       case None => []
       case Some(ids) =>
         (if |ids| > MaxAttachmentIds then [Issue(f, TooBig(MaxAttachmentIds))] else [])
         + CuidIssues(ids, 0, checks))
    case _ => []
  }

  /** What the submission schema demands of each field, stated directly. */
  predicate FieldValid(p: SubmitPayload, checks: FormatChecks, f: Field) {
    match f
    case CompanyName => p.companyName.Some? && 1 <= JsLength(p.companyName.value) <= 100
    case ContactName => p.contactName.Some? && 1 <= JsLength(p.contactName.value) <= 50
    case ContactEmail =>
      p.contactEmail.Some? && checks.isEmail(p.contactEmail.value) && JsLength(p.contactEmail.value) <= 100
    case ContactPhone =>
      p.contactPhone.Some? && PhonePattern(p.contactPhone.value) && JsLength(p.contactPhone.value) <= 20
    case ProjectTitle => p.projectTitle.Some? && 1 <= JsLength(p.projectTitle.value) <= 200
    case ProjectTypeField => p.projectType.Some? && ProjectTypeOf(p.projectType.value).Some?
    case Description => p.description.Some? && 10 <= JsLength(p.description.value) <= 5000
    case BudgetRangeField => p.budgetRange.Some? && BudgetRangeOf(p.budgetRange.value).Some?
    case Timeline => p.timeline.Some? && 1 <= JsLength(p.timeline.value) <= 100
    case AiRequirements => p.aiRequirements.Some? && 10 <= JsLength(p.aiRequirements.value) <= 2000
    case BlockchainNeeds => p.blockchainNeeds.Some? && 10 <= JsLength(p.blockchainNeeds.value) <= 2000
    case AttachmentIds =>
      p.attachmentIds.None?
      || (|p.attachmentIds.value| <= 5
          && forall k :: 0 <= k < |p.attachmentIds.value| ==> checks.isCuid(p.attachmentIds.value[k]))
    case _ => true
  }

  /** A field has issues exactly when it is not valid, and every issue names it. */
  lemma FieldIssuesSpec(p: SubmitPayload, checks: FormatChecks, f: Field)
    ensures FieldIssues(p, checks, f) == [] <==> FieldValid(p, checks, f)
    ensures forall k :: 0 <= k < |FieldIssues(p, checks, f)| ==> FieldIssues(p, checks, f)[k].field == f
  {
    match f
    case ProjectTypeField => SchemaEnumsMatchTables(p.projectType.GetOr(""));
    case BudgetRangeField => SchemaEnumsMatchTables(p.budgetRange.GetOr(""));
    case _ =>
  }

  function IssuesOf(p: SubmitPayload, checks: FormatChecks, fields: seq<Field>): seq<Issue> {
    if fields == [] then [] else FieldIssues(p, checks, fields[0]) + IssuesOf(p, checks, fields[1..])
  }

  /** `ApplicationSubmitSchema.safeParse(body).error.issues` (empty on success). */
  function SubmitIssues(p: SubmitPayload, checks: FormatChecks): seq<Issue> {
    IssuesOf(p, checks, SubmitFields)
  }

  predicate Reported(issues: seq<Issue>, f: Field) {
    exists k :: 0 <= k < |issues| && issues[k].field == f
  }

  lemma ReportedConcat(a: seq<Issue>, b: seq<Issue>, f: Field)
    ensures Reported(a + b, f) <==> Reported(a, f) || Reported(b, f)
  {
    var ab := a + b;
    if Reported(b, f) {
      var k :| 0 <= k < |b| && b[k].field == f;
      assert ab[|a| + k] == b[k];
    }
    if Reported(a, f) {
      var k :| 0 <= k < |a| && a[k].field == f;
      assert ab[k] == a[k];
    }
    if Reported(ab, f) {
      var k :| 0 <= k < |ab| && ab[k].field == f;
      if k < |a| { assert ab[k] == a[k]; } else { assert ab[k] == b[k - |a|]; }
    }
  }

  /** The issues of field `g` report `f` exactly when `f` is `g` and `g` is invalid. */
  lemma FieldReported(p: SubmitPayload, checks: FormatChecks, g: Field, f: Field)
    ensures Reported(FieldIssues(p, checks, g), f) <==> f == g && !FieldValid(p, checks, g)
  {
    FieldIssuesSpec(p, checks, g);
    var issues := FieldIssues(p, checks, g);
    if f == g && !FieldValid(p, checks, g) {
      assert issues[0].field == f;
    }
  }

  /** Over any list of fields, an issue names `f` exactly when `f` is listed and invalid. */
  lemma {:induction false} IssuesOfSpec(p: SubmitPayload, checks: FormatChecks, fields: seq<Field>, f: Field)
    ensures Reported(IssuesOf(p, checks, fields), f) <==> f in fields && !FieldValid(p, checks, f)
  {
    if fields != [] {
      IssuesOfSpec(p, checks, fields[1..], f);
      FieldReported(p, checks, fields[0], f);
      ReportedConcat(FieldIssues(p, checks, fields[0]), IssuesOf(p, checks, fields[1..]), f);
      assert f in fields <==> f == fields[0] || f in fields[1..];
    }
  }

  /** Over any list of fields, there are no issues exactly when every listed field is valid. */
  lemma {:induction false} IssuesOfEmpty(p: SubmitPayload, checks: FormatChecks, fields: seq<Field>)
    ensures IssuesOf(p, checks, fields) == [] <==> forall g :: g in fields ==> FieldValid(p, checks, g)
  {
    if fields != [] {
      IssuesOfEmpty(p, checks, fields[1..]);
      FieldIssuesSpec(p, checks, fields[0]);
      assert forall g :: g in fields <==> g == fields[0] || g in fields[1..];
    }
  }

  /** Every issue of a submission names a field of the schema and every invalid field is reported. */
  lemma SubmitIssuesSpec(p: SubmitPayload, checks: FormatChecks, f: Field)
    ensures Reported(SubmitIssues(p, checks), f) <==> f in SubmitFields && !FieldValid(p, checks, f)
    ensures SubmitIssues(p, checks) == [] <==> forall g :: g in SubmitFields ==> FieldValid(p, checks, g)
  {
    IssuesOfSpec(p, checks, SubmitFields, f);
    IssuesOfEmpty(p, checks, SubmitFields);
  }

  /** Every field the normalised submission reads is present and decodes. */
  predicate Complete(p: SubmitPayload) {
    && p.companyName.Some? && p.contactName.Some? && p.contactEmail.Some? && p.contactPhone.Some?
    && p.projectTitle.Some? && p.description.Some? && p.timeline.Some?
    && p.aiRequirements.Some? && p.blockchainNeeds.Some?
    && p.projectType.Some? && ProjectTypeOf(p.projectType.value).Some?
    && p.budgetRange.Some? && BudgetRangeOf(p.budgetRange.value).Some?
    && (p.attachmentIds.Some? ==> |p.attachmentIds.value| <= MaxAttachmentIds)
  }

  lemma ValidIsComplete(p: SubmitPayload, checks: FormatChecks)
    requires forall g :: g in SubmitFields ==> FieldValid(p, checks, g)
    ensures Complete(p)
  {
    ValidHasContacts(p, checks);
    ValidHasProject(p, checks);
    ValidAt(p, checks, 5);
    ValidAt(p, checks, 7);
    ValidAt(p, checks, 11);
  }

  lemma ValidAt(p: SubmitPayload, checks: FormatChecks, i: nat)
    requires forall g :: g in SubmitFields ==> FieldValid(p, checks, g)
    requires i < |SubmitFields|
    ensures FieldValid(p, checks, SubmitFields[i])
  {
    assert SubmitFields[i] in SubmitFields;
  }

  lemma ValidHasContacts(p: SubmitPayload, checks: FormatChecks)
    requires forall g :: g in SubmitFields ==> FieldValid(p, checks, g)
    ensures p.companyName.Some? && p.contactName.Some? && p.contactEmail.Some? && p.contactPhone.Some?
  {
    ValidAt(p, checks, 0);
    ValidAt(p, checks, 1);
    ValidAt(p, checks, 2);
    ValidAt(p, checks, 3);
  }

  lemma ValidHasProject(p: SubmitPayload, checks: FormatChecks)
    requires forall g :: g in SubmitFields ==> FieldValid(p, checks, g)
    ensures p.projectTitle.Some? && p.description.Some? && p.timeline.Some?
    ensures p.aiRequirements.Some? && p.blockchainNeeds.Some?
  {
    ValidAt(p, checks, 4);
    ValidAt(p, checks, 6);
    ValidAt(p, checks, 8);
    ValidAt(p, checks, 9);
    ValidAt(p, checks, 10);
  }

  /** The schema's output: names and title trimmed, enums decoded, attachment ids defaulted. */
  function Normalise(p: SubmitPayload): Submission
    requires Complete(p)
  {
    Submission(
      Trim(p.companyName.value),
      Trim(p.contactName.value),
      p.contactEmail.value,
      p.contactPhone.value,
      Trim(p.projectTitle.value),
      ProjectTypeOf(p.projectType.value).value,
      p.description.value,
      BudgetRangeOf(p.budgetRange.value).value,
      p.timeline.value,
      p.aiRequirements.value,
      p.blockchainNeeds.value,
      p.attachmentIds.GetOr([]))
  }

  /** `ApplicationSubmitSchema.safeParse(body)`: the trimmed payload when every field is
      valid, otherwise every issue found. */
  function ParseSubmit(p: SubmitPayload, checks: FormatChecks): (r: Result<Submission, seq<Issue>>)
    ensures r.Success? <==> forall g :: g in SubmitFields ==> FieldValid(p, checks, g)
    ensures r.Failure? ==>
      && r.error != []
      && forall f :: Reported(r.error, f) <==> f in SubmitFields && !FieldValid(p, checks, f)
    ensures r.Success? ==>
      && Complete(p)
      && r.value.companyName == Trim(p.companyName.value)
      && r.value.contactName == Trim(p.contactName.value)
      && r.value.projectTitle == Trim(p.projectTitle.value)
      && r.value.contactEmail == p.contactEmail.value
      && r.value.contactPhone == p.contactPhone.value
      && r.value.description == p.description.value
      && r.value.timeline == p.timeline.value
      && r.value.aiRequirements == p.aiRequirements.value
      && r.value.blockchainNeeds == p.blockchainNeeds.value
      && ProjectTypeKey(r.value.projectType) == p.projectType.value
      && BudgetRangeKey(r.value.budgetRange) == p.budgetRange.value
      && r.value.attachmentIds == p.attachmentIds.GetOr([])
      && |r.value.attachmentIds| <= MaxAttachmentIds
  {
    var issues := SubmitIssues(p, checks);
    SubmitIssuesSpec(p, checks, CompanyName);
    assert forall f :: Reported(issues, f) <==> f in SubmitFields && !FieldValid(p, checks, f) by {
      forall f ensures Reported(issues, f) <==> f in SubmitFields && !FieldValid(p, checks, f) {
        SubmitIssuesSpec(p, checks, f);
      }
    }
    if issues == [] then
      ValidIsComplete(p, checks);
      Success(Normalise(p))
    else
      Failure(issues)
  }

  /** `ApplicationCheckSchema.safeParse({ applicationId })`: 1 to 50 characters, not trimmed. */
  function ParseCheck(applicationId: Option<string>): (r: Result<string, seq<Issue>>)
    ensures r.Success? <==> applicationId.Some? && 1 <= JsLength(applicationId.value) <= 50
    ensures r.Success? ==> r.value == applicationId.value
    ensures r.Failure? ==> r.error != [] && forall k :: 0 <= k < |r.error| ==> r.error[k].field == ApplicationIdField
  {
    var issues := LengthIssues(ApplicationIdField, applicationId, 1, 50);
    if issues == [] then Success(applicationId.value) else Failure(issues)
  }

  datatype AdminUpdatePayload = AdminUpdatePayload(status: Option<string>, priority: Option<string>, adminNotes: Option<string>)

  datatype AdminUpdate = AdminUpdate(status: Option<Status>, priority: Option<Priority>, adminNotes: Option<string>)

  /** `AdminApplicationUpdateSchema.safeParse(body)`: every field optional, a present one
      must be a listed status, a listed priority, or notes of at most 5000 characters. */
  function ParseAdminUpdate(u: AdminUpdatePayload): (r: Result<AdminUpdate, seq<Issue>>)
    ensures r.Success? <==>
      && (u.status.Some? ==> StatusOf(u.status.value).Some?)
      && (u.priority.Some? ==> PriorityOf(u.priority.value).Some?)
      && (u.adminNotes.Some? ==> JsLength(u.adminNotes.value) <= 5000)
    ensures r.Success? ==>
      && (r.value.status.Some? <==> u.status.Some?)
      && (r.value.status.Some? ==> StatusKey(r.value.status.value) == u.status.value)
      && (r.value.priority.Some? <==> u.priority.Some?)
      && (r.value.priority.Some? ==> PriorityKey(r.value.priority.value) == u.priority.value)
      && r.value.adminNotes == u.adminNotes
    ensures r.Failure? ==> r.error != []
  {
    SchemaEnumsMatchTables(u.status.GetOr(""));
    SchemaEnumsMatchTables(u.priority.GetOr(""));
    var issues :=
      (if u.status.Some? && u.status.value !in SchemaStatuses then [Issue(StatusField, InvalidEnum)] else [])
      + (if u.priority.Some? && u.priority.value !in SchemaPriorities then [Issue(PriorityField, InvalidEnum)] else [])
      + (if u.adminNotes.Some? && JsLength(u.adminNotes.value) > 5000 then [Issue(AdminNotes, TooBig(5000))] else []);
    if issues == [] then
      Success(AdminUpdate(
        if u.status.Some? then StatusOf(u.status.value) else None,
        if u.priority.Some? then PriorityOf(u.priority.value) else None,
        u.adminNotes))
    else
      Failure(issues)
  }
}
