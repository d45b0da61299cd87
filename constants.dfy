/**
 * The constant tables of the site: service (project) types, budget brackets, application
 * statuses, priorities, and the upload configuration.
 */
module Constants {
  import opened Wrappers

  /** The keys of PROJECT_TYPES. */
  datatype ProjectType = Youtube | Seo | Sns | Local | Payment | Consulting

  /** The keys of BUDGET_RANGES. */
  datatype BudgetRange = Under10m | Range10m50m | Range50m100m | Range100m500m | Over500m

  /** The keys of APPLICATION_STATUS. */
  datatype Status = Pending | Reviewing | Approved | Rejected | OnHold

  /** The keys of PRIORITY_LEVELS. */
  datatype Priority = Low | Medium | High | Urgent

  function ProjectTypeKey(t: ProjectType): string {
    match t
    case Youtube => "youtube"
    case Seo => "seo"
    case Sns => "sns"
    case Local => "local"
    case Payment => "payment"
    case Consulting => "consulting"
  }

  function ProjectTypeLabel(t: ProjectType): string {
    match t
    case Youtube => "YouTube 영상 마케팅 자동화"
    case Seo => "SEO/AEO 최적화"
    case Sns => "SNS 마케팅 관리"
    case Local => "로컬 비즈니스 마케팅"
    case Payment => "스테이블코인 결제 시스템"
    case Consulting => "AI 마케팅 컨설팅"
  }

  /** `PROJECT_TYPES[key]` restricted to the table's own keys. */
  function ProjectTypeOf(key: string): (r: Option<ProjectType>)
    ensures r.Some? ==> ProjectTypeKey(r.value) == key
    ensures forall t :: ProjectTypeKey(t) == key ==> r == Some(t)
  {
    match key
    case "youtube" => Some(Youtube)
    case "seo" => Some(Seo)
    case "sns" => Some(Sns)
    case "local" => Some(Local)
    case "payment" => Some(Payment)
    case "consulting" => Some(Consulting)
    case _ => None
  }

  /** `Object.keys(PROJECT_TYPES)`. */
  const ProjectTypeKeys: seq<string> := ["youtube", "seo", "sns", "local", "payment", "consulting"]

  function BudgetRangeKey(b: BudgetRange): string {
    match b
    case Under10m => "under_10m"
    case Range10m50m => "range_10m_50m"
    case Range50m100m => "range_50m_100m"
    case Range100m500m => "range_100m_500m"
    case Over500m => "over_500m"
  }

  function BudgetRangeLabel(b: BudgetRange): string {
    match b
    case Under10m => "월 50만원 미만"
    case Range10m50m => "월 50만원 ~ 100만원"
    case Range50m100m => "월 100만원 ~ 200만원"
    case Range100m500m => "월 200만원 ~ 500만원"
    case Over500m => "월 500만원 이상"
  }

  function BudgetRangeOf(key: string): (r: Option<BudgetRange>)
    ensures r.Some? ==> BudgetRangeKey(r.value) == key
    ensures forall b :: BudgetRangeKey(b) == key ==> r == Some(b)
  {
    match key
    case "under_10m" => Some(Under10m)
    case "range_10m_50m" => Some(Range10m50m)
    case "range_50m_100m" => Some(Range50m100m)
    case "range_100m_500m" => Some(Range100m500m)
    case "over_500m" => Some(Over500m)
    case _ => None
  }

  /** `Object.keys(BUDGET_RANGES)`. */
  const BudgetRangeKeys: seq<string> := ["under_10m", "range_10m_50m", "range_50m_100m", "range_100m_500m", "over_500m"]

  function StatusKey(s: Status): string {
    match s
    case Pending => "PENDING"
    case Reviewing => "REVIEWING"
    case Approved => "APPROVED"
    case Rejected => "REJECTED"
    case OnHold => "ON_HOLD"
  }

  function StatusOf(key: string): (r: Option<Status>)
    ensures r.Some? ==> StatusKey(r.value) == key
    ensures forall s :: StatusKey(s) == key ==> r == Some(s)
  {
    match key
    case "PENDING" => Some(Pending)
    case "REVIEWING" => Some(Reviewing)
    case "APPROVED" => Some(Approved)
    case "REJECTED" => Some(Rejected)
    case "ON_HOLD" => Some(OnHold)
    case _ => None
  }

  /** `Object.keys(APPLICATION_STATUS)`. */
  const StatusKeys: seq<string> := ["PENDING", "REVIEWING", "APPROVED", "REJECTED", "ON_HOLD"]

  function PriorityKey(p: Priority): string {
    match p
    case Low => "LOW"
    case Medium => "MEDIUM"
    case High => "HIGH"
    case Urgent => "URGENT"
  }

  function PriorityOf(key: string): (r: Option<Priority>)
    ensures r.Some? ==> PriorityKey(r.value) == key
    ensures forall p :: PriorityKey(p) == key ==> r == Some(p)
  {
    match key
    case "LOW" => Some(Low)
    case "MEDIUM" => Some(Medium)
    case "HIGH" => Some(High)
    case "URGENT" => Some(Urgent)
    case _ => None
  }

  /** FILE_UPLOAD_CONFIG without an environment override. */
  const MaxFileSize: nat := 5242880
  const MaxFiles: nat := 5
  const AllowedTypes: seq<string> := [
    "application/pdf",
    "application/msword",
    "application/vnd.openxmlformats-officedocument.wordprocessingml.document",
    "image/jpeg",
    "image/png",
    "image/webp"
  ]
  const UploadDir: string := "./uploads"

  /** The key lists are exactly the keys the lookups accept, with no repeats. */
  lemma KeyListsMatchTables(key: string)
    ensures key in ProjectTypeKeys <==> ProjectTypeOf(key).Some?
    ensures key in BudgetRangeKeys <==> BudgetRangeOf(key).Some?
    ensures key in StatusKeys <==> StatusOf(key).Some?
    ensures |ProjectTypeKeys| == 6 && |BudgetRangeKeys| == 5 && |StatusKeys| == 5
  {
  }

  lemma UploadLimits()
    ensures MaxFileSize == 5 * 1024 * 1024
    ensures |AllowedTypes| == 6
  {
  }
}
