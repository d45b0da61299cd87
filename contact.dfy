/**
 * The contact endpoint: the presence check, the home-made e-mail pattern, the stored
 * record's normalisation, the error mapping, and the list's pagination.  The insert
 * itself is external: its new id and any error it raises are inputs.
 */
module ContactRoute {
  import opened Wrappers
  import opened Text
  import Paging
  import Seqs
  import Utils

  /** The request body; `None` is a missing key.  Values that are not strings are not
      modelled. */
  datatype ContactForm = ContactForm(
    name: Option<string>,
    email: Option<string>,
    company: Option<string>,
    subject: Option<string>,
    message: Option<string>)

  /** The stored inquiry. */
  datatype Inquiry = Inquiry(
    id: nat,
    name: string,
    email: string,
    company: Option<string>,
    subject: string,
    message: string,
    status: string,
    createdAt: int)

  // ---------------------------------------------------------------------------
  // /^[^\s@]+@[^\s@]+\.[^\s@]+$/
  // ---------------------------------------------------------------------------

  /** A run `[^\s@]+`: non-empty, with no white space and no '@'. */
  predicate Run(s: string) {
    s != [] && forall k :: 0 <= k < |s| ==> !IsSpace(s[k]) && s[k] != '@'
  }

  /** The pattern read as written: some '@' at `i` and some later '.' at `j` split the
      address into three runs. */
  ghost predicate EmailShape(s: string) {
    exists i, j :: 0 < i < j < |s| - 1 && s[i] == '@' && s[j] == '.'
      && Run(s[..i]) && Run(s[i + 1..j]) && Run(s[j + 1..])
  }

  /** Some '.' sits strictly inside `s` (neither first nor last). */
  predicate HasInnerDot(s: string) {
    exists m :: 1 <= m < |s| - 1 && s[m] == '.'
  }

  /** `emailRegex.test(email)`, by one pass: the text before the first '@' is a run, and
      the text after it is a run with a '.' strictly inside. */
  function EmailMatches(s: string): bool {
    var local := FirstSegment(s, '@');
    |local| < |s| && Run(local) && Run(s[|local| + 1..]) && HasInnerDot(s[|local| + 1..])
  }

  lemma RunSlice(x: string, a: int, b: int)
    requires Run(x) && 0 <= a < b <= |x|
    ensures Run(x[a..b])
  {
    assert forall k :: 0 <= k < b - a ==> x[a..b][k] == x[a + k];
  }

  lemma MatchesToShape(s: string)
    requires EmailMatches(s)
    ensures EmailShape(s)
  {
    var local := FirstSegment(s, '@');
    var i := |local|;
    var domain := s[i + 1..];
    var m :| 1 <= m < |domain| - 1 && domain[m] == '.';
    var j := i + 1 + m;
    assert s[..i] == local;
    assert s[i + 1..j] == domain[0..m];
    assert s[j + 1..] == domain[m + 1..|domain|];
    RunSlice(domain, 0, m);
    RunSlice(domain, m + 1, |domain|);
    assert s[i] == '@' && s[j] == '.';
  }

  /** The pattern's three runs, read back as the one-pass test reads them: no '@' before
      the '@' at `i`, and a domain that is one run with a '.' strictly inside. */
  lemma DomainOfShape(s: string, i: int, j: int)
    requires 0 < i < j < |s| - 1 && s[i] == '@' && s[j] == '.'
    requires Run(s[..i]) && Run(s[i + 1..j]) && Run(s[j + 1..])
    ensures '@' !in s[..i]
    ensures Run(s[i + 1..]) && HasInnerDot(s[i + 1..])
  {
    var domain := s[i + 1..];
    var m := j - i - 1;
    forall k | 0 <= k < |domain| ensures !IsSpace(domain[k]) && domain[k] != '@' {
      if k < m {
        assert domain[k] == s[i + 1..j][k];
      } else if k > m {
        assert domain[k] == s[j + 1..][k - m - 1];
      }
    }
    assert domain[m] == '.';
  }

  lemma ShapeToMatches(s: string)
    requires EmailShape(s)
    ensures EmailMatches(s)
  {
    var i, j :| 0 < i < j < |s| - 1 && s[i] == '@' && s[j] == '.'
      && Run(s[..i]) && Run(s[i + 1..j]) && Run(s[j + 1..]);
    DomainOfShape(s, i, j);
    MatchesAtFirstAt(s, i);
  }

  /** An '@' with a run before it and a dotted run after it is the one the test splits at. */
  lemma MatchesAtFirstAt(s: string, i: int)
    requires 0 < i < |s| && s[i] == '@' && '@' !in s[..i]
    requires Run(s[..i]) && Run(s[i + 1..]) && HasInnerDot(s[i + 1..])
    ensures EmailMatches(s)
  {
    var local, domain := s[..i], s[i + 1..];
    assert s == local + ['@'] + domain;
    FirstSegmentUpTo(local, '@', domain);
  }

  /** The one-pass test accepts exactly the strings of the pattern. */
  lemma EmailMatchesIffShape(s: string)
    ensures EmailMatches(s) <==> EmailShape(s)
  {
    if EmailMatches(s) { MatchesToShape(s); }
    if EmailShape(s) { ShapeToMatches(s); }
  }

  /** An address the pattern accepts has no white space, so trimming leaves it alone. */
  lemma MatchedEmailIsTrimmed(s: string)
    requires EmailMatches(s)
    ensures Trim(s) == s
  {
    var local := FirstSegment(s, '@');
    var domain := s[|local| + 1..];
    assert s[0] == local[0];
    assert s[|s| - 1] == domain[|domain| - 1];
    TrimKeepsUnspacedEnds(s);
  }

  lemma TrimKeepsUnspacedEnds(s: string)
    requires s != [] && !IsSpace(s[0]) && !IsSpace(s[|s| - 1])
    ensures Trim(s) == s
  {
  }

  // ---------------------------------------------------------------------------
  // POST
  // ---------------------------------------------------------------------------

  datatype ContactResponse =
    | Created(inquiryId: nat)
    | MissingFields
    | InvalidEmail
    | ServerError(status: nat)

  function StatusOf(r: ContactResponse): nat {
    match r
    case Created(_) => 201
    case MissingFields => 400
    case InvalidEmail => 400
    case ServerError(status) => status
  }

  /** The catch block: a connection failure first, then a unique-constraint error. */
  function ErrorStatus(message: string): (status: nat)
    ensures status == 503 <==> Includes(message, "connect")
    ensures status == 429 <==> !Includes(message, "connect") && Includes(message, "Unique constraint")
    ensures status == 500 <==> !Includes(message, "connect") && !Includes(message, "Unique constraint")
  {
    if Includes(message, "connect") then 503
    else if Includes(message, "Unique constraint") then 429
    else 500
  }

  /** `body.company?.trim() || null`. */
  function NormaliseCompany(company: Option<string>): (r: Option<string>)
    ensures r.Some? ==> company.Some? && r.value == Trim(company.value) && r.value != ""
    ensures r.None? <==> company.None? || Blank(company.value)
  {
    match company
    case None => None
    case Some(c) =>
      TrimEmptyIffBlank(c);
      if Trim(c) == "" then None else Some(Trim(c))
  }

  /** `body.name && body.email && body.subject && body.message`. */
  predicate Present(form: ContactForm) {
    Utils.Truthy(form.name) && Utils.Truthy(form.email) && Utils.Truthy(form.subject) && Utils.Truthy(form.message)
  }

  /** The record `contactInquiry.create` receives. */
  function Normalise(form: ContactForm, id: nat, now: int): Inquiry
    requires Present(form)
  {
    Inquiry(id, Trim(form.name.value), Lower(Trim(form.email.value)), NormaliseCompany(form.company),
      Trim(form.subject.value), Trim(form.message.value), "PENDING", now)
  }

  datatype ContactOutcome = ContactOutcome(response: ContactResponse, stored: Option<Inquiry>)

  /** POST /api/contact.  `newId`, `now` and `fault` stand for the insert's id, the clock
      and an error the insert raises. */
  function Post(form: ContactForm, newId: nat, now: int, fault: Option<string>): (out: ContactOutcome)
    ensures out.stored.Some? <==> out.response.Created?
    ensures out.response == MissingFields <==> !Present(form)
    ensures out.response == InvalidEmail <==> Present(form) && !EmailShape(form.email.value)
    ensures out.response.ServerError? <==> Present(form) && EmailShape(form.email.value) && fault.Some?
    ensures out.response.ServerError? ==> out.response.status == ErrorStatus(fault.value)
    ensures out.response.Created? ==>
      && out.response.inquiryId == newId
      && out.stored.value == Normalise(form, newId, now)
  {
    if !Present(form) then ContactOutcome(MissingFields, None)
    else
      EmailMatchesIffShape(form.email.value);
      if !EmailMatches(form.email.value) then ContactOutcome(InvalidEmail, None)
      else if fault.Some? then ContactOutcome(ServerError(ErrorStatus(fault.value)), None)
      else ContactOutcome(Created(newId), Some(Normalise(form, newId, now)))
  }

  /** A stored address is the submitted one lower-cased: the pattern leaves nothing to trim. */
  lemma StoredEmailIsLowered(form: ContactForm, newId: nat, now: int, fault: Option<string>)
    requires Post(form, newId, now, fault).response.Created?
    ensures Post(form, newId, now, fault).stored.value.email == Lower(form.email.value)
  {
    EmailMatchesIffShape(form.email.value);
    MatchedEmailIsTrimmed(form.email.value);
  }

  lemma SampleEmailMatches()
    ensures EmailMatches("a@b.co")
  {
    var email := "a@b.co";
    assert email[..1] == "a" && email[2..] == "b.co";
    assert "b.co"[1] == '.';
    MatchesAtFirstAt(email, 1);
  }

  /** The presence check reads the untrimmed values: a name of one space is accepted and
      stored as the empty string. */
  lemma BlankNameAccepted(newId: nat, now: int)
    ensures var out := Post(ContactForm(Some(" "), Some("a@b.co"), None, Some("s"), Some("m")), newId, now, None);
      out.response.Created? && out.stored.value.name == ""
  {
    var form := ContactForm(Some(" "), Some("a@b.co"), None, Some("s"), Some("m"));
    assert Present(form);
    SampleEmailMatches();
    EmailMatchesIffShape("a@b.co");
    TrimEmptyIffBlank(" ");
    var out := Post(form, newId, now, None);
    assert out.response.Created?;
  }

  // ---------------------------------------------------------------------------
  // GET (list)
  // ---------------------------------------------------------------------------

  const DefaultPage: int := 1
  const DefaultLimit: int := 20

  /** The seven columns the list selects (everything but the message). */
  datatype InquirySummary = InquirySummary(
    id: nat,
    name: string,
    email: string,
    company: Option<string>,
    subject: string,
    status: string,
    createdAt: int)

  function Summary(q: Inquiry): InquirySummary {
    InquirySummary(q.id, q.name, q.email, q.company, q.subject, q.status, q.createdAt)
  }

  /** The `select` applied to every row of a result list. */
  function Summaries(qs: seq<Inquiry>): (r: seq<InquirySummary>)
    ensures |r| == |qs|
    ensures forall k :: 0 <= k < |qs| ==> r[k] == Summary(qs[k])
  {
    if qs == [] then [] else [Summary(qs[0])] + Summaries(qs[1..])
  }

  /** `orderBy: { createdAt: 'desc' }` as a comparator. */
  predicate NewerFirst(a: Inquiry, b: Inquiry) {
    a.createdAt >= b.createdAt
  }

  /** The table ordered newest first: the same inquiries, by descending creation time. */
  function Newest(table: seq<Inquiry>): (r: seq<Inquiry>)
    ensures multiset(r) == multiset(table)
    ensures forall i, j :: 0 <= i < j < |r| ==> r[i].createdAt >= r[j].createdAt
  {
    assert Seqs.TotalPreorder(NewerFirst);
    Seqs.SortBySorted(table, NewerFirst);
    var r := Seqs.SortBy(table, NewerFirst);
    assert forall i, j :: 0 <= i < j < |r| ==> NewerFirst(r[i], r[j]);
    r
  }

  datatype ListReply = ListReply(inquiries: seq<InquirySummary>, pagination: Paging.Pagination)

  /** The list reply over the whole inquiry table: the page's window of the table ordered
      newest first, each row without its message, and the pagination block over the
      table's count.  `None` is a failed query (a negative skip). */
  function ListPage(table: seq<Inquiry>, pageParam: Option<int>, limitParam: Option<int>): (r: Option<ListReply>)
    ensures var page := Paging.PageParam(pageParam, DefaultPage);
      var limit := Paging.PageParam(limitParam, DefaultLimit);
      var window := Paging.Window(Newest(table), Paging.Offset(page, limit), limit);
      && (r.Some? <==> Paging.Offset(page, limit) >= 0)
      && (r.Some? ==>
            && r.value.pagination == Paging.Pagination(page, limit, |table|, Paging.CeilPages(|table|, limit))
            && |r.value.inquiries| == |window.value|
            && forall k :: 0 <= k < |r.value.inquiries| ==> r.value.inquiries[k] == Summary(window.value[k]))
  {
    var page := Paging.PageParam(pageParam, DefaultPage);
    var limit := Paging.PageParam(limitParam, DefaultLimit);
    var window := Paging.Window(Newest(table), Paging.Offset(page, limit), limit);
    if window.None? then None
    else Some(ListReply(Summaries(window.value), Paging.Pagination(page, limit, |table|, Paging.CeilPages(|table|, limit))))
  }

  /** Without parameters the list shows the twenty newest inquiries. */
  lemma DefaultListIsFirstTwenty(table: seq<Inquiry>)
    ensures ListPage(table, None, None).Some?
    ensures var newest := Newest(table);
      ListPage(table, None, None).value.inquiries == Summaries(newest[..if |newest| < 20 then |newest| else 20])
  {
  }
}
