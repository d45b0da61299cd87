/**
 * The public application endpoint: POST validates a submission, checks that every
 * referenced attachment exists and is unclaimed, then stores a PENDING application and
 * hands the attachments to it; GET looks an application up by its tracking id and
 * returns a projection without contact details or free text.
 */
module ApplicationsRoute {
  import opened Wrappers
  import opened Text
  import opened Constants
  import opened Tables
  import opened ApplicationValidation
  import Utils

  // ---------------------------------------------------------------------------
  // The attachment check
  // ---------------------------------------------------------------------------

  predicate NoDuplicates(ids: seq<string>) {
    forall i, j :: 0 <= i < j < |ids| ==> ids[i] != ids[j]
  }

  predicate Claimable(atts: map<string, Attachment>, id: string) {
    id in atts && atts[id].owner.None?
  }

  /** How many rows `findMany({ where: { id: { in: ids }, applicationId: null } })` returns:
      the distinct listed ids that name an unclaimed attachment. */
  function ClaimableCount(atts: map<string, Attachment>, ids: seq<string>): nat {
    |set id | id in ids && Claimable(atts, id)|
  }

  /** A sequence has at most as many distinct elements as entries, and exactly as many
      when no entry repeats. */
  lemma {:induction false} DistinctCount(ids: seq<string>)
    ensures |set id | id in ids| <= |ids|
    ensures |set id | id in ids| == |ids| <==> NoDuplicates(ids)
  {
    if ids != [] {
      var rest := ids[1..];
      DistinctCount(rest);
      SetOfCons(ids);
      NoDuplicatesCons(ids);
      if ids[0] !in rest {
        assert |set id | id in ids| == |set id | id in rest| + 1;
      }
    }
  }

  lemma SetOfCons(ids: seq<string>)
    requires ids != []
    ensures (set id | id in ids) == {ids[0]} + (set id | id in ids[1..])
  {
    assert ids == [ids[0]] + ids[1..];
  }

  /** A list has no repeats exactly when its head does not recur and its tail has none. */
  lemma NoDuplicatesCons(ids: seq<string>)
    requires ids != []
    ensures NoDuplicates(ids) <==> ids[0] !in ids[1..] && NoDuplicates(ids[1..])
  {
    var rest := ids[1..];
    if ids[0] in rest {
      var k :| 0 <= k < |rest| && rest[k] == ids[0];
      assert ids[k + 1] == ids[0];
    }
    if NoDuplicates(ids) {
      forall i, j | 0 <= i < j < |rest| ensures rest[i] != rest[j] {
        assert rest[i] == ids[i + 1] && rest[j] == ids[j + 1];
      }
    }
    if ids[0] !in rest && NoDuplicates(rest) {
      forall i, j | 0 <= i < j < |ids| ensures ids[i] != ids[j] {
        if i == 0 { assert ids[j] == rest[j - 1]; }
        else { assert ids[i] == rest[i - 1] && ids[j] == rest[j - 1]; }
      }
    }
  }

  /** The handler's count test passes exactly when no id repeats and every id names an
      existing, unclaimed attachment: unknown, claimed and repeated ids are all refused. */
  lemma ClaimCheckSpec(atts: map<string, Attachment>, ids: seq<string>)
    ensures ClaimableCount(atts, ids) == |ids| <==>
      NoDuplicates(ids) && forall k :: 0 <= k < |ids| ==> Claimable(atts, ids[k])
  {
    var claimable := set id | id in ids && Claimable(atts, id);
    var listed := set id | id in ids;
    DistinctCount(ids);
    assert claimable <= listed;
    assert |listed| == |claimable| + |listed - claimable| by {
      assert listed == claimable + (listed - claimable);
      assert claimable * (listed - claimable) == {};
    }
    if forall k :: 0 <= k < |ids| ==> Claimable(atts, ids[k]) {
      assert claimable == listed;
    }
    if ClaimableCount(atts, ids) == |ids| {
      assert listed - claimable == {};
      forall k | 0 <= k < |ids| ensures Claimable(atts, ids[k]) {
        assert ids[k] in listed;
      }
    }
  }

  /** `updateMany({ where: { id: { in: ids } }, data: { applicationId: owner } })`. */
  function Claim(atts: map<string, Attachment>, ids: seq<string>, owner: string): (r: map<string, Attachment>)
    ensures r.Keys == atts.Keys
  {
    map id | id in atts :: if id in ids then atts[id].(owner := Some(owner)) else atts[id]
  }

  lemma ClaimNothing(atts: map<string, Attachment>, ids: seq<string>, owner: string)
    requires ids == []
    ensures Claim(atts, ids, owner) == atts
  {
  }

  // ---------------------------------------------------------------------------
  // POST
  // ---------------------------------------------------------------------------

  /** The message of the error the table raises when a tracking id is already taken. */
  const UniqueViolation: string := "Unique constraint" + " failed on the fields: (`applicationId`)"

  /** The catch block: a unique-constraint message is a conflict, anything else a failure. */
  function ErrorStatus(message: string): (status: nat)
    ensures status == 409 || status == 500
    ensures status == 409 <==> exists i :: OccursAt(message, "Unique constraint", i)
  {
    if Includes(message, "Unique constraint") then 409 else 500
  }

  /** Every message that mentions the unique constraint, the store's own among them, is
      answered with 409. */
  lemma TrackingIdCollisionIsConflict(before: string, after: string)
    ensures ErrorStatus(before + "Unique constraint" + after) == 409
    ensures ErrorStatus(UniqueViolation) == 409
  {
    var m := before + "Unique constraint" + after;
    assert m[|before|..|before| + |"Unique constraint"|] == "Unique constraint";
    assert OccursAt(m, "Unique constraint", |before|);
    assert UniqueViolation[0..|"Unique constraint"|] == "Unique constraint";
    assert OccursAt(UniqueViolation, "Unique constraint", 0);
  }

  datatype SubmitResponse =
    | Submitted(applicationId: string)
    | InvalidInput(details: seq<Issue>)
    | AttachmentsUnavailable
    | ServerError(status: nat)

  /** The HTTP status of each response (a plain JSON reply defaults to 200). */
  function StatusOf(r: SubmitResponse): nat {
    match r
    case Submitted(_) => 200
    case InvalidInput(_) => 400
    case AttachmentsUnavailable => 400
    case ServerError(status) => status
  }

  predicate TrackingIdTaken(apps: seq<ApplicationRecord>, trackingId: string) {
    exists i :: 0 <= i < |apps| && apps[i].applicationId == trackingId
  }

  /** The row `application.create` inserts for a validated submission. */
  function NewRecord(rowId: string, trackingId: string, data: Submission, createdAt: int): ApplicationRecord {
    ApplicationRecord(
      rowId, trackingId, data.companyName, data.contactName, data.contactEmail, data.contactPhone,
      data.projectTitle, ProjectTypeKey(data.projectType), BudgetRangeKey(data.budgetRange),
      data.timeline, data.description, data.aiRequirements, data.blockchainNeeds,
      StatusKey(Pending), createdAt)
  }

  /** Appending a row with fresh keys and handing attachments to it keeps the keys unique
      and every owner reference pointing at a row. */
  lemma InsertKeepsKeys(apps: seq<ApplicationRecord>, atts: map<string, Attachment>, row: ApplicationRecord, ids: seq<string>)
    requires UniqueKeys(apps) && OwnersExist(atts, apps)
    requires !HasRow(apps, row.rowId) && !TrackingIdTaken(apps, row.applicationId)
    ensures UniqueKeys(apps + [row])
    ensures OwnersExist(Claim(atts, ids, row.rowId), apps + [row])
  {
    var newApps := apps + [row];
    var newAtts := Claim(atts, ids, row.rowId);
    assert newApps[|apps|] == row;
    forall id | id in newAtts && newAtts[id].owner.Some?
      ensures HasRow(newApps, newAtts[id].owner.value)
    {
      if newAtts[id].owner.value != row.rowId {
        var i :| 0 <= i < |apps| && apps[i].rowId == newAtts[id].owner.value;
        assert newApps[i] == apps[i];
      }
    }
  }

  /** The transaction: `application.create`, then `attachment.updateMany` when ids are listed. */
  method Insert(db: Database, row: ApplicationRecord, ids: seq<string>)
    requires db.Valid()
    requires !HasRow(db.applications, row.rowId) && !TrackingIdTaken(db.applications, row.applicationId)
    modifies db
    ensures db.Valid()
    ensures db.applications == old(db.applications) + [row]
    ensures db.attachments == Claim(old(db.attachments), ids, row.rowId)
    ensures db.files == old(db.files)
  {
    InsertKeepsKeys(db.applications, db.attachments, row, ids);
    db.applications := db.applications + [row];
    if |ids| > 0 {
      db.attachments := Claim(db.attachments, ids, row.rowId);
    } else {
      ClaimNothing(db.attachments, ids, row.rowId);
    }
  }

  /** POST /api/applications.  The clock, the random text, the new row's id and its
      creation time are inputs; `fault` is an error the store raises while inserting. */
  method Submit(
    db: Database, body: SubmitPayload, checks: FormatChecks,
    now: nat, randomText: string, newRowId: string, createdAt: int, fault: Option<string>)
    returns (r: SubmitResponse)
    requires db.Valid()
    requires !HasRow(db.applications, newRowId)
    modifies db
    ensures db.Valid()
    ensures ParseSubmit(body, checks).Failure? ==>
      r == InvalidInput(ParseSubmit(body, checks).error) && StatusOf(r) == 400
    ensures !r.Submitted? ==>
      db.applications == old(db.applications) && db.attachments == old(db.attachments)
    ensures r.Submitted? ==>
      && ParseSubmit(body, checks).Success?
      && var data := ParseSubmit(body, checks).value;
      && var trackingId := Utils.GenerateApplicationId(now, randomText);
      && r.applicationId == trackingId
      && StatusOf(r) == 200
      && db.applications == old(db.applications) + [NewRecord(newRowId, trackingId, data, createdAt)]
      && db.attachments == Claim(old(db.attachments), data.attachmentIds, newRowId)
      && (forall k :: 0 <= k < |data.attachmentIds| ==> Claimable(old(db.attachments), data.attachmentIds[k]))
    ensures ParseSubmit(body, checks).Success? ==>
      var ids := ParseSubmit(body, checks).value.attachmentIds;
      (r == AttachmentsUnavailable <==> |ids| > 0 && ClaimableCount(old(db.attachments), ids) != |ids|)
    ensures ParseSubmit(body, checks).Success? ==>
      var ids := ParseSubmit(body, checks).value.attachmentIds;
      var trackingId := Utils.GenerateApplicationId(now, randomText);
      var ok := !(|ids| > 0 && ClaimableCount(old(db.attachments), ids) != |ids|);
      && (ok && !TrackingIdTaken(old(db.applications), trackingId) && fault.None? ==> r.Submitted?)
      && (ok && TrackingIdTaken(old(db.applications), trackingId) ==> r == ServerError(409))
      && (ok && !TrackingIdTaken(old(db.applications), trackingId) && fault.Some? ==>
            r == ServerError(ErrorStatus(fault.value)))
    ensures db.files == old(db.files)
  {
    var parsed := ParseSubmit(body, checks);
    if parsed.Failure? {
      return InvalidInput(parsed.error);
    }
    var data := parsed.value;
    var trackingId := Utils.GenerateApplicationId(now, randomText);
    var ids := data.attachmentIds;
    if |ids| > 0 && ClaimableCount(db.attachments, ids) != |ids| {
      return AttachmentsUnavailable;
    }
    ClaimCheckSpec(db.attachments, ids);
    if TrackingIdTaken(db.applications, trackingId) {
      TrackingIdCollisionIsConflict([], []);
      return ServerError(ErrorStatus(UniqueViolation));
    }
    if fault.Some? {
      return ServerError(ErrorStatus(fault.value));
    }
    Insert(db, NewRecord(newRowId, trackingId, data, createdAt), ids);
    r := Submitted(trackingId);
  }

  // ---------------------------------------------------------------------------
  // GET
  // ---------------------------------------------------------------------------

  datatype AttachmentInfo = AttachmentInfo(
    id: string, filename: string, originalName: string, size: nat, mimeType: string, url: string)

  /** What the lookup reveals: no e-mail, phone or free-text fields. */
  datatype Projection = Projection(
    applicationId: string,
    companyName: string,
    contactName: string,
    projectTitle: string,
    status: string,
    createdAt: int,
    attachments: map<string, AttachmentInfo>)

  datatype LookupResponse = MissingId | UnknownId | Found(projection: Projection)

  function LookupStatus(r: LookupResponse): nat {
    match r
    case MissingId => 400
    case UnknownId => 404
    case Found(_) => 200
  }

  /** The position of the row with this tracking id. */
  function FindByTrackingId(apps: seq<ApplicationRecord>, trackingId: string): (r: Option<nat>)
    ensures r.Some? ==> r.value < |apps| && apps[r.value].applicationId == trackingId
    ensures r.None? <==> !TrackingIdTaken(apps, trackingId)
  {
    if apps == [] then None
    else if apps[|apps| - 1].applicationId == trackingId then Some(|apps| - 1)
    else
      var r := FindByTrackingId(apps[..|apps| - 1], trackingId);
      assert TrackingIdTaken(apps, trackingId) ==> TrackingIdTaken(apps[..|apps| - 1], trackingId) by {
        if TrackingIdTaken(apps, trackingId) {
          var i :| 0 <= i < |apps| && apps[i].applicationId == trackingId;
          assert apps[..|apps| - 1][i] == apps[i];
        }
      }
      r
  }

  /** The attachments the lookup includes: those owned by the row. */
  function AttachmentsOf(atts: map<string, Attachment>, rowId: string): (r: map<string, AttachmentInfo>)
    ensures forall id :: id in r <==> id in atts && atts[id].owner == Some(rowId)
  {
    map id | id in atts && atts[id].owner == Some(rowId) ::
      AttachmentInfo(id, atts[id].filename, atts[id].originalName, atts[id].size, atts[id].mimeType, atts[id].url)
  }

  function Project(row: ApplicationRecord, atts: map<string, Attachment>): Projection {
    Projection(row.applicationId, row.companyName, row.contactName, row.projectTitle, row.status,
      row.createdAt, AttachmentsOf(atts, row.rowId))
  }

  /** GET /api/applications?id=...: 400 without an id, 404 for an unknown id, otherwise the
      projection of the row with that tracking id. */
  function Lookup(apps: seq<ApplicationRecord>, atts: map<string, Attachment>, id: Option<string>): (r: LookupResponse)
    ensures r == MissingId <==> !Utils.Truthy(id)
    ensures r == UnknownId <==> Utils.Truthy(id) && !TrackingIdTaken(apps, id.value)
    ensures r.Found? ==>
      exists i :: 0 <= i < |apps| && apps[i].applicationId == id.value && r.projection == Project(apps[i], atts)
  {
    if !Utils.Truthy(id) then MissingId
    else match FindByTrackingId(apps, id.value)
      case None => UnknownId
      case Some(i) => Found(Project(apps[i], atts))
  }

  /** With unique tracking ids the lookup returns the projection of the one matching row. */
  lemma LookupFindsRow(apps: seq<ApplicationRecord>, atts: map<string, Attachment>, i: nat)
    requires UniqueKeys(apps) && i < |apps| && apps[i].applicationId != ""
    ensures Lookup(apps, atts, Some(apps[i].applicationId)) == Found(Project(apps[i], atts))
  {
    var r := Lookup(apps, atts, Some(apps[i].applicationId));
    assert TrackingIdTaken(apps, apps[i].applicationId);
    var j :| 0 <= j < |apps| && apps[j].applicationId == apps[i].applicationId && r.projection == Project(apps[j], atts);
    assert i == j;
  }

  /** After a successful submission, looking up its tracking id shows the submitted fields
      and exactly the attachments it listed. */
  lemma SubmitThenLookup(
    oldApps: seq<ApplicationRecord>, oldAtts: map<string, Attachment>,
    newRowId: string, trackingId: string, data: Submission, createdAt: int)
    requires UniqueKeys(oldApps) && OwnersExist(oldAtts, oldApps)
    requires !HasRow(oldApps, newRowId) && !TrackingIdTaken(oldApps, trackingId) && trackingId != ""
    requires forall k :: 0 <= k < |data.attachmentIds| ==> data.attachmentIds[k] in oldAtts
    ensures var apps := oldApps + [NewRecord(newRowId, trackingId, data, createdAt)];
      var atts := Claim(oldAtts, data.attachmentIds, newRowId);
      var r := Lookup(apps, atts, Some(trackingId));
      && r.Found?
      && r.projection.status == "PENDING"
      && r.projection.companyName == data.companyName
      && r.projection.projectTitle == data.projectTitle
      && r.projection.attachments.Keys == set id | id in data.attachmentIds
  {
    var row := NewRecord(newRowId, trackingId, data, createdAt);
    var apps := oldApps + [row];
    var atts := Claim(oldAtts, data.attachmentIds, newRowId);
    assert UniqueKeys(apps) by {
      forall i | 0 <= i < |oldApps| ensures oldApps[i].rowId != newRowId && oldApps[i].applicationId != trackingId {
      }
    }
    assert apps[|oldApps|] == row;
    LookupFindsRow(apps, atts, |oldApps|);
    forall id ensures id in AttachmentsOf(atts, newRowId) <==> id in data.attachmentIds {
      if id in data.attachmentIds {
        var k :| 0 <= k < |data.attachmentIds| && data.attachmentIds[k] == id;
      }
    }
  }
}
