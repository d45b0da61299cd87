/**
 * The persisted state the route handlers share: the attachment table, the application
 * table and the upload directory on disk.  The ORM's tables become a map keyed by the
 * attachment id and a sequence of application rows in insertion order; the directory
 * becomes a map from relative path to file contents.
 */
module Tables {
  import opened Wrappers

  type Byte = b: int | 0 <= b < 256

  /** An attachment row; `owner` is the row id of the application that claimed it. */
  datatype Attachment = Attachment(
    filename: string,
    originalName: string,
    mimeType: string,
    size: nat,
    url: string,
    owner: Option<string>)

  /** An application row.  Enumerations are kept as their stored text, since the
      administrative views read them back as strings and fall back to the raw text. */
  datatype ApplicationRecord = ApplicationRecord(
    rowId: string,
    applicationId: string,
    companyName: string,
    contactName: string,
    contactEmail: string,
    contactPhone: string,
    projectTitle: string,
    projectType: string,
    budgetRange: string,
    timeline: string,
    description: string,
    aiRequirements: string,
    blockchainNeeds: string,
    status: string,
    createdAt: int)

  /** Row ids and tracking ids are unique (the table's primary key and unique column). */
  predicate UniqueKeys(apps: seq<ApplicationRecord>) {
    forall i, j :: 0 <= i < j < |apps| ==>
      apps[i].rowId != apps[j].rowId && apps[i].applicationId != apps[j].applicationId
  }

  predicate HasRow(apps: seq<ApplicationRecord>, rowId: string) {
    exists i :: 0 <= i < |apps| && apps[i].rowId == rowId
  }

  /** Every owner reference names an existing application (the foreign key). */
  predicate OwnersExist(atts: map<string, Attachment>, apps: seq<ApplicationRecord>) {
    forall id :: id in atts && atts[id].owner.Some? ==> HasRow(apps, atts[id].owner.value)
  }

  class Database {
    var attachments: map<string, Attachment>
    var applications: seq<ApplicationRecord>
    var files: map<string, seq<Byte>>

    ghost predicate Valid()
      reads this
    {
      UniqueKeys(applications) && OwnersExist(attachments, applications)
    }

    constructor ()
      ensures Valid()
      ensures attachments == map[] && applications == [] && files == map[]
    {
      attachments := map[];
      applications := [];
      files := map[];
    }
  }
}
