/**
 * The file intake endpoint: the magic-byte table, the four checks a new upload passes
 * in order, the stored filename, and the deletion of an attachment.
 */
module UploadRoute {
  import opened Wrappers
  import opened Constants
  import opened Tables
  import Utils

  // ---------------------------------------------------------------------------
  // FILE_SIGNATURES and validateFileSignature
  // ---------------------------------------------------------------------------

  /** The accepted leading bytes of each allow-listed type. */
  const FileSignatures: map<string, seq<seq<Byte>>> := map[
    "image/jpeg" := [[0xFF, 0xD8, 0xFF]],
    "image/png" := [[0x89, 0x50, 0x4E, 0x47, 0x0D, 0x0A, 0x1A, 0x0A]],
    "image/webp" := [[0x52, 0x49, 0x46, 0x46]],
    "application/pdf" := [[0x25, 0x50, 0x44, 0x46]],
    "application/msword" := [[0xD0, 0xCF, 0x11, 0xE0, 0xA1, 0xB1, 0x1A, 0xE1]],
    "application/vnd.openxmlformats-officedocument.wordprocessingml.document" := [
      [0x50, 0x4B, 0x03, 0x04],
      [0x50, 0x4B, 0x05, 0x06],
      [0x50, 0x4B, 0x07, 0x08]]
  ]

  /** The file starts with `sig`. */
  predicate StartsWith(content: seq<Byte>, sig: seq<Byte>) {
    |sig| <= |content| && content[..|sig|] == sig
  }

  /** `signature.every((byte, index) => bytes[index] === byte)`: an index past the end of
      `bytes` reads `undefined`, which equals no byte. */
  predicate EveryByteMatches(bytes: seq<Byte>, sig: seq<Byte>) {
    |sig| <= |bytes| && forall i :: 0 <= i < |sig| ==> bytes[i] == sig[i]
  }

  /** `signatures.some(...)`. */
  function SomeSignatureMatches(bytes: seq<Byte>, sigs: seq<seq<Byte>>): (b: bool)
    ensures b <==> exists k :: 0 <= k < |sigs| && EveryByteMatches(bytes, sigs[k])
  {
    if sigs == [] then false
    else EveryByteMatches(bytes, sigs[0]) || SomeSignatureMatches(bytes, sigs[1..])
  }

  /** Every signature in the table is between three and eight bytes long. */
  lemma SignatureLengths(mimeType: string)
    requires mimeType in FileSignatures
    ensures |FileSignatures[mimeType]| >= 1
    ensures forall k :: 0 <= k < |FileSignatures[mimeType]| ==> 3 <= |FileSignatures[mimeType][k]| <= 8
  {
  }

  /** The table's types are exactly the allow-listed types. */
  lemma SignatureTableCoversAllowList()
    ensures forall t :: t in FileSignatures <==> t in AllowedTypes
  {
  }

  /** Comparing within the first eight bytes is comparing the file's prefix. */
  lemma FirstEightBytes(content: seq<Byte>, sig: seq<Byte>)
    requires |sig| <= 8
    ensures EveryByteMatches(content[..Utils.Min(8, |content|)], sig) <==> StartsWith(content, sig)
  {
    var bytes := content[..Utils.Min(8, |content|)];
    if StartsWith(content, sig) {
      assert forall i :: 0 <= i < |sig| ==> bytes[i] == content[..|sig|][i];
    }
    if EveryByteMatches(bytes, sig) {
      assert content[..|sig|] == bytes[..|sig|];
    }
  }

  /** `validateFileSignature(buffer, mimeType)`: true exactly when the type has a table
      entry and one of its signatures is a prefix of the file. */
  function ValidateFileSignature(content: seq<Byte>, mimeType: string): (ok: bool)
    ensures ok <==> (mimeType in FileSignatures
      && exists k :: 0 <= k < |FileSignatures[mimeType]| && StartsWith(content, FileSignatures[mimeType][k]))
  {
    if mimeType !in FileSignatures then false
    else
      var sigs := FileSignatures[mimeType];
      var bytes := content[..Utils.Min(8, |content|)];
      SignatureLengths(mimeType);
      forall k | 0 <= k < |sigs| ensures EveryByteMatches(bytes, sigs[k]) <==> StartsWith(content, sigs[k]) {
        FirstEightBytes(content, sigs[k]);
      }
      SomeSignatureMatches(bytes, sigs)
  }

  /** Bytes after the eighth never change the verdict. */
  lemma SignatureOnlyReadsEightBytes(content: seq<Byte>, rest: seq<Byte>, mimeType: string)
    requires |content| >= 8
    ensures ValidateFileSignature(content + rest, mimeType) == ValidateFileSignature(content, mimeType)
  {
    if mimeType in FileSignatures {
      SignatureLengths(mimeType);
      var sigs := FileSignatures[mimeType];
      forall k | 0 <= k < |sigs| ensures StartsWith(content + rest, sigs[k]) <==> StartsWith(content, sigs[k]) {
        assert (content + rest)[..|sigs[k]|] == content[..|sigs[k]|];
      }
    }
  }

  /** A file shorter than every signature is never accepted. */
  lemma ShortFileRejected(content: seq<Byte>, mimeType: string)
    requires |content| < 3
    ensures !ValidateFileSignature(content, mimeType)
  {
    if mimeType in FileSignatures {
      SignatureLengths(mimeType);
    }
  }

  // ---------------------------------------------------------------------------
  // Stored filename (path.extname / path.basename on a name without '/')
  // ---------------------------------------------------------------------------

  /** The index of the last `c` in `s`, or -1. */
  function LastIndexOf(s: string, c: char): (r: int)
    ensures -1 <= r < |s|
    ensures r >= 0 ==> s[r] == c && forall k :: r < k < |s| ==> s[k] != c
    ensures r == -1 ==> forall k :: 0 <= k < |s| ==> s[k] != c
  {
    if s == [] then -1
    else if s[|s| - 1] == c then |s| - 1
    else LastIndexOf(s[..|s| - 1], c)
  }

  /** `path.extname(name)`: from the last dot to the end, unless there is no dot, the dot
      is the first character, or the name is "..". */
  function ExtName(name: string): (ext: string)
    ensures |ext| < |name| || ext == []
    ensures ext == name[|name| - |ext|..]
    ensures ext != [] ==> ext[0] == '.' && forall k :: 1 <= k < |ext| ==> ext[k] != '.'
  {
    var d := LastIndexOf(name, '.');
    if d <= 0 || name == ".." then "" else name[d..]
  }

  /** `path.basename(name, ext)`: the name with the suffix `ext` removed, or "" when the
      name is the suffix itself. */
  function BaseName(name: string, ext: string): string {
    if ext != [] && |ext| <= |name| && name[|name| - |ext|..] == ext then
      (if ext == name then "" else name[..|name| - |ext|])
    else name
  }

  /** The base and the extension put back together give the name. */
  lemma BaseNamePlusExtName(name: string)
    ensures BaseName(name, ExtName(name)) + ExtName(name) == name
  {
    var ext := ExtName(name);
    if ext != [] {
      assert name == name[..|name| - |ext|] + name[|name| - |ext|..];
    }
  }

  /** `${nameWithoutExt}_${uniqueId}${ext}` for the sanitised upload name. */
  function StoredFilename(uploadName: string, uuid: string): string {
    var clean := Utils.SanitizeFilename(uploadName);
    var ext := ExtName(clean);
    BaseName(clean, ext) + "_" + uuid + ext
  }

  /** The stored name is the sanitised name with `_uuid` inserted before its extension,
      so (for a uuid without '/') it never leaves the upload directory. */
  lemma StoredFilenameShape(uploadName: string, uuid: string)
    ensures var clean := Utils.SanitizeFilename(uploadName);
      var name := StoredFilename(uploadName, uuid);
      exists i :: 0 <= i <= |clean| && name == clean[..i] + "_" + uuid + clean[i..]
    ensures '/' !in uuid ==> '/' !in StoredFilename(uploadName, uuid)
  {
    var clean := Utils.SanitizeFilename(uploadName);
    var ext := ExtName(clean);
    BaseNamePlusExtName(clean);
    var i := |clean| - |ext|;
    assert BaseName(clean, ext) == clean[..i];
    assert StoredFilename(uploadName, uuid) == clean[..i] + "_" + uuid + clean[i..];
    if '/' !in uuid {
      assert clean == clean[..i] + clean[i..];
      assert '/' !in clean[..i] && '/' !in clean[i..];
    }
  }

  /** `/uploads/${filename}`. */
  function UploadUrl(filename: string): string {
    "/uploads/" + filename
  }

  /** `path.join("./uploads", filename)` for a filename without '/'. */
  function DiskPath(filename: string): string {
    "uploads/" + filename
  }

  /** `url.replace('/', '')`: a string pattern replaces only the first occurrence. */
  function RemoveFirstSlash(url: string): (r: string)
    ensures '/' in url ==> |r| == |url| - 1
    ensures '/' !in url ==> r == url
  {
    if url == [] then []
    else if url[0] == '/' then url[1..]
    else [url[0]] + RemoveFirstSlash(url[1..])
  }

  /** Deleting unlinks the same file the upload wrote. */
  lemma UnlinkPathIsDiskPath(filename: string)
    ensures RemoveFirstSlash(UploadUrl(filename)) == DiskPath(filename)
  {
  }

  // ---------------------------------------------------------------------------
  // POST and DELETE
  // ---------------------------------------------------------------------------

  /** The `file` part of the form; its size is the length of its contents. */
  datatype UploadFile = UploadFile(name: string, mimeType: string, content: seq<Byte>)

  datatype UploadError = NoFile | TooLarge | UnsupportedType | Corrupted

  /** The first of the four checks the upload fails, in the handler's order. */
  function FirstFailedCheck(file: Option<UploadFile>): (e: Option<UploadError>)
    ensures e == Some(NoFile) <==> file.None?
    ensures e == Some(TooLarge) <==> file.Some? && |file.value.content| > MaxFileSize
    ensures e == Some(UnsupportedType) <==>
      file.Some? && |file.value.content| <= MaxFileSize && file.value.mimeType !in AllowedTypes
    ensures e == Some(Corrupted) <==>
      && file.Some? && |file.value.content| <= MaxFileSize && file.value.mimeType in AllowedTypes
      && !ValidateFileSignature(file.value.content, file.value.mimeType)
    ensures e.None? <==>
      && file.Some? && |file.value.content| <= MaxFileSize && file.value.mimeType in AllowedTypes
      && ValidateFileSignature(file.value.content, file.value.mimeType)
  {
    match file
    case None => Some(NoFile)
    case Some(f) =>
      if |f.content| > MaxFileSize then Some(TooLarge)
      else if f.mimeType !in AllowedTypes then Some(UnsupportedType)
      else if !ValidateFileSignature(f.content, f.mimeType) then Some(Corrupted)
      else None
  }

  /** A file the signature check accepts has a type on the allow-list. */
  lemma SignatureImpliesAllowed(content: seq<Byte>, mimeType: string)
    requires ValidateFileSignature(content, mimeType)
    ensures mimeType in AllowedTypes
  {
    SignatureTableCoversAllowList();
  }

  /** Where the storage steps fail, if they do: the write to disk, or the row insert. */
  datatype StorageFault = NoFault | WriteFails | InsertFails

  datatype UploadResponse =
    | Uploaded(id: string, filename: string, originalName: string, size: nat, mimeType: string, url: string)
    | Refused(status: nat, error: UploadError)
    | Failed(status: nat)

  /** POST /api/upload.  `newId` is the id the table assigns and `uuid` the random
      suffix; both are inputs. */
  method Post(db: Database, file: Option<UploadFile>, newId: string, uuid: string, fault: StorageFault)
    returns (r: UploadResponse)
    requires db.Valid()
    requires newId !in db.attachments
    modifies db
    ensures db.Valid()
    ensures db.applications == old(db.applications)
    ensures FirstFailedCheck(file).Some? ==>
      r == Refused(400, FirstFailedCheck(file).value)
      && db.attachments == old(db.attachments) && db.files == old(db.files)
    ensures FirstFailedCheck(file).None? && fault == WriteFails ==>
      r == Failed(500) && db.attachments == old(db.attachments) && db.files == old(db.files)
    ensures FirstFailedCheck(file).None? && fault == InsertFails ==>
      var name := StoredFilename(file.value.name, uuid);
      r == Failed(500) && db.attachments == old(db.attachments)
      && db.files == old(db.files)[DiskPath(name) := file.value.content]
    ensures FirstFailedCheck(file).None? && fault == NoFault ==>
      var f := file.value;
      var name := StoredFilename(f.name, uuid);
      && r == Uploaded(newId, name, f.name, |f.content|, f.mimeType, UploadUrl(name))
      && db.attachments == old(db.attachments)[newId := Attachment(name, f.name, f.mimeType, |f.content|, UploadUrl(name), None)]
      && db.files == old(db.files)[DiskPath(name) := f.content]
  {
    var failed := FirstFailedCheck(file);
    if failed.Some? {
      return Refused(400, failed.value);
    }
    var f := file.value;
    var filename := StoredFilename(f.name, uuid);
    if fault == WriteFails {
      return Failed(500);
    }
    db.files := db.files[DiskPath(filename) := f.content];
    if fault == InsertFails {
      return Failed(500);
    }
    var row := Attachment(filename, f.name, f.mimeType, |f.content|, UploadUrl(filename), None);
    db.attachments := db.attachments[newId := row];
    r := Uploaded(newId, row.filename, row.originalName, row.size, row.mimeType, row.url);
  }

  datatype DeleteResponse = Deleted | NotFound | DeleteFailed

  /** DELETE /api/upload/[id]: the row goes first, then the file is unlinked; a failed unlink
      is ignored.  `deleteFails` is a failure of the row deletion itself. */
  method Delete(db: Database, id: string, deleteFails: bool, unlinkFails: bool) returns (r: DeleteResponse)
    requires db.Valid()
    modifies db
    ensures db.Valid()
    ensures db.applications == old(db.applications)
    ensures id !in old(db.attachments) ==>
      r == NotFound && db.attachments == old(db.attachments) && db.files == old(db.files)
    ensures id in old(db.attachments) && deleteFails ==>
      r == DeleteFailed && db.attachments == old(db.attachments) && db.files == old(db.files)
    ensures id in old(db.attachments) && !deleteFails ==>
      && r == Deleted
      && db.attachments == old(db.attachments) - {id}
      && db.files == if unlinkFails then old(db.files)
                     else old(db.files) - {RemoveFirstSlash(old(db.attachments)[id].url)}
  {
    if id !in db.attachments {
      return NotFound;
    }
    var attachment := db.attachments[id];
    if deleteFails {
      return DeleteFailed;
    }
    db.attachments := db.attachments - {id};
    if !unlinkFails {
      db.files := db.files - {RemoveFirstSlash(attachment.url)};
    }
    r := Deleted;
  }
}
