/**
 * The file picker of the intake form.  A selection is refused as a whole when it would
 * exceed the file-count cap; otherwise each file is checked (size first, then type), the
 * passing files are handed to the upload callback in one call, and the rest are reported.
 * The callback's success or failure is a parameter.
 */
module FileUpload {
  import opened Wrappers
  import Seqs

  /** A selected browser file: its name, byte size and MIME type. */
  datatype SelectedFile = SelectedFile(name: string, size: int, mimeType: string)

  /** The per-file messages (their size text uses float formatting and is not modelled). */
  datatype FileError = TooLarge(name: string) | UnsupportedType(name: string)

  /** The first check a file fails: the size (strictly above `maxSize`), then the type. */
  function ErrorOf(f: SelectedFile, maxSize: int, accept: seq<string>): (e: Option<FileError>)
    ensures e == Some(TooLarge(f.name)) <==> f.size > maxSize
    ensures e == Some(UnsupportedType(f.name)) <==> f.size <= maxSize && f.mimeType !in accept
    ensures e.None? <==> f.size <= maxSize && f.mimeType in accept
  {
    if f.size > maxSize then Some(TooLarge(f.name))
    else if f.mimeType !in accept then Some(UnsupportedType(f.name))
    else None
  }

  predicate Accepted(f: SelectedFile, maxSize: int, accept: seq<string>) {
    ErrorOf(f, maxSize, accept).None?
  }

  /** The files the loop pushes into `validFiles`, in selection order. */
  function ValidFiles(files: seq<SelectedFile>, maxSize: int, accept: seq<string>): (r: seq<SelectedFile>)
    ensures Seqs.IsSubsequence(r, files)
    ensures forall f :: f in r <==> f in files && f.size <= maxSize && f.mimeType in accept
  {
    Seqs.Filter(files, f => Accepted(f, maxSize, accept))
  }

  /** The messages the loop pushes into `errors`, one per refused file, in selection order. */
  function Errors(files: seq<SelectedFile>, maxSize: int, accept: seq<string>): (r: seq<FileError>)
    ensures |r| <= |files|
  {
    if files == [] then []
    else
      var last := files[|files| - 1];
      Errors(files[..|files| - 1], maxSize, accept)
        + match ErrorOf(last, maxSize, accept) { case Some(e) => [e] case None => [] }
  }

  lemma ValidFilesSnoc(files: seq<SelectedFile>, f: SelectedFile, maxSize: int, accept: seq<string>)
    ensures ValidFiles(files + [f], maxSize, accept)
         == ValidFiles(files, maxSize, accept) + (if Accepted(f, maxSize, accept) then [f] else [])
  {
    Seqs.FilterSnoc(files, f, x => Accepted(x, maxSize, accept));
  }

  /** Every file lands in exactly one of the two lists. */
  lemma {:induction false} PartitionCounts(files: seq<SelectedFile>, maxSize: int, accept: seq<string>)
    ensures |ValidFiles(files, maxSize, accept)| + |Errors(files, maxSize, accept)| == |files|
  {
    if files != [] {
      var init := files[..|files| - 1];
      var last := files[|files| - 1];
      PartitionCounts(init, maxSize, accept);
      assert files == init + [last];
      ValidFilesSnoc(init, last, maxSize, accept);
    }
  }

  /** One iteration of the loop: the next file goes to exactly one of the two lists. */
  lemma PartitionStep(files: seq<SelectedFile>, i: int, maxSize: int, accept: seq<string>)
    requires 0 <= i < |files|
    ensures ValidFiles(files[..i + 1], maxSize, accept)
         == ValidFiles(files[..i], maxSize, accept) + (if Accepted(files[i], maxSize, accept) then [files[i]] else [])
    ensures Errors(files[..i + 1], maxSize, accept)
         == Errors(files[..i], maxSize, accept)
            + match ErrorOf(files[i], maxSize, accept) { case Some(e) => [e] case None => [] }
  {
    assert files[..i + 1] == files[..i] + [files[i]];
    assert files[..i + 1][..i] == files[..i];
    ValidFilesSnoc(files[..i], files[i], maxSize, accept);
  }

  /** The `for` loop over the selection. */
  method Partition(files: seq<SelectedFile>, maxSize: int, accept: seq<string>)
    returns (validFiles: seq<SelectedFile>, errors: seq<FileError>)
    ensures validFiles == ValidFiles(files, maxSize, accept)
    ensures errors == Errors(files, maxSize, accept)
  {
    validFiles := [];
    errors := [];
    var i := 0;
    while i < |files|
      invariant 0 <= i <= |files|
      invariant validFiles == ValidFiles(files[..i], maxSize, accept)
      invariant errors == Errors(files[..i], maxSize, accept)
    {
      var file := files[i];
      PartitionStep(files, i, maxSize, accept);
      if file.size > maxSize {
        errors := errors + [TooLarge(file.name)];
      } else if file.mimeType !in accept {
        errors := errors + [UnsupportedType(file.name)];
      } else {
        validFiles := validFiles + [file];
      }
      i := i + 1;
    }
    assert files[..i] == files;
  }

  /** `canUploadMore`. */
  function CanUploadMore(uploadedCount: nat, maxFiles: nat): (can: bool)
    ensures can <==> uploadedCount + 1 <= maxFiles
  {
    uploadedCount < maxFiles
  }

  /** What a call of `handleFiles` did: nothing for an empty selection, a count alert, or
      the partition and, when some file passed, the upload callback's result. */
  datatype Outcome =
    | Ignored
    | TooManyFiles
    | Checked(validFiles: seq<SelectedFile>, errors: seq<FileError>, uploadSucceeded: Option<bool>)

  class FileUploadWidget {
    var isUploading: bool

    constructor ()
      ensures !isUploading
    {
      isUploading := false;
    }

    /** `handleFiles`, with `uploadedCount` already-uploaded files and the callback's
        success given as `uploadSucceeds`. */
    method HandleFiles(files: seq<SelectedFile>, uploadedCount: nat, maxFiles: nat, maxSize: int,
                       accept: seq<string>, uploadSucceeds: bool)
      returns (out: Outcome)
      modifies this
      ensures files == [] ==> out == Ignored
      ensures files != [] && uploadedCount + |files| > maxFiles ==> out == TooManyFiles
      ensures files != [] && uploadedCount + |files| <= maxFiles ==>
        && out.Checked?
        && out.validFiles == ValidFiles(files, maxSize, accept)
        && out.errors == Errors(files, maxSize, accept)
        && (out.uploadSucceeded.Some? <==> out.validFiles != [])
        && (out.uploadSucceeded.Some? ==> out.uploadSucceeded.value == uploadSucceeds)
      ensures out.Checked? && out.uploadSucceeded.Some? ==> !isUploading
      ensures !(out.Checked? && out.uploadSucceeded.Some?) ==> isUploading == old(isUploading)
    {
      if |files| == 0 {
        return Ignored;
      }
      if uploadedCount + |files| > maxFiles {
        return TooManyFiles;
      }
      var validFiles, errors := Partition(files, maxSize, accept);
      if |validFiles| == 0 {
        return Checked(validFiles, errors, None);
      }
      isUploading := true;
      var succeeded := uploadSucceeds;
      isUploading := false;
      out := Checked(validFiles, errors, Some(succeeded));
    }
  }
}
