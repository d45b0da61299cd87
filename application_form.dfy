/**
 * The intake form component: the `service` URL parameter's default project type and
 * heading, the list of uploaded files with the `attachmentIds` form value mirrored from it,
 * and the upload, remove and submit handlers.  The network calls' outcomes are parameters.
 */
module ApplicationForm {
  import opened Wrappers
  import opened Constants
  import Seqs

  // ---------------------------------------------------------------------------
  // The service slug lookups
  // ---------------------------------------------------------------------------

  /** What reading a property of a plain object literal yields: nothing, a string, or a
      member every object inherits from `Object.prototype` (a function, or for `__proto__`
      the prototype object itself; either is truthy). */
  datatype JsValue = Undefined | Str(text: string) | Inherited(member: string)

  /** The property names every object literal inherits. */
  const PrototypeMembers: set<string> := {
    "constructor", "hasOwnProperty", "isPrototypeOf", "propertyIsEnumerable", "toLocaleString",
    "toString", "valueOf", "__defineGetter__", "__defineSetter__", "__lookupGetter__",
    "__lookupSetter__", "__proto__"}

  predicate Truthy(v: JsValue) {
    match v
    case Undefined => false
    case Str(t) => t != ""
    case Inherited(_) => true
  }

  /** `serviceMapping`'s own entries: URL slug to project type. */
  function ServiceMapping(slug: string): Option<ProjectType> {
    match slug
    case "youtube-marketing" => Some(Youtube)
    case "seo-optimization" => Some(Seo)
    case "sns-management" => Some(Sns)
    case "local-business" => Some(Local)
    case "stable-payment" => Some(Payment)
    case "ai-consulting" => Some(Consulting)
    case _ => None
  }

  /** `serviceNames`' own entries: URL slug to heading text. */
  function ServiceName(slug: string): Option<string> {
    match slug
    case "youtube-marketing" => Some("YouTube 영상 마케팅 자동화")
    case "seo-optimization" => Some("SEO/AEO 최적화")
    case "sns-management" => Some("SNS 마케팅 관리")
    case "local-business" => Some("로컬 비즈니스 마케팅")
    case "stable-payment" => Some("스테이블코인 결제 시스템")
    case "ai-consulting" => Some("AI 마케팅 컨설팅")
    case _ => None
  }

  /** `obj[key]` on an object literal whose own entries `own` gives. */
  function Lookup(own: Option<string>, key: string): JsValue {
    match own
    case Some(v) => Str(v)
    case None => if key in PrototypeMembers then Inherited(key) else Undefined
  }

  const Fallback: string := "협력 신청"

  /** The default project type as written: `serviceParam && serviceMapping[serviceParam]`,
      with the lookup reaching inherited members. */
  function DefaultProjectTypeAsWritten(serviceParam: Option<string>): JsValue {
    if serviceParam.None? || serviceParam.value == "" then Undefined
    else
      var own := match ServiceMapping(serviceParam.value) {
        case Some(t) => Some(ProjectTypeKey(t))
        case None => None
      };
      var v := Lookup(own, serviceParam.value);
      if Truthy(v) then v else Undefined
  }

  /** `getServiceDisplayName` as written: `serviceNames[id] || '협력 신청'`. */
  function ServiceDisplayNameAsWritten(serviceId: string): JsValue {
    var v := Lookup(ServiceName(serviceId), serviceId);
    if Truthy(v) then v else Str(Fallback)
  }

  /** An inherited member name slips through both lookups: the default project type is a
      function rather than a project-type key, and the heading gets a function rather
      than the fallback text. */
  lemma PrototypeSlugSlipsThrough()
    ensures DefaultProjectTypeAsWritten(Some("toString")) == Inherited("toString")
    ensures forall t :: DefaultProjectTypeAsWritten(Some("toString")) != Str(ProjectTypeKey(t))
    ensures ServiceDisplayNameAsWritten("toString") == Inherited("toString")
    ensures ServiceDisplayNameAsWritten("toString") != Str(Fallback)
  {
    assert "toString" in PrototypeMembers;
  }

  /** The default project type read from the table's own entries only. */
  function DefaultProjectType(serviceParam: Option<string>): (r: Option<ProjectType>)
    ensures r.Some? <==> serviceParam.Some? && ServiceMapping(serviceParam.value).Some?
    ensures r.Some? ==> ProjectTypeKey(r.value) in ProjectTypeKeys
  {
    if serviceParam.None? then None else ServiceMapping(serviceParam.value)
  }

  /** The heading text read from the table's own entries only. */
  function ServiceDisplayName(serviceId: string): (name: string)
    ensures ServiceName(serviceId).Some? ==> name == ServiceName(serviceId).value
    ensures ServiceName(serviceId).None? ==> name == Fallback
  {
    match ServiceName(serviceId)
    case Some(n) => n
    case None => Fallback
  }

  /** On the six slugs the page links to, the corrected lookups agree with the written
      ones; the two tables name the same service, as PROJECT_TYPES labels it. */
  lemma CorrectedAgreesOnKnownSlugs(slug: string)
    requires ServiceMapping(slug).Some?
    ensures DefaultProjectTypeAsWritten(Some(slug)) == Str(ProjectTypeKey(DefaultProjectType(Some(slug)).value))
    ensures ServiceDisplayNameAsWritten(slug) == Str(ServiceDisplayName(slug))
    ensures ServiceDisplayName(slug) == ProjectTypeLabel(ServiceMapping(slug).value)
  {
  }

  // ---------------------------------------------------------------------------
  // Uploaded files and the attachmentIds form value
  // ---------------------------------------------------------------------------

  /** An entry of `uploadedFiles`, built from the upload route's reply. */
  datatype UploadedFile = UploadedFile(id: string, name: string, size: nat, mimeType: string, url: string)

  /** `files.map(file => file.id)`. */
  function IdsOf(files: seq<UploadedFile>): (ids: seq<string>)
    ensures |ids| == |files|
    ensures forall k :: 0 <= k < |files| ==> ids[k] == files[k].id
  {
    if files == [] then [] else [files[0].id] + IdsOf(files[1..])
  }

  lemma {:induction false} IdsOfAppend(a: seq<UploadedFile>, b: seq<UploadedFile>)
    ensures IdsOf(a + b) == IdsOf(a) + IdsOf(b)
  {
    var ab := a + b;
    var left, right, whole := IdsOf(a), IdsOf(b), IdsOf(ab);
    forall k | 0 <= k < |whole| ensures whole[k] == (left + right)[k] {
      if k < |a| {
        assert ab[k] == a[k];
      } else {
        assert ab[k] == b[k - |a|];
      }
    }
    assert whole == left + right;
  }

  /** `prev.filter(file => file.id !== fileId)`. */
  function WithoutFile(files: seq<UploadedFile>, fileId: string): (r: seq<UploadedFile>)
    ensures Seqs.IsSubsequence(r, files)
    ensures forall f :: f in r <==> f in files && f.id != fileId
  {
    Seqs.Filter(files, (f: UploadedFile) => f.id != fileId)
  }

  /** Removing a file removes exactly its id from the mirrored list, keeping the others in
      order. */
  lemma {:induction false} RemovedIds(files: seq<UploadedFile>, fileId: string)
    ensures IdsOf(WithoutFile(files, fileId)) == Seqs.Filter(IdsOf(files), (id: string) => id != fileId)
  {
    if files != [] {
      RemovedIds(files[1..], fileId);
      assert IdsOf(files)[1..] == IdsOf(files[1..]);
      if files[0].id != fileId {
        assert WithoutFile(files, fileId) == [files[0]] + WithoutFile(files[1..], fileId);
      }
    }
  }

  /** The form's values: the typed fields by name, the project type and the attachment ids. */
  datatype FormValues = FormValues(fields: map<string, string>, projectType: Option<ProjectType>, attachmentIds: seq<string>)

  /** `defaultValues`: empty fields, no attachments, the project type from the URL. */
  function DefaultValues(serviceParam: Option<string>): FormValues {
    FormValues(map[], DefaultProjectType(serviceParam), [])
  }

  class ApplicationFormState {
    const serviceParam: Option<string>
    var uploadedFiles: seq<UploadedFile>
    var isUploading: bool
    var values: FormValues

    /** The mirroring effect has run: the form's ids are the uploaded files' ids, in order. */
    ghost predicate Valid()
      reads this
    {
      values.attachmentIds == IdsOf(uploadedFiles)
    }

    constructor (serviceParam: Option<string>)
      ensures Valid()
      ensures this.serviceParam == serviceParam
      ensures uploadedFiles == [] && !isUploading && values == DefaultValues(serviceParam)
    {
      this.serviceParam := serviceParam;
      uploadedFiles := [];
      isUploading := false;
      values := DefaultValues(serviceParam);
    }

    /** The effect that copies the ids of `uploadedFiles` into the form. */
    method MirrorAttachmentIds()
      modifies this
      ensures Valid()
      ensures uploadedFiles == old(uploadedFiles) && isUploading == old(isUploading)
      ensures values == old(values).(attachmentIds := IdsOf(uploadedFiles))
    {
      values := values.(attachmentIds := IdsOf(uploadedFiles));
    }

    /** Typing into one field of the form. */
    method SetField(name: string, value: string)
      modifies this
      ensures values == old(values).(fields := old(values).fields[name := value])
      ensures uploadedFiles == old(uploadedFiles) && isUploading == old(isUploading)
    {
      values := values.(fields := values.fields[name := value]);
    }

    method SetProjectType(t: ProjectType)
      modifies this
      ensures values == old(values).(projectType := Some(t))
      ensures uploadedFiles == old(uploadedFiles) && isUploading == old(isUploading)
    {
      values := values.(projectType := Some(t));
    }

    /** `handleFileUpload`: `results` holds the replies of all the parallel uploads, or is
        absent when one of them failed, in which case the handler rethrows and the list is
        unchanged.  The returned ids are the new files' ids in upload order. */
    method HandleFileUpload(results: Option<seq<UploadedFile>>) returns (ids: Option<seq<string>>)
      modifies this
      ensures Valid() && !isUploading
      ensures results.None? ==> ids.None? && uploadedFiles == old(uploadedFiles)
      ensures results.Some? ==>
        && uploadedFiles == old(uploadedFiles) + results.value
        && ids == Some(IdsOf(results.value))
      ensures values.fields == old(values).fields && values.projectType == old(values).projectType
    {
      isUploading := true;
      if results.None? {
        ids := None;
      } else {
        uploadedFiles := uploadedFiles + results.value;
        ids := Some(IdsOf(results.value));
      }
      isUploading := false;
      MirrorAttachmentIds();
    }

    /** `handleFileRemove`: unless the delete request throws, drop the entries with that id
        (an error status from the route does not throw, so the entry goes either way). */
    method HandleFileRemove(fileId: string, deleteThrows: bool)
      modifies this
      ensures Valid()
      ensures uploadedFiles == if deleteThrows then old(uploadedFiles) else WithoutFile(old(uploadedFiles), fileId)
      ensures values.fields == old(values).fields && values.projectType == old(values).projectType
      ensures isUploading == old(isUploading)
    {
      if !deleteThrows {
        uploadedFiles := WithoutFile(uploadedFiles, fileId);
      }
      MirrorAttachmentIds();
    }

    /** `handleFormSubmit`: a successful submit resets the form to its defaults and empties
        the file list; a failed one leaves both as they were. */
    method HandleFormSubmit(submitSucceeds: bool)
      requires Valid()
      modifies this
      ensures Valid()
      ensures submitSucceeds ==> values == DefaultValues(serviceParam) && uploadedFiles == []
      ensures !submitSucceeds ==> values == old(values) && uploadedFiles == old(uploadedFiles)
      ensures isUploading == old(isUploading)
    {
      if submitSucceeds {
        values := DefaultValues(serviceParam);
        uploadedFiles := [];
        MirrorAttachmentIds();
      }
    }
  }

  /** After an upload and then a removal, the ids the form submits are the earlier ids plus
      the new ones, without the removed id. */
  lemma UploadThenRemove(before: seq<UploadedFile>, added: seq<UploadedFile>, fileId: string)
    ensures IdsOf(WithoutFile(before + added, fileId))
         == Seqs.Filter(IdsOf(before) + IdsOf(added), (id: string) => id != fileId)
  {
    RemovedIds(before + added, fileId);
    IdsOfAppend(before, added);
  }
}
