/**
 * The administrative notice page: the notice list with a create/edit modal, delete and
 * pin toggling.  The clock reading of a submit (`new Date().toISOString()`) is a parameter.
 */
module AdminNotices {
  import opened Wrappers
  import opened Text
  import opened Notices
  import Seqs

  /** The modal's form fields. */
  datatype FormData = FormData(title: string, content: string, isPinned: bool)

  const EmptyForm: FormData := FormData("", "", false)

  /** The guard of `handleSubmit`: `formData.title.trim()` and `formData.content.trim()`
      are both non-empty, that is, both fields have a non-white-space character. */
  method FormFilled(form: FormData) returns (ok: bool)
    ensures ok <==> !Blank(form.title) && !Blank(form.content)
  {
    TrimEmptyIffBlank(form.title);
    TrimEmptyIffBlank(form.content);
    ok := Trim(form.title) != "" && Trim(form.content) != "";
  }

  /** `Math.max(...notices.map(n => n.id), 0) + 1`. */
  function NextId(notices: seq<Notice>): (id: int)
    ensures id >= 1
    ensures forall k :: 0 <= k < |notices| ==> notices[k].id < id
    ensures id == 1 || exists k :: 0 <= k < |notices| && id == notices[k].id + 1
  {
    if notices == [] then 1
    else
      var rest := NextId(notices[1..]);
      if notices[0].id + 1 > rest then notices[0].id + 1
      else
        assert rest == 1 || exists k :: 0 <= k < |notices| && rest == notices[k].id + 1 by {
          if rest != 1 {
            var k :| 0 <= k < |notices[1..]| && rest == notices[1..][k].id + 1;
            assert notices[k + 1] == notices[1..][k];
          }
        }
        rest
  }

  /** No two notices share an id. */
  predicate UniqueIds(notices: seq<Notice>) {
    forall i, j :: 0 <= i < j < |notices| ==> notices[i].id != notices[j].id
  }

  /** The edit branch: the notice with the current id takes the form's title, content and
      pin state and the new update time. */
  function ApplyEdit(notices: seq<Notice>, id: int, form: FormData, now: int): (r: seq<Notice>)
    ensures |r| == |notices|
    ensures forall k :: 0 <= k < |r| ==>
      && r[k].id == notices[k].id && r[k].viewCount == notices[k].viewCount
      && r[k].createdAt == notices[k].createdAt
      && (notices[k].id == id ==>
            r[k].title == form.title && r[k].content == form.content
            && r[k].isPinned == form.isPinned && r[k].updatedAt == now)
      && (notices[k].id != id ==> r[k] == notices[k])
  {
    seq(|notices|, k requires 0 <= k < |notices| =>
      if notices[k].id == id
      then notices[k].(title := form.title, content := form.content, isPinned := form.isPinned, updatedAt := now)
      else notices[k])
  }

  /** `notices.map(n => n.id === id ? { ...n, isPinned: !n.isPinned } : n)`. */
  function TogglePinned(notices: seq<Notice>, id: int): (r: seq<Notice>)
    ensures |r| == |notices|
    ensures forall k :: 0 <= k < |r| ==>
      && r[k].isPinned == (if notices[k].id == id then !notices[k].isPinned else notices[k].isPinned)
      && r[k].(isPinned := notices[k].isPinned) == notices[k]
  {
    seq(|notices|, k requires 0 <= k < |notices| =>
      if notices[k].id == id then notices[k].(isPinned := !notices[k].isPinned) else notices[k])
  }

  /** Toggling the same notice twice restores the list. */
  lemma ToggleTwice(notices: seq<Notice>, id: int)
    ensures TogglePinned(TogglePinned(notices, id), id) == notices
  {
    var once := TogglePinned(notices, id);
    var twice := TogglePinned(once, id);
    forall k | 0 <= k < |notices| ensures twice[k] == notices[k] {
      assert once[k].(isPinned := notices[k].isPinned) == notices[k];
      assert twice[k].(isPinned := once[k].isPinned) == once[k];
    }
  }

  /** `notices.filter(n => n.id !== id)`. */
  function RemoveId(notices: seq<Notice>, id: int): (r: seq<Notice>)
    ensures Seqs.IsSubsequence(r, notices)
    ensures forall n :: n in r <==> n in notices && n.id != id
  {
    Seqs.Filter(notices, (n: Notice) => n.id != id)
  }

  /** A fresh notice goes at the front with an id above every existing one, so ids stay
      unique. */
  lemma CreateKeepsIdsUnique(notices: seq<Notice>, n: Notice)
    requires UniqueIds(notices) && n.id == NextId(notices)
    ensures UniqueIds([n] + notices)
  {
    var r := [n] + notices;
    forall i, j | 0 <= i < j < |r| ensures r[i].id != r[j].id {
      if i == 0 {
        assert r[j] == notices[j - 1];
      } else {
        assert r[i] == notices[i - 1] && r[j] == notices[j - 1];
      }
    }
  }

  class NoticesManagement {
    var notices: seq<Notice>
    var isCreateModalOpen: bool
    var isEditMode: bool
    var currentNotice: Option<Notice>
    var searchTerm: string
    var formData: FormData

    constructor (initial: seq<Notice>)
      ensures notices == initial && !isCreateModalOpen && !isEditMode && currentNotice == None
      ensures searchTerm == "" && formData == EmptyForm
    {
      notices := initial;
      isCreateModalOpen := false;
      isEditMode := false;
      currentNotice := None;
      searchTerm := "";
      formData := EmptyForm;
    }

    /** The list as rendered: filtered by the search term, pinned first, newest first. */
    function Shown(): (r: seq<Notice>)
      reads this
      ensures multiset(r) == multiset(FilterNotices(notices, searchTerm))
      ensures PinnedThenNewest(r)
      ensures forall n :: n in r <==> n in notices && MatchesSearch(n, searchTerm)
    {
      Listed(notices, searchTerm)
    }

    method SetSearchTerm(term: string)
      modifies this
      ensures searchTerm == term && notices == old(notices) && formData == old(formData)
      ensures isCreateModalOpen == old(isCreateModalOpen) && isEditMode == old(isEditMode)
      ensures currentNotice == old(currentNotice)
    {
      searchTerm := term;
    }

    /** `handleCreateNotice`: an empty form in create mode. */
    method OpenCreate()
      modifies this
      ensures isCreateModalOpen && !isEditMode && currentNotice == None && formData == EmptyForm
      ensures notices == old(notices) && searchTerm == old(searchTerm)
    {
      isEditMode := false;
      currentNotice := None;
      formData := EmptyForm;
      isCreateModalOpen := true;
    }

    /** `handleEditNotice`: the form holds the notice's fields, in edit mode. */
    method OpenEdit(n: Notice)
      modifies this
      ensures isCreateModalOpen && isEditMode && currentNotice == Some(n)
      ensures formData == FormData(n.title, n.content, n.isPinned)
      ensures notices == old(notices) && searchTerm == old(searchTerm)
    {
      isEditMode := true;
      currentNotice := Some(n);
      formData := FormData(n.title, n.content, n.isPinned);
      isCreateModalOpen := true;
    }

    /** The three inputs of the modal each replace one form field. */
    method SetFormTitle(title: string)
      modifies this
      ensures formData == old(formData).(title := title)
      ensures notices == old(notices) && isCreateModalOpen == old(isCreateModalOpen)
      ensures isEditMode == old(isEditMode) && currentNotice == old(currentNotice) && searchTerm == old(searchTerm)
    {
      formData := formData.(title := title);
    }

    method SetFormContent(content: string)
      modifies this
      ensures formData == old(formData).(content := content)
      ensures notices == old(notices) && isCreateModalOpen == old(isCreateModalOpen)
      ensures isEditMode == old(isEditMode) && currentNotice == old(currentNotice) && searchTerm == old(searchTerm)
    {
      formData := formData.(content := content);
    }

    method SetFormPinned(isPinned: bool)
      modifies this
      ensures formData == old(formData).(isPinned := isPinned)
      ensures notices == old(notices) && isCreateModalOpen == old(isCreateModalOpen)
      ensures isEditMode == old(isEditMode) && currentNotice == old(currentNotice) && searchTerm == old(searchTerm)
    {
      formData := formData.(isPinned := isPinned);
    }

    /** `handleSubmit` at clock reading `now`.  A blank title or content is refused and
        nothing changes; otherwise the current notice is edited (edit mode with a current
        notice) or a new one is put first, and the modal closes with an empty form. */
    method Submit(now: int) returns (accepted: bool)
      modifies this
      ensures accepted <==> !Blank(old(formData).title) && !Blank(old(formData).content)
      ensures !accepted ==>
        && notices == old(notices) && formData == old(formData)
        && isCreateModalOpen == old(isCreateModalOpen)
      ensures accepted && old(isEditMode) && old(currentNotice).Some? ==>
        notices == ApplyEdit(old(notices), old(currentNotice).value.id, old(formData), now)
      ensures accepted && !(old(isEditMode) && old(currentNotice).Some?) ==>
        notices == [Notice(NextId(old(notices)), old(formData).title, old(formData).content,
                           old(formData).isPinned, 0, now, now)] + old(notices)
      ensures accepted ==> !isCreateModalOpen && formData == EmptyForm
      ensures isEditMode == old(isEditMode) && currentNotice == old(currentNotice) && searchTerm == old(searchTerm)
    {
      var form, list := formData, notices;
      var filled := FormFilled(form);
      if !filled {
        return false;
      }
      var updated;
      if isEditMode && currentNotice.Some? {
        updated := ApplyEdit(list, currentNotice.value.id, form, now);
      } else {
        updated := [Notice(NextId(list), form.title, form.content, form.isPinned, 0, now, now)] + list;
      }
      notices, isCreateModalOpen, formData := updated, false, EmptyForm;
      accepted := true;
    }

    /** `handleDeleteNotice`: after a confirmed prompt, drop the notices with that id. */
    method Delete(id: int, confirmed: bool)
      modifies this
      ensures notices == if confirmed then RemoveId(old(notices), id) else old(notices)
      ensures formData == old(formData) && isCreateModalOpen == old(isCreateModalOpen)
      ensures isEditMode == old(isEditMode) && currentNotice == old(currentNotice) && searchTerm == old(searchTerm)
    {
      if confirmed {
        notices := RemoveId(notices, id);
      }
    }

    method TogglePin(id: int)
      modifies this
      ensures notices == TogglePinned(old(notices), id)
      ensures formData == old(formData) && isCreateModalOpen == old(isCreateModalOpen)
      ensures isEditMode == old(isEditMode) && currentNotice == old(currentNotice) && searchTerm == old(searchTerm)
    {
      notices := TogglePinned(notices, id);
    }
  }
}
