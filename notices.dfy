/**
 * The notice list both notice pages show: the search filter over title and content, the
 * pinned-first, newest-first order, and the one-line preview of a notice's content.
 * `createdAt` is the timestamp's millisecond value (`new Date(createdAt).getTime()`).
 */
module Notices {
  import opened Wrappers
  import opened Text
  import Seqs

  datatype Notice = Notice(
    id: int,
    title: string,
    content: string,
    isPinned: bool,
    viewCount: nat,
    createdAt: int,
    updatedAt: int)

  /** The lower-cased term occurs in the lower-cased title or content. */
  predicate MatchesSearch(n: Notice, term: string) {
    Includes(Lower(n.title), Lower(term)) || Includes(Lower(n.content), Lower(term))
  }

  /** `notices.filter(...)` by the search term. */
  function FilterNotices(notices: seq<Notice>, term: string): (r: seq<Notice>)
    ensures Seqs.IsSubsequence(r, notices)
    ensures forall n :: n in r <==> n in notices && MatchesSearch(n, term)
  {
    Seqs.Filter(notices, n => MatchesSearch(n, term))
  }

  /** The empty string occurs in every string, so an empty search keeps every notice. */
  lemma EmptySearchKeepsAll(notices: seq<Notice>)
    ensures FilterNotices(notices, "") == notices
  {
    forall n: Notice ensures MatchesSearch(n, "") {
      assert OccursAt(Lower(n.title), Lower(""), 0);
    }
    Seqs.FilterAll(notices, n => MatchesSearch(n, ""));
  }

  /** The comparator read as "may be shown before": a pinned notice before an unpinned one,
      otherwise the newer first (`b.createdAt - a.createdAt <= 0`). */
  predicate ShownBefore(a: Notice, b: Notice) {
    if a.isPinned && !b.isPinned then true
    else if !a.isPinned && b.isPinned then false
    else b.createdAt - a.createdAt <= 0
  }

  lemma ShownBeforeIsTotalPreorder()
    ensures Seqs.TotalPreorder(ShownBefore)
  {
  }

  /** Every pinned notice comes before every unpinned one, and among notices of the same
      pin state the newer comes first. */
  predicate PinnedThenNewest(r: seq<Notice>) {
    && (forall i, j :: 0 <= i < j < |r| ==> !(!r[i].isPinned && r[j].isPinned))
    && (forall i, j :: 0 <= i < j < |r| && r[i].isPinned == r[j].isPinned ==> r[i].createdAt >= r[j].createdAt)
  }

  /** `[...filtered].sort(...)`: a permutation of its input with every pinned notice ahead
      of every unpinned one, and newer notices ahead of older ones of the same pin state. */
  function SortNotices(notices: seq<Notice>): (r: seq<Notice>)
    ensures multiset(r) == multiset(notices)
    ensures PinnedThenNewest(r)
  {
    ShownBeforeIsTotalPreorder();
    Seqs.SortBySorted(notices, ShownBefore);
    var r := Seqs.SortBy(notices, ShownBefore);
    assert forall i, j :: 0 <= i < j < |r| ==> ShownBefore(r[i], r[j]);
    r
  }

  /** What a notice page lists for a search term. */
  function Listed(notices: seq<Notice>, term: string): (r: seq<Notice>)
    ensures multiset(r) == multiset(FilterNotices(notices, term))
    ensures PinnedThenNewest(r)
    ensures forall n :: n in r <==> n in notices && MatchesSearch(n, term)
  {
    var filtered := FilterNotices(notices, term);
    var r := SortNotices(filtered);
    assert forall n :: n in r <==> n in multiset(filtered);
    r
  }

  /** `lines[k]` is the first line with a non-white-space character. */
  predicate FirstNonBlankAt(lines: seq<string>, k: int) {
    0 <= k < |lines| && !Blank(lines[k]) && forall j :: 0 <= j < k ==> Blank(lines[j])
  }

  /** `lines.find(line => line.trim())`: the first line with a non-white-space character. */
  function FirstNonBlank(lines: seq<string>): (r: Option<string>)
    ensures r.None? <==> forall k :: 0 <= k < |lines| ==> Blank(lines[k])
    ensures r.Some? ==> exists k :: FirstNonBlankAt(lines, k) && lines[k] == r.value
  {
    if lines == [] then None
    else if !Blank(lines[0]) then
      assert FirstNonBlankAt(lines, 0);
      Some(lines[0])
    else
      var r := FirstNonBlank(lines[1..]);
      assert r.Some? ==> exists k :: FirstNonBlankAt(lines, k) && lines[k] == r.value by {
        if r.Some? {
          var k :| FirstNonBlankAt(lines[1..], k) && lines[1..][k] == r.value;
          assert FirstNonBlankAt(lines, k + 1);
        }
      }
      r
  }

  /** `content.split('\n').find(line => line.trim()) || content.substring(0, 100)`. */
  function Preview(content: string): string {
    match FirstNonBlank(Split(content, '\n'))
    case Some(line) => line
    case None => content[..if |content| < 100 then |content| else 100]
  }

  /** The preview is a line of the content, without a line break, holding a visible
      character; the first-100-characters fallback is taken exactly when the content is all
      white space. */
  lemma PreviewSpec(content: string)
    ensures FirstNonBlank(Split(content, '\n')).None? <==> Blank(content)
    ensures !Blank(content) ==>
      var lines := Split(content, '\n');
      exists k :: FirstNonBlankAt(lines, k) && Preview(content) == lines[k]
    ensures !Blank(content) ==> '\n' !in Preview(content)
    ensures Blank(content) ==> Preview(content) == content[..if |content| < 100 then |content| else 100]
  {
    SplitJoin(content, '\n');
    BlankJoin(Split(content, '\n'), "\n");
  }
}
