/**
 * The public notice page.  Its state is the notice list, the search term and the notice
 * open in the detail view; opening a notice raises its view counter.
 */
module NoticePage {
  import opened Wrappers
  import opened Notices

  /** `prev.map(n => n.id === id ? { ...n, viewCount: n.viewCount + 1 } : n)`. */
  function IncrementViews(notices: seq<Notice>, id: int): (r: seq<Notice>)
    ensures |r| == |notices|
    ensures forall k :: 0 <= k < |r| ==>
      && r[k].viewCount == (if notices[k].id == id then notices[k].viewCount + 1 else notices[k].viewCount)
      && r[k].(viewCount := notices[k].viewCount) == notices[k]
  {
    seq(|notices|, k requires 0 <= k < |notices| =>
      if notices[k].id == id then notices[k].(viewCount := notices[k].viewCount + 1) else notices[k])
  }

  /** The sum of the view counters. */
  function TotalViews(notices: seq<Notice>): nat {
    if notices == [] then 0 else notices[0].viewCount + TotalViews(notices[1..])
  }

  /** How many notices carry `id`. */
  function WithId(notices: seq<Notice>, id: int): nat {
    if notices == [] then 0 else (if notices[0].id == id then 1 else 0) + WithId(notices[1..], id)
  }

  /** One click adds exactly one view per notice with that id, and no view elsewhere. */
  lemma {:induction false} IncrementAddsOneView(notices: seq<Notice>, id: int)
    ensures TotalViews(IncrementViews(notices, id)) == TotalViews(notices) + WithId(notices, id)
  {
    if notices != [] {
      IncrementAddsOneView(notices[1..], id);
      assert IncrementViews(notices, id)[1..] == IncrementViews(notices[1..], id);
    }
  }

  class NoticePage {
    var notices: seq<Notice>
    var searchTerm: string
    var selected: Option<Notice>

    constructor (initial: seq<Notice>)
      ensures notices == initial && searchTerm == "" && selected == None
    {
      notices := initial;
      searchTerm := "";
      selected := None;
    }

    /** The list as rendered: filtered by the search term, pinned first, newest first. */
    function Shown(): (r: seq<Notice>)
      reads this
      ensures multiset(r) == multiset(FilterNotices(notices, searchTerm))
      ensures PinnedThenNewest(r)
      ensures forall n :: n in r <==> n in notices && MatchesSearch(n, searchTerm)
    {
      Listed(notices, searchTerm)
    }

    method SetSearchTerm(term: string)
      modifies this
      ensures searchTerm == term && notices == old(notices) && selected == old(selected)
    {
      searchTerm := term;
    }

    method IncrementViewCount(id: int)
      modifies this
      ensures notices == IncrementViews(old(notices), id)
      ensures searchTerm == old(searchTerm) && selected == old(selected)
    {
      notices := IncrementViews(notices, id);
    }

    /** `handleNoticeClick`: count the view and open the notice as it was clicked, so the
        detail view shows the counter from before this click. */
    method Click(n: Notice)
      modifies this
      ensures notices == IncrementViews(old(notices), n.id)
      ensures selected == Some(n) && searchTerm == old(searchTerm)
    {
      IncrementViewCount(n.id);
      selected := Some(n);
    }

    /** The back button closes the detail view. */
    method Back()
      modifies this
      ensures selected == None && notices == old(notices) && searchTerm == old(searchTerm)
    {
      selected := None;
    }
  }
}
