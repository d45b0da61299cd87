/**
 * The administrative applications page.  It holds the application list in component
 * state, re-derives the visible list whenever the list or one of the three filter inputs
 * changes, lets the administrator overwrite an application's status, and shows counts.
 * Each handler below is the state update followed by the filter effect it triggers.
 */
module AdminApplicationsPage {
  import opened Wrappers
  import opened Tables
  import opened AdminQuery
  import Seqs

  /** The effect's three conditions: a non-empty search term found in one of the four
      columns, a status filter other than `"all"`, a project-type filter other than `"all"`. */
  predicate Visible(a: ApplicationRecord, term: string, status: string, projectType: string) {
    && (term == "" || SearchHit(a, term))
    && (status == "all" || a.status == status)
    && (projectType == "all" || a.projectType == projectType)
  }

  /** The conditions applied so far, after the search step and after the status step. */
  function AfterSearch(term: string): ApplicationRecord -> bool {
    a => term == "" || SearchHit(a, term)
  }

  function AfterStatus(term: string, status: string): ApplicationRecord -> bool {
    a => AfterSearch(term)(a) && (status == "all" || a.status == status)
  }

  /** The visible list: the applications satisfying all three conditions, in list order. */
  function ClientFilter(apps: seq<ApplicationRecord>, term: string, status: string, projectType: string): (r: seq<ApplicationRecord>)
    ensures Seqs.IsSubsequence(r, apps)
    ensures forall a :: a in r <==> a in apps && Visible(a, term, status, projectType)
  {
    Seqs.Filter(apps, a => Visible(a, term, status, projectType))
  }

  /** With an empty search and both filters at `"all"` every application is visible. */
  lemma ClientFilterNone(apps: seq<ApplicationRecord>)
    ensures ClientFilter(apps, "", "all", "all") == apps
  {
    Seqs.FilterAll(apps, a => Visible(a, "", "all", "all"));
  }

  /** `applications.map(app => app.applicationId === id ? { ...app, status } : app)`. */
  function SetStatus(apps: seq<ApplicationRecord>, applicationId: string, newStatus: string): (r: seq<ApplicationRecord>)
    ensures |r| == |apps|
    ensures forall k :: 0 <= k < |r| ==>
      && r[k].status == (if apps[k].applicationId == applicationId then newStatus else apps[k].status)
      && r[k].(status := apps[k].status) == apps[k]
  {
    seq(|apps|, k requires 0 <= k < |apps| =>
      if apps[k].applicationId == applicationId then apps[k].(status := newStatus) else apps[k])
  }

  /** There is no transition guard: the last status written wins, whatever came before. */
  lemma SetStatusOverwrites(apps: seq<ApplicationRecord>, applicationId: string, first: string, second: string)
    ensures SetStatus(SetStatus(apps, applicationId, first), applicationId, second) == SetStatus(apps, applicationId, second)
  {
    var r1 := SetStatus(SetStatus(apps, applicationId, first), applicationId, second);
    var r2 := SetStatus(apps, applicationId, second);
    forall k | 0 <= k < |apps| ensures r1[k] == r2[k] {
      assert r1[k].(status := apps[k].status) == apps[k];
      assert r2[k].(status := apps[k].status) == apps[k];
    }
  }

  /** Writing back the status an application already has changes nothing. */
  lemma SetSameStatus(apps: seq<ApplicationRecord>, i: nat)
    requires i < |apps| && UniqueKeys(apps)
    ensures SetStatus(apps, apps[i].applicationId, apps[i].status) == apps
  {
    var r := SetStatus(apps, apps[i].applicationId, apps[i].status);
    forall k | 0 <= k < |apps| ensures r[k] == apps[k] {
      assert r[k].(status := apps[k].status) == apps[k];
      if k != i && apps[k].applicationId == apps[i].applicationId {
        assert false;
      }
    }
  }

  predicate IsPending(a: ApplicationRecord) {
    a.status == "PENDING"
  }

  predicate IsApproved(a: ApplicationRecord) {
    a.status == "APPROVED"
  }

  /** The counters of `getStats` (the month counter reads the clock and is left out). */
  datatype Stats = Stats(total: nat, pending: nat, approved: nat)

  function GetStats(apps: seq<ApplicationRecord>): (st: Stats)
    ensures st.total == |apps|
    ensures st.pending == |Seqs.Filter(apps, IsPending)|
    ensures st.approved == |Seqs.Filter(apps, IsApproved)|
    ensures st.pending + st.approved <= st.total
  {
    Seqs.DisjointCounts(apps, IsPending, IsApproved);
    Seqs.CountFilter(apps, IsPending);
    Seqs.CountFilter(apps, IsApproved);
    Stats(|apps|, Seqs.Count(apps, IsPending), Seqs.Count(apps, IsApproved))
  }

  class ApplicationsPage {
    var applications: seq<ApplicationRecord>
    var filteredApplications: seq<ApplicationRecord>
    var searchTerm: string
    var statusFilter: string
    var projectTypeFilter: string
    var selected: Option<ApplicationRecord>

    /** After every handler the effect has run: the visible list is the filtered list. */
    ghost predicate Valid()
      reads this
    {
      filteredApplications == ClientFilter(applications, searchTerm, statusFilter, projectTypeFilter)
    }

    constructor (initial: seq<ApplicationRecord>)
      ensures Valid()
      ensures applications == initial && filteredApplications == initial
      ensures searchTerm == "" && statusFilter == "all" && projectTypeFilter == "all" && selected == None
    {
      applications := initial;
      filteredApplications := initial;
      searchTerm := "";
      statusFilter := "all";
      projectTypeFilter := "all";
      selected := None;
      new;
      ClientFilterNone(initial);
    }

    /** The filter effect: start from the whole list and narrow it step by step. */
    method ApplyFilters()
      modifies this
      ensures Valid()
      ensures applications == old(applications) && selected == old(selected)
      ensures searchTerm == old(searchTerm) && statusFilter == old(statusFilter)
      ensures projectTypeFilter == old(projectTypeFilter)
    {
      var term, status, projectType := searchTerm, statusFilter, projectTypeFilter;
      var filtered := applications;
      ghost var before: ApplicationRecord -> bool := a => true;
      Seqs.FilterAll(applications, before);
      var bySearch := a => SearchHit(a, term);
      if term != "" {
        filtered := Seqs.Filter(filtered, bySearch);
      }
      Seqs.FilterNarrow(applications, before, term != "", bySearch, AfterSearch(term));
      assert filtered == Seqs.Filter(applications, AfterSearch(term));
      var byStatus := (a: ApplicationRecord) => a.status == status;
      if status != "all" {
        filtered := Seqs.Filter(filtered, byStatus);
      }
      Seqs.FilterNarrow(applications, AfterSearch(term), status != "all", byStatus, AfterStatus(term, status));
      assert filtered == Seqs.Filter(applications, AfterStatus(term, status));
      var byType := (a: ApplicationRecord) => a.projectType == projectType;
      if projectType != "all" {
        filtered := Seqs.Filter(filtered, byType);
      }
      Seqs.FilterNarrow(applications, AfterStatus(term, status), projectType != "all", byType,
        a => Visible(a, term, status, projectType));
      filteredApplications := filtered;
    }

    method SetSearchTerm(term: string)
      modifies this
      ensures Valid()
      ensures searchTerm == term && statusFilter == old(statusFilter) && projectTypeFilter == old(projectTypeFilter)
      ensures applications == old(applications) && selected == old(selected)
    {
      searchTerm := term;
      ApplyFilters();
    }

    method SetStatusFilter(status: string)
      modifies this
      ensures Valid()
      ensures statusFilter == status && searchTerm == old(searchTerm) && projectTypeFilter == old(projectTypeFilter)
      ensures applications == old(applications) && selected == old(selected)
    {
      statusFilter := status;
      ApplyFilters();
    }

    method SetProjectTypeFilter(projectType: string)
      modifies this
      ensures Valid()
      ensures projectTypeFilter == projectType && searchTerm == old(searchTerm) && statusFilter == old(statusFilter)
      ensures applications == old(applications) && selected == old(selected)
    {
      projectTypeFilter := projectType;
      ApplyFilters();
    }

    /** The reset button: empty search, both filters back to `"all"`, every application shown. */
    method ResetFilters()
      modifies this
      ensures Valid()
      ensures searchTerm == "" && statusFilter == "all" && projectTypeFilter == "all"
      ensures applications == old(applications) && filteredApplications == applications
      ensures selected == old(selected)
    {
      searchTerm := "";
      statusFilter := "all";
      projectTypeFilter := "all";
      ApplyFilters();
      ClientFilterNone(applications);
    }

    /** `updateApplicationStatus`: overwrite the status of the matching applications. */
    method UpdateApplicationStatus(applicationId: string, newStatus: string)
      modifies this
      ensures Valid()
      ensures applications == SetStatus(old(applications), applicationId, newStatus)
      ensures searchTerm == old(searchTerm) && statusFilter == old(statusFilter)
      ensures projectTypeFilter == old(projectTypeFilter) && selected == old(selected)
    {
      applications := SetStatus(applications, applicationId, newStatus);
      ApplyFilters();
    }

    /** The status select of the detail panel: the list and the open record both change. */
    method ChangeSelectedStatus(newStatus: string)
      requires selected.Some?
      modifies this
      ensures Valid()
      ensures applications == SetStatus(old(applications), old(selected).value.applicationId, newStatus)
      ensures selected == Some(old(selected).value.(status := newStatus))
      ensures searchTerm == old(searchTerm) && statusFilter == old(statusFilter)
      ensures projectTypeFilter == old(projectTypeFilter)
    {
      var current := selected.value;
      UpdateApplicationStatus(current.applicationId, newStatus);
      selected := Some(current.(status := newStatus));
    }
  }
}
