/** The admin reports list (src/components/admin/reports/ReportsTable.tsx):
    status and reason selectors, a search over the report's names, details and
    reason, and the per-row rules for labels, badges, links and actions. */
module ReportsTable {
  import opened Wrappers
  import Strings
  import TextSearch
  import Filtering
  import AdminSidebar

  /** A report as the admin page hands it to the table. */
  datatype ReportRow = ReportRow(
    id: string,
    reporterUsername: string,
    reportedUsername: string,
    reportedUserId: string,
    contentType: string,
    contentId: Option<string>,
    reason: string,
    details: Option<string>,
    status: string,
    adminNotes: Option<string>,
    createdAt: string)

  /** Badge variant per report status. */
  const StatusColors: map<string, string> :=
    map["pending" := "destructive", "reviewed" := "default", "dismissed" := "secondary"]

  /** Display label per report reason. */
  const ReasonLabels: map<string, string> :=
    map["spam" := "Spam", "inappropriate" := "Inappropriate", "harassment" := "Harassment", "other" := "Other"]

  /** The status and reason selectors, each disabled by "all". */
  predicate PassesSelectors(statusFilter: string, reasonFilter: string, r: ReportRow)
  {
    (statusFilter == "all" || r.status == statusFilter) && (reasonFilter == "all" || r.reason == reasonFilter)
  }

  /** The search occurs in a username, the details (when present) or the reason. */
  predicate SearchHits(search: string, r: ReportRow)
  {
    || TextSearch.Matches(r.reporterUsername, search)
    || TextSearch.Matches(r.reportedUsername, search)
    || (r.details.Some? && TextSearch.Matches(r.details.value, search))
    || TextSearch.Matches(r.reason, search)
  }

  /** The row predicate with its early returns: a selector mismatch drops the
      report; otherwise a non-empty search decides, and an empty one keeps it. */
  predicate Keeps(search: string, statusFilter: string, reasonFilter: string, r: ReportRow)
  {
    if statusFilter != "all" && r.status != statusFilter then false
    else if reasonFilter != "all" && r.reason != reasonFilter then false
    else if search != "" then SearchHits(search, r)
    else true
  }

  function KeepsFn(search: string, statusFilter: string, reasonFilter: string): ReportRow -> bool
  {
    r => Keeps(search, statusFilter, reasonFilter, r)
  }

  /** Both selectors must pass; only then does a non-empty search apply. */
  lemma KeepsIff(search: string, statusFilter: string, reasonFilter: string, r: ReportRow)
    ensures !PassesSelectors(statusFilter, reasonFilter, r) ==> !Keeps(search, statusFilter, reasonFilter, r)
    ensures search == "" ==> (Keeps(search, statusFilter, reasonFilter, r) <==> PassesSelectors(statusFilter, reasonFilter, r))
    ensures search != "" ==>
      (Keeps(search, statusFilter, reasonFilter, r) <==> PassesSelectors(statusFilter, reasonFilter, r) && SearchHits(search, r))
  {
  }

  /** The rows shown: the listed ones, in their original order. */
  function Filtered(reports: seq<ReportRow>, search: string, statusFilter: string, reasonFilter: string): (rs: seq<ReportRow>)
    ensures Filtering.IsSubsequence(rs, reports)
    ensures forall r :: r in rs <==> r in reports && Keeps(search, statusFilter, reasonFilter, r)
    ensures forall r :: multiset(rs)[r] == if Keeps(search, statusFilter, reasonFilter, r) then multiset(reports)[r] else 0
  {
    Filtering.FilterIsSubsequence(reports, KeepsFn(search, statusFilter, reasonFilter));
    Filtering.FilterMembership(reports, KeepsFn(search, statusFilter, reasonFilter));
    Filtering.FilterCount(reports, KeepsFn(search, statusFilter, reasonFilter));
    Filtering.Filter(reports, KeepsFn(search, statusFilter, reasonFilter))
  }

  /** With no search text and both selectors on "all", every report is listed. */
  lemma NoFilterKeepsAll(reports: seq<ReportRow>)
    ensures Filtered(reports, "", "all", "all") == reports
  {
    Filtering.FilterKeepsAll(reports, KeepsFn("", "all", "all"));
  }

  /** The search ignores the case of the search text. */
  lemma SearchIgnoresCase(reports: seq<ReportRow>, s: string, t: string, statusFilter: string, reasonFilter: string)
    requires Strings.Lower(s) == Strings.Lower(t)
    ensures Filtered(reports, s, statusFilter, reasonFilter) == Filtered(reports, t, statusFilter, reasonFilter)
  {
    assert |s| == |Strings.Lower(s)| == |Strings.Lower(t)| == |t|;
    Filtering.FilterAgree(reports, KeepsFn(s, statusFilter, reasonFilter), KeepsFn(t, statusFilter, reasonFilter));
  }

  /** Typing more characters never lists more reports. */
  lemma LongerSearchNarrows(reports: seq<ReportRow>, s: string, t: string, statusFilter: string, reasonFilter: string)
    ensures Filtering.IsSubsequence(Filtered(reports, s + t, statusFilter, reasonFilter), Filtered(reports, s, statusFilter, reasonFilter))
  {
    forall k | 0 <= k < |reports|
      ensures Keeps(s + t, statusFilter, reasonFilter, reports[k]) ==> Keeps(s, statusFilter, reasonFilter, reports[k])
    {
      var r := reports[k];
      TextSearch.LongerSearchMatchesLess(r.reporterUsername, s, t);
      TextSearch.LongerSearchMatchesLess(r.reportedUsername, s, t);
      TextSearch.LongerSearchMatchesLess(r.reason, s, t);
      if r.details.Some? {
        TextSearch.LongerSearchMatchesLess(r.details.value, s, t);
      }
    }
    Filtering.FilterStricter(reports, KeepsFn(s + t, statusFilter, reasonFilter), KeepsFn(s, statusFilter, reasonFilter));
  }

  /** The reason column: the table's label, or the raw reason when it has none. */
  function ReasonLabel(reason: string): (l: string)
    ensures reason in ReasonLabels ==> l == ReasonLabels[reason]
    ensures reason !in ReasonLabels ==> l == reason
    ensures reason in ReasonLabels ==> l == Strings.Capitalize(reason)
  {
    if reason in ReasonLabels then ReasonLabels[reason] else reason
  }

  /** The status badge: the table's variant, or "secondary" when it has none. */
  function StatusVariant(status: string): (v: string)
    ensures status in StatusColors ==> v == StatusColors[status]
    ensures status !in StatusColors ==> v == "secondary"
    ensures v in {"destructive", "default", "secondary"}
  {
    if status in StatusColors then StatusColors[status] else "secondary"
  }

  /** `report.contentId` used as a condition: present and not empty. */
  predicate HasContent(r: ReportRow)
  {
    r.contentId.Some? && r.contentId.value != ""
  }

  /** "Delete reported content" is offered for reported content other than a user. */
  predicate CanDeleteContent(r: ReportRow)
  {
    HasContent(r) && r.contentType != "user"
  }

  /** The view button's target: the post for a post report with content, the
      reported user for a user report, and none otherwise. */
  function ViewLink(r: ReportRow): (link: Option<string>)
    ensures r.contentType == "post" && HasContent(r) ==> link == Some("/admin/posts/" + r.contentId.value)
    ensures r.contentType == "user" ==> link == Some("/admin/users/" + r.reportedUserId)
    ensures link.Some? <==> (r.contentType == "post" && HasContent(r)) || r.contentType == "user"
  {
    if r.contentType == "post" && HasContent(r) then Some("/admin/posts/" + r.contentId.value)
    else if r.contentType == "user" then Some("/admin/users/" + r.reportedUserId)
    else None
  }

  /** A user report can be viewed but its user is never deleted from here; a
      post report with content offers both. */
  lemma ViewAndDeleteActions(r: ReportRow)
    ensures r.contentType == "user" ==> ViewLink(r).Some? && !CanDeleteContent(r)
    ensures r.contentType == "post" && HasContent(r) ==> ViewLink(r).Some? && CanDeleteContent(r)
    ensures !HasContent(r) ==> !CanDeleteContent(r)
  {
  }

  /** Following the view link highlights Posts or Users in the sidebar, and nothing else. */
  lemma ViewLinkHighlightsSection(r: ReportRow, j: nat)
    requires ViewLink(r).Some? && j < |AdminSidebar.NavItems|
    ensures AdminSidebar.IsActive(AdminSidebar.NavItems[j], ViewLink(r).value) <==>
      AdminSidebar.NavItems[j].name == (if r.contentType == "user" then "Users" else "Posts")
  {
    if r.contentType == "user" {
      assert ViewLink(r).value == AdminSidebar.NavItems[6].href + ("/" + r.reportedUserId);
      AdminSidebar.SubPageActivatesItsSection(6, "/" + r.reportedUserId, j);
    } else {
      assert ViewLink(r).value == AdminSidebar.NavItems[5].href + ("/" + r.contentId.value);
      AdminSidebar.SubPageActivatesItsSection(5, "/" + r.contentId.value, j);
    }
  }

  /** Opening the review dialog seeds the notes with the report's notes, or "". */
  function InitialNotes(r: ReportRow): (notes: string)
    ensures r.adminNotes.Some? ==> notes == r.adminNotes.value
    ensures r.adminNotes.None? ==> notes == ""
  {
    r.adminNotes.GetOr("")
  }
}
