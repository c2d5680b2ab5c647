/** The submissions dialog of the event page: the three status tabs, the
    card of each submission and the admin's approve and reject buttons. */
module SubmissionsViewerView {
  import opened Common
  import opened Entities
  import opened Store
  import Admin = AdminPanelPage

  /** `pending`, `approved` and `rejected`: the same three filters as the
      admin panel's tabs. */
  function Tabs(submissions: seq<Completion>): (seq<Completion>, seq<Completion>, seq<Completion>)
  {
    Admin.Partition(submissions)
  }

  /** A submission whose status is none of the three is in no tab, and the
      "n pending" badge counts the pending tab. */
  lemma TabsCoverExactlyThreeStatuses(submissions: seq<Completion>, c: Completion)
    requires c in submissions
    ensures var (p, a, j) := Tabs(submissions);
            (c in p || c in a || c in j) <==> c.status in {Pending, Approved, Rejected}
  {
    Admin.PartitionDisjoint(submissions);
  }

  /** A button press on the viewer. */
  datatype AdminAction = AdminAction(submissionId: Id, status: Status)

  /** The buttons on one card: approve then reject, for an admin looking at
      a pending submission, and none otherwise. */
  function Actions(isAdmin: bool, s: Completion): (r: seq<AdminAction>)
    ensures r != [] <==> isAdmin && s.status == Pending
    ensures r != [] ==> r == [AdminAction(s.id, Approved), AdminAction(s.id, Rejected)]
  {
    if isAdmin && s.status == Pending then [AdminAction(s.id, Approved), AdminAction(s.id, Rejected)] else []
  }

  /** A button press, handed to the event page's status write, moves that
      pending submission out of the pending tab and into the tab of its new
      status; with distinct ids every other submission stays as it was. */
  lemma ActionMovesSubmission(submissions: seq<Completion>, k: nat, isAdmin: bool, a: AdminAction)
    requires k < |submissions| && UniqueCompletionIds(submissions)
    requires a in Actions(isAdmin, submissions[k])
    ensures var r := UpdateWhere(submissions, CompletionKey, {a.submissionId}, SetStatus(a.status));
            var (p, ap, j) := Tabs(r);
            && submissions[k] in Tabs(submissions).0
            && r[k] !in p && (r[k] in ap || r[k] in j)
            && r[k].(status := Pending) == submissions[k]
            && forall i :: 0 <= i < |submissions| && i != k ==> r[i] == submissions[i]
  {
    var r := UpdateWhere(submissions, CompletionKey, {a.submissionId}, SetStatus(a.status));
    Admin.PartitionDisjoint(submissions);
    Admin.PartitionDisjoint(r);
    assert r[k] in r;
  }
}
