/** The admin panel of one event: reviewing submissions and starting or
    ending the event. */
module AdminPanelPage {
  import opened Common
  import opened Entities
  import opened Store
  import opened Scoring

  /** The pending, approved and rejected tabs. */
  function Partition(cs: seq<Completion>): (r: (seq<Completion>, seq<Completion>, seq<Completion>))
  {
    (WithStatus(cs, Pending), WithStatus(cs, Approved), WithStatus(cs, Rejected))
  }

  /** The tabs are disjoint, each holds exactly the submissions of its
      status, and a submission of any other status is in none of them. */
  lemma PartitionDisjoint(cs: seq<Completion>)
    ensures var (p, a, j) := Partition(cs);
            && (forall c :: c in p ==> c !in a && c !in j)
            && (forall c :: c in a ==> c !in j)
            && (forall c :: c in cs ==> (c in p <==> c.status == Pending) && (c in a <==> c.status == Approved)
                                        && (c in j <==> c.status == Rejected))
  {
  }

  /** Each tab lists its submissions in their fetch order: filtering the
      concatenation of two lists is the concatenation of the filtered
      lists. */
  lemma {:induction false} WithStatusAppend(a: seq<Completion>, b: seq<Completion>, s: Status)
    ensures WithStatus(a + b, s) == WithStatus(a, s) + WithStatus(b, s)
  {
    if a == [] {
      assert a + b == b;
    } else {
      assert (a + b)[1..] == a[1..] + b;
      WithStatusAppend(a[1..], b, s);
    }
  }

  /** "Start" is offered whenever the event is not active (also before it
      has loaded), "End" only when it is. */
  predicate StartOffered(e: Option<BingoEvent>)
  {
    !(e.Some? && e.value.status == Active)
  }

  predicate EndOffered(e: Option<BingoEvent>)
  {
    e.Some? && e.value.status == Active
  }

  lemma ExactlyOneStatusButton(e: Option<BingoEvent>)
    ensures StartOffered(e) != EndOffered(e)
    ensures StartOffered(e) <==> e.None? || e.value.status != Active
  {
  }

  /** The event's status after pressing the offered button. */
  function StatusAfterButton(s: EventStatus): (r: EventStatus)
    ensures s == Active ==> r == Completed
    ensures s != Active ==> r == Active
  {
    if s == Active then Completed else Active
  }

  function SetEventStatus(s: EventStatus): BingoEvent -> BingoEvent
  {
    (e: BingoEvent) => e.(status := s)
  }

  class AdminPanel {
    const store: Store
    const eventId: Id
    var selectedSubmission: Option<Completion>

    constructor(store: Store, eventId: Id)
      ensures this.store == store && this.eventId == eventId && selectedSubmission.None?
    {
      this.store := store;
      this.eventId := eventId;
      selectedSubmission := None;
    }

    /** The `updateSubmission` mutation: the status is written first; on
        approval the event's team with that id (when there is one) is
        credited with `points` and the selected submission's tile. The
        selection is cleared once both writes are done. */
    method UpdateSubmission(id: Id, status: Status, teamId: Id, points: Option<int>)
      modifies store`completions, store`teams, this`selectedSubmission
      ensures store.completions == UpdateWhere(old(store.completions), CompletionKey, {id}, SetStatus(status))
      ensures var team := FindTeam(TeamsOfEvent(old(store.teams), eventId), teamId);
              if status == Approved && team.Some? && old(selectedSubmission).Some? then
                store.teams == UpdateWhere(old(store.teams), TeamKey, {teamId},
                                           SetScore(CreditTeam(team.value, points, old(selectedSubmission).value.tileId)))
              else store.teams == old(store.teams)
      ensures selectedSubmission.None?
    {
      store.UpdateCompletion(id, SetStatus(status));
      if status == Approved {
        var team := FindTeam(TeamsOfEvent(store.teams, eventId), teamId);
        if team.Some? && selectedSubmission.Some? {
          store.UpdateTeam(teamId, SetScore(CreditTeam(team.value, points, selectedSubmission.value.tileId)));
        }
      }
      selectedSubmission := None;
    }

    /** The approve button, offered on pending submissions: it selects the
        submission and approves it with its own points. */
    method Approve(c: Completion)
      modifies store`completions, store`teams, this`selectedSubmission
      ensures store.completions == UpdateWhere(old(store.completions), CompletionKey, {c.id}, SetStatus(Approved))
      ensures var team := FindTeam(TeamsOfEvent(old(store.teams), eventId), c.teamId);
              if team.Some? then
                store.teams == UpdateWhere(old(store.teams), TeamKey, {c.teamId},
                                           SetScore(CreditTeam(team.value, c.pointsAwarded, c.tileId)))
              else store.teams == old(store.teams)
      ensures selectedSubmission.None?
    {
      selectedSubmission := Some(c);
      UpdateSubmission(c.id, Approved, c.teamId, c.pointsAwarded);
    }

    /** The reject button: only the status changes. */
    method Reject(c: Completion)
      modifies store`completions, store`teams, this`selectedSubmission
      ensures store.completions == UpdateWhere(old(store.completions), CompletionKey, {c.id}, SetStatus(Rejected))
      ensures store.teams == old(store.teams)
      ensures selectedSubmission.None?
    {
      selectedSubmission := Some(c);
      UpdateSubmission(c.id, Rejected, c.teamId, Some(0));
    }

    /** The `updateEventStatus` mutation. */
    method UpdateEventStatus(status: EventStatus)
      modifies store`events
      ensures store.events == UpdateWhere(old(store.events), EventKey, {eventId}, SetEventStatus(status))
    {
      store.UpdateEvent(eventId, SetEventStatus(status));
    }
  }

  /** Writes the score fields of `t` onto the record being updated. */
  function SetScore(t: Team): Team -> Team
  {
    (u: Team) => u.(totalPoints := t.totalPoints, completedTiles := t.completedTiles)
  }

  /** With distinct ids, the team record that approval writes is the one
      `CreditTeam` describes, and every other record is unchanged. */
  lemma ApprovalTeamRecord(ts: seq<Team>, i: nat, points: Option<int>, tileId: int)
    requires UniqueTeamIds(ts) && i < |ts|
    ensures var r := UpdateWhere(ts, TeamKey, {ts[i].id}, SetScore(CreditTeam(ts[i], points, tileId)));
            && r[i] == CreditTeam(ts[i], points, tileId)
            && forall j :: 0 <= j < |ts| && j != i ==> r[j] == ts[j]
  {
  }
}
