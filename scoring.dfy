/** Team scores. A team record caches `total_points`; the team page and
    the stats pages recompute points from approved completions instead.
    `Consistent` says the two agree. Approval from the admin panel keeps
    it; approval from the event page, a steal, and an approval of a
    completion without points break it; a team reset restores it. */
module Scoring {
  import opened Common
  import opened Entities
  import opened Store

  /** `points_awarded || 0` summed over one team's approved completions. */
  function ApprovedPoints(cs: seq<Completion>, teamId: Id): int
  {
    if cs == [] then 0
    else (if cs[0].teamId == teamId && cs[0].status == Approved then Awarded(cs[0]) else 0)
         + ApprovedPoints(cs[1..], teamId)
  }

  /** The recomputed total is the filter-then-reduce the pages write. */
  lemma {:induction false} ApprovedPointsIsFilteredSum(cs: seq<Completion>, teamId: Id)
    ensures ApprovedPoints(cs, teamId) == PointsSum(WithStatus(OfTeam(cs, teamId), Approved))
  {
    if cs != [] {
      ApprovedPointsIsFilteredSum(cs[1..], teamId);
      var c := cs[0];
      var rest := OfTeam(cs[1..], teamId);
      if c.teamId == teamId {
        assert OfTeam(cs, teamId) == [c] + rest;
        assert ([c] + rest)[1..] == rest;
        if c.status == Approved {
          var w := WithStatus(rest, Approved);
          assert WithStatus([c] + rest, Approved) == [c] + w;
          assert ([c] + w)[1..] == w;
        }
      }
    }
  }

  lemma {:induction false} ApprovedPointsNone(cs: seq<Completion>, teamId: Id)
    requires forall i :: 0 <= i < |cs| ==> cs[i].teamId != teamId
    ensures ApprovedPoints(cs, teamId) == 0
  {
    if cs != [] {
      ApprovedPointsNone(cs[1..], teamId);
    }
  }

  lemma {:induction false} ApprovedPointsAppend(a: seq<Completion>, b: seq<Completion>, teamId: Id)
    ensures ApprovedPoints(a + b, teamId) == ApprovedPoints(a, teamId) + ApprovedPoints(b, teamId)
  {
    if a == [] {
      assert a + b == b;
    } else {
      assert (a + b)[1..] == a[1..] + b;
      ApprovedPointsAppend(a[1..], b, teamId);
    }
  }

  predicate Consistent(t: Team, cs: seq<Completion>)
  {
    OrZero(t.totalPoints) == ApprovedPoints(cs, t.id)
  }

  /** Changing the status of one not-yet-approved completion (ids being
      distinct) adds its points to its team's recomputed total exactly
      when the new status is approved, and changes no other team's. */
  lemma {:induction false} StatusChangeEffect(cs: seq<Completion>, k: nat, s: Status, teamId: Id)
    requires UniqueCompletionIds(cs) && k < |cs| && cs[k].status != Approved
    ensures ApprovedPoints(UpdateWhere(cs, CompletionKey, {cs[k].id}, SetStatus(s)), teamId)
            == ApprovedPoints(cs, teamId) + (if cs[k].teamId == teamId && s == Approved then Awarded(cs[k]) else 0)
  {
    var id := cs[k].id;
    var u := UpdateWhere(cs, CompletionKey, {id}, SetStatus(s));
    assert u[1..] == UpdateWhere(cs[1..], CompletionKey, {id}, SetStatus(s));
    if k == 0 {
      assert UpdateWhere(cs[1..], CompletionKey, {id}, SetStatus(s)) == cs[1..] by {
        forall i | 1 <= i < |cs| ensures cs[i].id != id {
        }
      }
    } else {
      assert cs[0].id != id;
      StatusChangeEffect(cs[1..], k - 1, s, teamId);
    }
  }

  /** The score an approval writes: `(team.total_points || 0) + points`.
      A missing `points` makes the sum NaN; it is modelled as a missing
      total, which every later `|| 0` read also takes as 0. */
  function Credit(total: Option<int>, points: Option<int>): (r: Option<int>)
    ensures points.Some? ==> r == Some(OrZero(total) + points.value)
    ensures points.None? ==> OrZero(r) == 0
  {
    if points.Some? then Some(OrZero(total) + points.value) else None
  }

  /** The team record after the admin panel approves a completion of it. */
  function CreditTeam(t: Team, points: Option<int>, tileId: int): (r: Team)
  {
    t.(totalPoints := Credit(t.totalPoints, points), completedTiles := t.completedTiles + [tileId])
  }

  /** Admin-panel approval of a pending completion that carries points
      keeps its team consistent, and every other team too. */
  lemma ApprovalKeepsConsistent(t: Team, cs: seq<Completion>, k: nat)
    requires UniqueCompletionIds(cs) && k < |cs| && cs[k].status == Pending && cs[k].pointsAwarded.Some?
    requires Consistent(t, cs)
    ensures var after := UpdateWhere(cs, CompletionKey, {cs[k].id}, SetStatus(Approved));
            Consistent(if t.id == cs[k].teamId then CreditTeam(t, cs[k].pointsAwarded, cs[k].tileId) else t, after)
  {
    StatusChangeEffect(cs, k, Approved, t.id);
  }

  /** Rejecting a pending completion keeps every team consistent. */
  lemma RejectionKeepsConsistent(t: Team, cs: seq<Completion>, k: nat)
    requires UniqueCompletionIds(cs) && k < |cs| && cs[k].status == Pending
    requires Consistent(t, cs)
    ensures Consistent(t, UpdateWhere(cs, CompletionKey, {cs[k].id}, SetStatus(Rejected)))
  {
    StatusChangeEffect(cs, k, Rejected, t.id);
  }

  /** Approving a completion that lacks points clears a positive cached
      total of its team: the sum is NaN, and the team falls out of step
      with its approved completions. */
  lemma ApprovalWithoutPointsLosesTotal(t: Team, cs: seq<Completion>, k: nat)
    requires UniqueCompletionIds(cs) && k < |cs| && cs[k].status == Pending && cs[k].pointsAwarded.None?
    requires cs[k].teamId == t.id && Consistent(t, cs) && OrZero(t.totalPoints) > 0
    ensures !Consistent(CreditTeam(t, cs[k].pointsAwarded, cs[k].tileId),
                        UpdateWhere(cs, CompletionKey, {cs[k].id}, SetStatus(Approved)))
  {
    StatusChangeEffect(cs, k, Approved, t.id);
  }

  /** Approving from the event page writes only the status, so a team
      whose completion is worth something drifts out of step. */
  lemma StatusOnlyApprovalBreaksConsistency(t: Team, cs: seq<Completion>, k: nat)
    requires UniqueCompletionIds(cs) && k < |cs| && cs[k].status == Pending
    requires cs[k].teamId == t.id && Awarded(cs[k]) != 0 && Consistent(t, cs)
    ensures !Consistent(t, UpdateWhere(cs, CompletionKey, {cs[k].id}, SetStatus(Approved)))
  {
    StatusChangeEffect(cs, k, Approved, t.id);
  }

  /** A steal adds an approved completion without touching the cached
      total, so the thief's recomputed points exceed its cached total by
      the stolen points. */
  lemma StealBreaksConsistency(t: Team, cs: seq<Completion>, c: Completion)
    requires c.teamId == t.id && c.status == Approved
    ensures ApprovedPoints(cs + [c], t.id) == ApprovedPoints(cs, t.id) + Awarded(c)
    ensures Consistent(t, cs) && Awarded(c) != 0 ==> !Consistent(t, cs + [c])
  {
    ApprovedPointsAppend(cs, [c], t.id);
    assert [c][1..] == [];
  }

  /** After a team reset (score zeroed, the team's completions in the event
      deleted) the team is consistent again with the event's completions. */
  lemma ResetRestoresConsistency(t: Team, cs: seq<Completion>, eventId: Id)
    ensures var left := Without(cs, CompletionKey, CompletionIds(OfTeam(CompletionsOfEvent(cs, eventId), t.id)));
            Consistent(ResetScore(t), CompletionsOfEvent(left, eventId))
  {
    var doomed := CompletionIds(OfTeam(CompletionsOfEvent(cs, eventId), t.id));
    var left := Without(cs, CompletionKey, doomed);
    var r := CompletionsOfEvent(left, eventId);
    forall i | 0 <= i < |r| ensures r[i].teamId != t.id {
      var c := r[i];
      assert c in left;
    }
    ApprovedPointsNone(r, t.id);
  }
}
