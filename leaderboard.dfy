/** The event leaderboard: teams ordered by their cached points, the scale
    of the progress bars, and the rank shown beside each team. */
module LeaderboardView {
  import opened Common
  import opened Entities
  import opened Sorting

  /** `team.total_points || 0`. */
  function Points(t: Team): int
  {
    OrZero(t.totalPoints)
  }

  /** `[...teams].sort((a, b) => (b.total_points || 0) - (a.total_points || 0))`:
      a sorted copy; `teams` itself is a value and stays as it was. */
  function SortedTeams(teams: seq<Team>): seq<Team>
  {
    SortDesc(teams, Points)
  }

  /** The leaderboard is ordered by points, highest first, holds every team
      exactly once, and teams with equal points keep their input order. */
  lemma SortedTeamsOrder(teams: seq<Team>, v: int)
    ensures SortedDesc(SortedTeams(teams), Points)
    ensures multiset(SortedTeams(teams)) == multiset(teams)
    ensures WithKey(SortedTeams(teams), Points, v) == WithKey(teams, Points, v)
  {
    SortDescSortedPermutation(teams, Points);
    SortDescStable(teams, Points, v);
  }

  /** `sortedTeams[0]?.total_points || 1`: the top team's points, or 1 when
      there is no team or its points are 0 or missing. */
  function MaxPoints(teams: seq<Team>): (r: int)
    ensures r != 0
    ensures forall t :: t in teams ==> Points(t) <= r
    ensures r == 1 || exists t :: t in teams && Points(t) == r
  {
    var sorted := SortedTeams(teams);
    SortedTeamsOrder(teams, 0);
    assert forall t :: t in teams ==> t in multiset(sorted);
    TopIsMax(sorted);
    if sorted == [] || Points(sorted[0]) == 0 then 1
    else
      assert sorted[0] in multiset(teams);
      Points(sorted[0])
  }

  lemma TopIsMax(sorted: seq<Team>)
    requires SortedDesc(sorted, Points)
    ensures forall t :: t in sorted ==> Points(t) <= Points(sorted[0])
  {
  }

  /** The marker in front of a team: a trophy for the first three places,
      the place number after that. */
  datatype RankMark = Trophy(color: string) | Place(number: nat)

  const TrophyColors: seq<string> := ["#ffd700", "#c0c0c0", "#cd7f32"]

  function RankMarkAt(index: nat): (r: RankMark)
    ensures index < 3 <==> r.Trophy?
    ensures r.Trophy? ==> r.color == TrophyColors[index]
    ensures r.Place? ==> r.number == index + 1 && r.number >= 4
  {
    if index < 3 then Trophy(TrophyColors[index]) else Place(index + 1)
  }

  /** Distinct places get distinct markers. */
  lemma RankMarksDistinct(i: nat, j: nat)
    requires i != j
    ensures RankMarkAt(i) != RankMarkAt(j)
  {
    if i < 3 && j < 3 {
      assert TrophyColors[0] != TrophyColors[1] && TrophyColors[0] != TrophyColors[2]
        && TrophyColors[1] != TrophyColors[2];
    }
  }

  /** The "reset leaderboard" button: an admin, and a reset handler given. */
  predicate ShowsResetAll(isAdmin: bool, hasOnReset: bool)
  {
    isAdmin && hasOnReset
  }

  /** The per-team reset button. */
  predicate ShowsResetTeam(isAdmin: bool, hasOnResetTeam: bool)
  {
    isAdmin && hasOnResetTeam
  }
}
