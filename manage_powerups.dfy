/** The admin dialog that edits every team's powerup counters of one event
    and writes them back. */
module ManagePowerupsDialog {
  import opened Common
  import opened Entities
  import opened Store

  /** `POWERUP_CONFIG`: the four counters the dialog edits. */
  const ConfigKeys: set<string> := {DoublePointsKey, BlockTileKey, RevealMysteryKey, StealCompletionKey}

  /** The counters a team starts with when the dialog opens. */
  function Four(p: map<string, int>): (r: map<string, int>)
    ensures r.Keys == ConfigKeys
    ensures forall k :: k in ConfigKeys ==> r[k] == PowerupCount(p, k)
  {
    map[DoublePointsKey := PowerupCount(p, DoublePointsKey), BlockTileKey := PowerupCount(p, BlockTileKey),
        RevealMysteryKey := PowerupCount(p, RevealMysteryKey), StealCompletionKey := PowerupCount(p, StealCompletionKey)]
  }

  /** `initial` after the `forEach` over `teams`: a later team with the same
      id overwrites an earlier one. */
  function InitialCounters(teams: seq<Team>): map<Id, map<string, int>>
  {
    if teams == [] then map[]
    else InitialCounters(teams[..|teams| - 1])[teams[|teams| - 1].id := Four(teams[|teams| - 1].powerups)]
  }

  /** Every counter set holds exactly the four edited keys. */
  ghost predicate FourKeysEach(counters: map<Id, map<string, int>>)
  {
    forall id :: id in counters ==> counters[id].Keys == ConfigKeys
  }

  /** On opening, there is one counter set per team id, holding exactly the
      four keys, */
  lemma {:induction false} InitialCountersKeys(teams: seq<Team>)
    ensures InitialCounters(teams).Keys == TeamIds(teams)
    ensures FourKeysEach(InitialCounters(teams))
  {
    if teams != [] {
      InitialCountersKeys(teams[..|teams| - 1]);
      TeamIdsPrefix(teams, |teams| - 1);
      assert teams[..|teams|] == teams;
    }
  }

  /** and, with distinct ids, each is that team's stored counters, a
      missing one read as 0. */
  lemma {:induction false} InitialCountersValues(teams: seq<Team>)
    requires UniqueTeamIds(teams)
    ensures forall i :: 0 <= i < |teams| ==>
              teams[i].id in InitialCounters(teams) && InitialCounters(teams)[teams[i].id] == Four(teams[i].powerups)
  {
    if teams != [] {
      var n := |teams| - 1;
      var pre := teams[..n];
      assert UniqueTeamIds(pre) by {
        forall i, j | 0 <= i < j < n ensures pre[i].id != pre[j].id {
          assert pre[i] == teams[i] && pre[j] == teams[j];
        }
      }
      InitialCountersValues(pre);
      var before := InitialCounters(pre);
      assert InitialCounters(teams) == before[teams[n].id := Four(teams[n].powerups)];
      forall i | 0 <= i < n
        ensures teams[i].id in InitialCounters(teams) && InitialCounters(teams)[teams[i].id] == Four(teams[i].powerups)
      {
        assert pre[i] == teams[i];
        assert teams[i].id != teams[n].id;
      }
    }
  }

  /** `Math.max(0, parseInt(value) || 0)`: a value that does not parse is
      `None`. */
  function Clamp(parsed: Option<int>): (r: int)
    ensures r >= 0
    ensures parsed.Some? && parsed.value >= 0 ==> r == parsed.value
    ensures parsed.None? || parsed.value <= 0 ==> r == 0
  {
    if parsed.Some? && parsed.value > 0 then parsed.value else 0
  }

  /** The record patch of the save loop: the team's edited counters replace
      its whole `powerups` object. */
  function SaveCounters(counters: map<Id, map<string, int>>): Team -> Team
  {
    (u: Team) => if u.id in counters then u.(powerups := counters[u.id]) else u
  }

  /** A saved team holds exactly the four edited counters: anything else it
      held, such as `steal_tile`, is gone. */
  lemma SaveDropsOtherKeys(counters: map<Id, map<string, int>>, u: Team)
    requires FourKeysEach(counters) && u.id in counters
    ensures SaveCounters(counters)(u).powerups.Keys == ConfigKeys
    ensures PowerupCount(SaveCounters(counters)(u).powerups, StealTileKey) == 0
  {
  }

  class PowerupEditor {
    const store: Store
    var counters: map<Id, map<string, int>>

    constructor(store: Store)
      ensures this.store == store && counters == map[]
    {
      this.store := store;
      counters := map[];
    }

    /** The effect that runs when the dialog opens with at least one team. */
    method Open(isOpen: bool, teams: seq<Team>)
      modifies this`counters
      ensures isOpen && |teams| > 0 ==> counters == InitialCounters(teams)
      ensures !(isOpen && |teams| > 0) ==> counters == old(counters)
    {
      if !(isOpen && |teams| > 0) { return; }
      var initial: map<Id, map<string, int>> := map[];
      assert teams[..0] == [];
      for i := 0 to |teams|
        invariant initial == InitialCounters(teams[..i])
      {
        initial := initial[teams[i].id := Four(teams[i].powerups)];
        assert teams[..i + 1][..i] == teams[..i];
      }
      assert teams[..|teams|] == teams;
      counters := initial;
    }

    /** `handleChange(teamId, powerupId, value)`: only that team's counter of
        that kind changes, to the clamped value; a team with no counter set
        yet gets a set holding just that counter. */
    method HandleChange(teamId: Id, powerupId: string, parsed: Option<int>)
      modifies this`counters
      ensures counters == old(counters)[teamId := (if teamId in old(counters) then old(counters)[teamId] else map[])
                                                    [powerupId := Clamp(parsed)]]
      ensures old(FourKeysEach(counters)) && teamId in old(counters) && powerupId in ConfigKeys ==> FourKeysEach(counters)
    {
      var current := if teamId in counters then counters[teamId] else map[];
      counters := counters[teamId := current[powerupId := Clamp(parsed)]];
    }

    /** The save loop: one `Team.update` per listed team, in order. */
    method Save(teams: seq<Team>)
      modifies store`teams
      ensures store.teams == UpdateWhere(old(store.teams), TeamKey, TeamIds(teams), SaveCounters(counters))
    {
      var f := SaveCounters(counters);
      assert forall x :: TeamKey(f(x)) == TeamKey(x) && f(f(x)) == f(x);
      UpdateWhereNothing(store.teams, TeamKey, f);
      assert TeamIds(teams[..0]) == {};
      var i := 0;
      while i < |teams|
        invariant 0 <= i <= |teams|
        invariant store.teams == UpdateWhere(old(store.teams), TeamKey, TeamIds(teams[..i]), f)
      {
        UpdateWhereUnion(old(store.teams), TeamKey, TeamIds(teams[..i]), {teams[i].id}, f);
        store.UpdateTeam(teams[i].id, f);
        assert TeamIds(teams[..i + 1]) == TeamIds(teams[..i]) + {teams[i].id} by {
          assert teams[..i + 1] == teams[..i] + [teams[i]];
        }
        i := i + 1;
      }
      assert teams[..i] == teams;
    }
  }
}
