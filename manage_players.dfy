/** The admin dialog that lists an event's players by team and moves or
    removes them. */
module ManagePlayersDialog {
  import opened Common
  import opened Entities
  import opened Store

  /** `memberships.filter(m => m.team_id === teamId)`. */
  function OnTeam(teamId: Id): Membership -> bool
  {
    (m: Membership) => m.teamId == teamId
  }

  function MembersOf(ms: seq<Membership>, teamId: Id): seq<Membership>
  {
    Keep(ms, OnTeam(teamId))
  }

  lemma MembersOfExact(ms: seq<Membership>, teamId: Id)
    ensures forall m :: m in MembersOf(ms, teamId) <==> m in ms && m.teamId == teamId
  {
    var r := MembersOf(ms, teamId);
    forall m | m in r ensures m in ms && m.teamId == teamId {
      var i :| 0 <= i < |r| && r[i] == m;
    }
    forall m | m in ms && m.teamId == teamId ensures m in r {
      var i :| 0 <= i < |ms| && ms[i] == m;
    }
  }

  /** One section of the dialog: a team and its players. */
  datatype Group = Group(team: Team, members: seq<Membership>)

  /** `groupedByTeam`. */
  function GroupedByTeam(teams: seq<Team>, ms: seq<Membership>): (r: seq<Group>)
    ensures |r| == |teams|
    ensures forall i :: 0 <= i < |teams| ==> r[i].team == teams[i]
  {
    seq(|teams|, i requires 0 <= i < |teams| => Group(teams[i], MembersOf(ms, teams[i].id)))
  }

  /** Each team's section lists exactly the memberships naming that team,
      and a membership naming no listed team appears in no section. */
  lemma GroupsExact(teams: seq<Team>, ms: seq<Membership>)
    ensures forall i, m :: 0 <= i < |teams| ==>
              (m in GroupedByTeam(teams, ms)[i].members <==> m in ms && m.teamId == teams[i].id)
    ensures forall m, i :: m in ms && m.teamId !in TeamIds(teams) && 0 <= i < |teams| ==>
              m !in GroupedByTeam(teams, ms)[i].members
  {
    forall i | 0 <= i < |teams| {
      MembersOfExact(ms, teams[i].id);
    }
  }

  /** The teams offered as move targets: all but the player's own. */
  function Targets(teams: seq<Team>, player: Membership): seq<Team>
  {
    Keep(teams, (t: Team) => t.id != player.teamId)
  }

  /** The membership `moveToTeam` creates; the backend assigns `id`. */
  function Moved(m: Membership, eventId: Id, newTeamId: Id, id: Id): (r: Membership)
    ensures r.teamId == newTeamId && r.eventId == eventId
    ensures r.userEmail == m.userEmail && r.displayName == m.displayName
  {
    Membership(id, eventId, newTeamId, m.userEmail, m.displayName)
  }

  /** After a move, the player's old record is gone from every section and
      the new one is in the target team's section. */
  lemma MoveRegroups(ms: seq<Membership>, m: Membership, eventId: Id, newTeamId: Id, id: Id)
    requires id != m.id
    ensures var after := Without(ms, MembershipKey, {m.id}) + [Moved(m, eventId, newTeamId, id)];
            && Moved(m, eventId, newTeamId, id) in MembersOf(after, newTeamId)
            && forall x :: x in after ==> x.id != m.id
  {
    var after := Without(ms, MembershipKey, {m.id}) + [Moved(m, eventId, newTeamId, id)];
    MembersOfExact(after, newTeamId);
    forall x | x in after ensures x.id != m.id {
      var i :| 0 <= i < |after| && after[i] == x;
    }
  }

  class PlayerManager {
    const store: Store
    const eventId: Id
    var selectedPlayer: Option<Membership>
    var targetTeamId: string

    constructor(store: Store, eventId: Id)
      ensures this.store == store && this.eventId == eventId && selectedPlayer.None? && targetTeamId == ""
    {
      this.store := store;
      this.eventId := eventId;
      selectedPlayer := None;
      targetTeamId := "";
    }

    /** The arrow button: selects the player, or deselects the selected
        one. */
    method ToggleSelect(member: Membership)
      modifies this`selectedPlayer
      ensures old(selectedPlayer).Some? && old(selectedPlayer).value.id == member.id ==> selectedPlayer.None?
      ensures !(old(selectedPlayer).Some? && old(selectedPlayer).value.id == member.id) ==> selectedPlayer == Some(member)
    {
      if selectedPlayer.Some? && selectedPlayer.value.id == member.id {
        selectedPlayer := None;
      } else {
        selectedPlayer := Some(member);
      }
    }

    /** Picking the k-th entry of the target list. */
    method ChooseTarget(teams: seq<Team>, k: nat)
      requires selectedPlayer.Some? && k < |Targets(teams, selectedPlayer.value)|
      modifies this`targetTeamId
      ensures targetTeamId == Targets(teams, selectedPlayer.value)[k].id
      ensures targetTeamId != selectedPlayer.value.teamId
    {
      targetTeamId := Targets(teams, selectedPlayer.value)[k].id;
    }

    /** `disabled={!targetTeamId}`. */
    predicate MoveDisabled()
      reads this
    {
      targetTeamId == ""
    }

    /** The Move button: the old membership is deleted, then one with the
        same e-mail and name is created under the chosen team; the
        selection and target are cleared. */
    method Move(id: Id)
      requires selectedPlayer.Some?
      modifies store`memberships, this`selectedPlayer, this`targetTeamId
      ensures old(MoveDisabled()) ==>
                store.memberships == old(store.memberships) && selectedPlayer == old(selectedPlayer) && targetTeamId == ""
      ensures !old(MoveDisabled()) ==>
                && store.memberships == Without(old(store.memberships), MembershipKey, {old(selectedPlayer).value.id})
                                        + [Moved(old(selectedPlayer).value, eventId, old(targetTeamId), id)]
                && selectedPlayer.None? && targetTeamId == ""
    {
      if targetTeamId == "" { return; }
      var m := selectedPlayer.value;
      store.DeleteMembership(m.id);
      store.CreateMembership(Moved(m, eventId, targetTeamId, id));
      selectedPlayer := None;
      targetTeamId := "";
    }

    /** The remove button, after the confirmation dialog: only the
        membership record is deleted; the team record, and its `members`
        list, stay as they were. */
    method Remove(member: Membership, confirmed: bool)
      modifies store`memberships, this`selectedPlayer
      ensures !confirmed ==> store.memberships == old(store.memberships) && selectedPlayer == old(selectedPlayer)
      ensures confirmed ==> store.memberships == Without(old(store.memberships), MembershipKey, {member.id}) && selectedPlayer.None?
      ensures store.teams == old(store.teams)
    {
      if !confirmed { return; }
      store.DeleteMembership(member.id);
      selectedPlayer := None;
    }
  }
}
