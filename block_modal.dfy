/** The "block tile" dialog: the teams it offers as targets and what a
    confirmed choice hands to the event page. */
module BlockTileDialog {
  import opened Common
  import opened Entities

  /** `t.id !== currentTeamId`. */
  function IsOther(currentTeamId: Option<Id>): Team -> bool
  {
    (t: Team) => Some(t.id) != currentTeamId
  }

  /** `otherTeams`. */
  function OtherTeams(teams: seq<Team>, currentTeamId: Option<Id>): seq<Team>
  {
    Keep(teams, IsOther(currentTeamId))
  }

  /** The targets are every team except the acting one, in input order. */
  lemma OtherTeamsExact(teams: seq<Team>, more: seq<Team>, currentTeamId: Option<Id>)
    ensures forall t :: t in OtherTeams(teams, currentTeamId) <==> t in teams && Some(t.id) != currentTeamId
    ensures OtherTeams(teams + more, currentTeamId) == OtherTeams(teams, currentTeamId) + OtherTeams(more, currentTeamId)
  {
    var r := OtherTeams(teams, currentTeamId);
    forall t | t in r ensures t in teams && Some(t.id) != currentTeamId {
      var i :| 0 <= i < |r| && r[i] == t;
    }
    forall t | t in teams && Some(t.id) != currentTeamId ensures t in r {
      var i :| 0 <= i < |teams| && teams[i] == t;
    }
    KeepAppend(teams, more, IsOther(currentTeamId));
  }

  class BlockDialog {
    const currentTeamId: Option<Id>
    var selected: Option<Id>

    /** The selection, when there is one, is never the acting team. */
    ghost predicate Valid()
      reads this
    {
      selected.Some? ==> Some(selected.value) != currentTeamId
    }

    constructor(currentTeamId: Option<Id>)
      ensures this.currentTeamId == currentTeamId && selected.None? && Valid()
    {
      this.currentTeamId := currentTeamId;
      selected := None;
    }

    /** `disabled={!selectedTeamId}`. */
    predicate ConfirmDisabled()
      reads this
    {
      selected.None? || selected.value == ""
    }

    /** A click on the k-th target button. */
    method Select(teams: seq<Team>, k: nat)
      requires k < |OtherTeams(teams, currentTeamId)|
      modifies this`selected
      ensures selected == Some(OtherTeams(teams, currentTeamId)[k].id)
      ensures Valid()
    {
      selected := Some(OtherTeams(teams, currentTeamId)[k].id);
    }

    /** `handleConfirm`: without a selection (an empty id counts as none)
        nothing happens; otherwise the id goes to `onBlock` once and the
        selection is cleared. What is sent is never the acting team. */
    method Confirm() returns (sent: Option<Id>)
      requires Valid()
      modifies this`selected
      ensures old(ConfirmDisabled()) ==> sent.None? && selected == old(selected)
      ensures !old(ConfirmDisabled()) ==> sent == old(selected) && selected.None?
      ensures sent.Some? ==> Some(sent.value) != currentTeamId
      ensures Valid()
    {
      if selected.None? || selected.value == "" {
        return None;
      }
      sent := selected;
      selected := None;
    }
  }
}
