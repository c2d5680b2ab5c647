/** The "steal completion" dialog: which completions it offers and what a
    confirmed choice hands to the event page. */
module StealCompletionDialog {
  import opened Common
  import opened Entities

  /** `c.status === 'approved' && c.team_id !== currentTeamId`; with no
      acting team every approved completion qualifies. */
  function IsStealable(currentTeamId: Option<Id>): Completion -> bool
  {
    (c: Completion) => c.status == Approved && Some(c.teamId) != currentTeamId
  }

  /** `stealableCompletions`. */
  function Stealable(cs: seq<Completion>, currentTeamId: Option<Id>): seq<Completion>
  {
    Keep(cs, IsStealable(currentTeamId))
  }

  /** The offered completions are exactly the approved ones of other teams,
      */
  lemma StealableExact(cs: seq<Completion>, currentTeamId: Option<Id>)
    ensures forall c :: c in Stealable(cs, currentTeamId) <==>
              c in cs && c.status == Approved && Some(c.teamId) != currentTeamId
    ensures |Stealable(cs, currentTeamId)| <= |cs|
  {
    var r := Stealable(cs, currentTeamId);
    forall c | c in r ensures c in cs && c.status == Approved && Some(c.teamId) != currentTeamId {
      var i :| 0 <= i < |r| && r[i] == c;
    }
    forall c | c in cs && c.status == Approved && Some(c.teamId) != currentTeamId ensures c in r {
      var i :| 0 <= i < |cs| && cs[i] == c;
    }
  }

  /** and they keep the order of the list they were taken from. */
  lemma StealableOrder(a: seq<Completion>, b: seq<Completion>, currentTeamId: Option<Id>)
    ensures Stealable(a + b, currentTeamId) == Stealable(a, currentTeamId) + Stealable(b, currentTeamId)
  {
    KeepAppend(a, b, IsStealable(currentTeamId));
  }

  class StealDialog {
    var selected: Option<Completion>

    constructor()
      ensures selected.None?
    {
      selected := None;
    }

    /** `disabled={!selectedCompletion}`. */
    predicate ConfirmDisabled()
      reads this
    {
      selected.None?
    }

    /** A click on the k-th offered completion. */
    method Select(cs: seq<Completion>, currentTeamId: Option<Id>, k: nat)
      requires k < |Stealable(cs, currentTeamId)|
      modifies this`selected
      ensures selected == Some(Stealable(cs, currentTeamId)[k])
      ensures selected.value in cs && selected.value.status == Approved && Some(selected.value.teamId) != currentTeamId
    {
      selected := Some(Stealable(cs, currentTeamId)[k]);
    }

    /** `handleSteal`: without a selection nothing happens; otherwise the
        selection goes to `onSteal` once and is cleared. */
    method Confirm() returns (sent: Option<Completion>)
      modifies this`selected
      ensures sent == old(selected)
      ensures sent.Some? <==> !old(ConfirmDisabled())
      ensures selected.None?
    {
      sent := selected;
      selected := None;
    }
  }
}
