/** The "invite a player" dialog: the checks an invitation passes before it
    is stored, and the record stored. */
module InviteDialog {
  import opened Common
  import opened Entities
  import opened Store

  /** A pending invitation to this team of this event for that address
      already exists. */
  predicate HasPendingInvite(invs: seq<Invitation>, eventId: Id, teamId: Id, invitee: string)
  {
    exists i :: 0 <= i < |invs| && invs[i].eventId == eventId && invs[i].teamId == teamId
                && invs[i].inviteeEmail == invitee && invs[i].status == InvitePending
  }

  /** The address already belongs to a player of some team of the event. */
  predicate HasMembership(ms: seq<Membership>, eventId: Id, invitee: string)
  {
    exists i :: 0 <= i < |ms| && ms[i].eventId == eventId && ms[i].userEmail == Some(invitee)
  }

  /** `user.display_name || user.full_name`. */
  function InviterName(user: User): Option<string>
  {
    if user.displayName.Some? && user.displayName.value != "" then user.displayName else user.fullName
  }

  /** What a submit of `email` leads to. */
  datatype Outcome = Refused(message: string) | Sent(invitation: Invitation)

  /** `handleSubmit` and `sendInvite` together. */
  function Decide(email: string, userEmail: string, event: BingoEvent, team: Team, user: User,
                  invs: seq<Invitation>, ms: seq<Membership>, id: Id): Outcome
  {
    if Trim(email) == "" then Refused("Please enter an email address")
    else if ToLower(email) == ToLower(userEmail) then Refused("You cannot invite yourself")
    else
      var invitee := ToLower(email);
      if HasPendingInvite(invs, event.id, team.id, invitee) then Refused("This user already has a pending invitation")
      else if HasMembership(ms, event.id, invitee) then Refused("This user is already on a team for this event")
      else Sent(Invitation(id, event.id, team.id, team.name, event.name, userEmail, InviterName(user), invitee, InvitePending))
  }

  /** A blank address and one's own address (in any case) are refused
      first; an invitation is sent exactly when, in addition, the lowercased
      address has no pending invitation to this team and no membership in
      this event; it is stored lowercased, pending, from the inviter. */
  lemma DecideCases(email: string, userEmail: string, event: BingoEvent, team: Team, user: User,
                    invs: seq<Invitation>, ms: seq<Membership>, id: Id)
    ensures var r := Decide(email, userEmail, event, team, user, invs, ms, id);
            && (Trim(email) == "" ==> r == Refused("Please enter an email address"))
            && (Trim(email) != "" && ToLower(email) == ToLower(userEmail) ==> r == Refused("You cannot invite yourself"))
            && (r.Sent? <==>
                  Trim(email) != "" && ToLower(email) != ToLower(userEmail)
                  && !HasPendingInvite(invs, event.id, team.id, ToLower(email))
                  && !HasMembership(ms, event.id, ToLower(email)))
            && (r.Sent? ==>
                  && r.invitation.inviteeEmail == ToLower(email) && r.invitation.status == InvitePending
                  && r.invitation.eventId == event.id && r.invitation.teamId == team.id
                  && r.invitation.inviterEmail == userEmail)
            && (r.Refused? ==> r.message != "")
  {
  }

  /** Inviting the same address to the same team twice in a row is refused
      the second time, whatever its case. */
  lemma NoSecondInvite(email: string, email': string, userEmail: string, event: BingoEvent, team: Team, user: User,
                       invs: seq<Invitation>, ms: seq<Membership>, id: Id, id': Id)
    requires Decide(email, userEmail, event, team, user, invs, ms, id).Sent?
    requires ToLower(email') == ToLower(email)
    ensures Decide(email', userEmail, event, team, user,
                   invs + [Decide(email, userEmail, event, team, user, invs, ms, id).invitation], ms, id').Refused?
  {
    DecideCases(email, userEmail, event, team, user, invs, ms, id);
    var inv := Decide(email, userEmail, event, team, user, invs, ms, id).invitation;
    var invs' := invs + [inv];
    assert invs'[|invs|] == inv;
    assert HasPendingInvite(invs', event.id, team.id, ToLower(email'));
    DecideCases(email', userEmail, event, team, user, invs', ms, id');
  }

  class InviteForm {
    const store: Store
    const event: BingoEvent
    const team: Team
    const user: User
    const userEmail: string
    var email: string
    var error: string
    var success: string

    constructor(store: Store, event: BingoEvent, team: Team, user: User, userEmail: string)
      ensures this.store == store && this.event == event && this.team == team && this.user == user
      ensures this.userEmail == userEmail
      ensures email == "" && error == "" && success == ""
    {
      this.store := store;
      this.event := event;
      this.team := team;
      this.user := user;
      this.userEmail := userEmail;
      email := "";
      error := "";
      success := "";
    }

    /** A submit: a refusal shows its message and stores nothing; a sent
        invitation is stored, the field is cleared and "Invitation sent!"
        shows. */
    method HandleSubmit(id: Id)
      modifies store`invitations, this`email, this`error, this`success
      ensures var r := Decide(old(email), userEmail, event, team, user, old(store.invitations), store.memberships, id);
              && (r.Refused? ==> store.invitations == old(store.invitations) && error == r.message
                                 && email == old(email) && success == old(success))
              && (r.Sent? ==> store.invitations == old(store.invitations) + [r.invitation]
                              && email == "" && error == "" && success == "Invitation sent!")
    {
      var r := Decide(email, userEmail, event, team, user, store.invitations, store.memberships, id);
      error := "";
      if r.Refused? {
        error := r.message;
        return;
      }
      store.CreateInvitation(r.invitation);
      success := "Invitation sent!";
      email := "";
      error := "";
    }
  }
}
